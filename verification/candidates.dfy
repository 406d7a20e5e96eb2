/** The filtering loop at the start of `ScanRpcs`: turns the decoded chain
    registry into the list of chains to probe, dropping malformed, empty,
    retired and already-known-working entries one at a time. */
module Candidates {
  import opened Wrappers
  import opened ChainIds
  import opened Records

  /** The literal an `rpcs` list carries to mark a chain as retired. */
  const RetiredSentinel: string := "rpcWorking:false"

  /** A field of a decoded registry object as the program reads it: missing
      (or JSON null), present but not convertible to the wanted type, or
      present with a value. */
  datatype Field<T> = Absent | IllTyped | Present(value: T)

  /** The value stored under one registry key. */
  datatype ChainValue =
    | NotAnObject
    | ChainObject(rpcs: Field<seq<string>>, rpcWorking: Field<bool>)

  /** One key/value pair of the registry, in document order. */
  datatype Entry = Entry(name: string, value: ChainValue)

  /** The body of one iteration of the filtering loop. Parsing the key or
      reading `rpcs` fails the whole iteration (the outer catch drops the
      entry); an empty list or one holding the retired sentinel is skipped;
      a `rpcWorking` flag skips the entry only when it reads as `true`, since
      the inner catch swallows a missing or unreadable flag. */
  function BuildEntry(e: Entry): (r: Option<Rpc>)
    ensures r.Some? <==>
      && ParseU64(e.name).Some?
      && e.value.ChainObject?
      && e.value.rpcs.Present?
      && |e.value.rpcs.value| > 0
      && RetiredSentinel !in e.value.rpcs.value
      && e.value.rpcWorking != Present(true)
    ensures r.Some? ==> r.value == Rpc(ParseU64(e.name).value, e.value.rpcs.value)
  {
    var chainId :- ParseU64(e.name);
    match e.value
    case NotAnObject => None
    case ChainObject(rpcs, rpcWorking) =>
      match rpcs
      case Absent => None
      case IllTyped => None
      case Present(rpcList) =>
        if |rpcList| == 0 then None
        else if RetiredSentinel in rpcList then None
        else if rpcWorking == Present(true) then None
        else Some(Rpc(chainId, rpcList))
  }

  /** The chains to scan, in registry order. Every kept chain has a
      non-empty URL list without the retired sentinel. */
  function BuildCandidates(entries: seq<Entry>): (toScan: seq<Rpc>)
    ensures |toScan| <= |entries|
    ensures forall k :: 0 <= k < |toScan| ==>
      |toScan[k].rpcList| > 0 && RetiredSentinel !in toScan[k].rpcList
    decreases |entries|
  {
    if |entries| == 0 then []
    else
      var rest := BuildCandidates(entries[1..]);
      match BuildEntry(entries[0])
      case None => rest
      case Some(c) => [c] + rest
  }

  /** The loop treats entries independently: the candidates of a
      concatenation are the concatenation of the candidates. */
  lemma {:induction false} BuildCandidatesAppend(a: seq<Entry>, b: seq<Entry>)
    ensures BuildCandidates(a + b) == BuildCandidates(a) + BuildCandidates(b)
    decreases |a|
  {
    if |a| > 0 {
      assert (a + b)[1..] == a[1..] + b;
      BuildCandidatesAppend(a[1..], b);
    } else {
      assert a + b == b;
    }
  }

  /** A dropped entry, wherever it sits, changes nothing for the entries
      around it: earlier and later entries are processed exactly as if it
      were absent. */
  lemma DroppedEntryIsolated(before: seq<Entry>, bad: Entry, after: seq<Entry>)
    requires BuildEntry(bad).None?
    ensures BuildCandidates(before + [bad] + after) == BuildCandidates(before + after)
  {
    BuildCandidatesAppend(before + [bad], after);
    BuildCandidatesAppend(before, [bad]);
    BuildCandidatesAppend(before, after);
    assert [bad][1..] == [];
  }

  /** A chain is scheduled exactly when some entry builds to it. */
  lemma {:induction false} BuildCandidatesMembers(entries: seq<Entry>, c: Rpc)
    ensures c in BuildCandidates(entries) <==>
      exists i :: 0 <= i < |entries| && BuildEntry(entries[i]) == Some(c)
    decreases |entries|
  {
    if |entries| > 0 {
      BuildCandidatesMembers(entries[1..], c);
      if exists i :: 0 <= i < |entries[1..]| && BuildEntry(entries[1..][i]) == Some(c) {
        var i :| 0 <= i < |entries[1..]| && BuildEntry(entries[1..][i]) == Some(c);
        assert BuildEntry(entries[i + 1]) == Some(c);
      }
      if i :| 0 <= i < |entries| && BuildEntry(entries[i]) == Some(c) {
        if i > 0 {
          assert BuildEntry(entries[1..][i - 1]) == Some(c);
        }
      }
    }
  }

  /** The filtering loop as written: a `foreach` over the registry that
      appends each kept chain to the scan list. */
  method CollectCandidates(entries: seq<Entry>) returns (toScan: seq<Rpc>)
    ensures toScan == BuildCandidates(entries)
  {
    toScan := [];
    var i := 0;
    while i < |entries|
      invariant 0 <= i <= |entries|
      invariant toScan == BuildCandidates(entries[..i])
    {
      BuildCandidatesAppend(entries[..i], [entries[i]]);
      assert entries[..i + 1] == entries[..i] + [entries[i]];
      match BuildEntry(entries[i]) {
        case None =>
        case Some(c) =>
          toScan := toScan + [c];
      }
      i := i + 1;
    }
    assert entries[..i] == entries;
  }
}
