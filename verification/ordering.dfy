/** The final step of `ScanRpcs`: the collected records are sorted by chain
    identifier. The runtime sort is not stable, so the model promises only
    what any correct sort gives: ascending chain identifiers and the same
    records. */
module Ordering {
  import opened ChainIds
  import opened Records

  predicate SortedByChainId(s: seq<RpcInfo>) {
    forall i, j :: 0 <= i < j < |s| ==> s[i].chainId <= s[j].chainId
  }

  predicate NonDecreasing(ks: seq<u64>) {
    forall i, j :: 0 <= i < j < |ks| ==> ks[i] <= ks[j]
  }

  /** The chain identifiers of a record sequence, position by position. */
  function ChainIdsOf(s: seq<RpcInfo>): seq<u64> {
    seq(|s|, k requires 0 <= k < |s| => s[k].chainId)
  }

  /** Places one record into a sorted sequence. */
  function Insert(x: RpcInfo, s: seq<RpcInfo>): (r: seq<RpcInfo>)
    requires SortedByChainId(s)
    ensures SortedByChainId(r)
    ensures multiset(r) == multiset(s) + multiset{x}
    ensures |r| == |s| + 1 && (r[0] == x || (|s| > 0 && r[0] == s[0]))
    decreases |s|
  {
    if |s| == 0 then [x]
    else if x.chainId <= s[0].chainId then [x] + s
    else
      assert s == [s[0]] + s[1..];
      var rest := Insert(x, s[1..]);
      assert rest[0].chainId >= s[0].chainId;
      [s[0]] + rest
  }

  /** `result.Sort` by `ChainId`: ascending chain identifiers, same records. */
  function SortByChainId(s: seq<RpcInfo>): (r: seq<RpcInfo>)
    ensures SortedByChainId(r)
    ensures multiset(r) == multiset(s)
    decreases |s|
  {
    if |s| == 0 then []
    else
      assert s == [s[0]] + s[1..];
      Insert(s[0], SortByChainId(s[1..]))
  }

  /** Two non-decreasing sequences with the same elements are equal. */
  lemma {:induction false} SortedKeysUnique(x: seq<u64>, y: seq<u64>)
    requires NonDecreasing(x) && NonDecreasing(y)
    requires multiset(x) == multiset(y)
    ensures x == y
    decreases |x|
  {
    assert |x| == |multiset(x)| == |multiset(y)| == |y|;
    if |x| > 0 {
      assert x[0] in multiset(y);
      assert y[0] in multiset(x);
      assert x[0] == y[0];
      assert x == [x[0]] + x[1..];
      assert y == [y[0]] + y[1..];
      assert multiset(x) == multiset{x[0]} + multiset(x[1..]);
      assert multiset(y) == multiset{y[0]} + multiset(y[1..]);
      assert multiset(x[1..]) == multiset(x) - multiset{x[0]};
      assert multiset(y[1..]) == multiset(y) - multiset{y[0]};
      SortedKeysUnique(x[1..], y[1..]);
    }
  }

  /** Taking out position `j` takes one copy of `s[j]` out of the contents. */
  lemma RemoveAtContents<T>(s: seq<T>, j: nat)
    requires j < |s|
    ensures multiset(s[..j] + s[j + 1..]) == multiset(s) - multiset{s[j]}
  {
    assert s == s[..j] + [s[j]] + s[j + 1..];
  }

  lemma ChainIdsRemoveAt(s: seq<RpcInfo>, j: nat)
    requires j < |s|
    ensures ChainIdsOf(s[..j] + s[j + 1..]) == ChainIdsOf(s)[..j] + ChainIdsOf(s)[j + 1..]
  {
  }

  /** One step of the permutation argument: matching `a[0]` with `b[j]`
      carries equal key contents from the remainders to the wholes. */
  lemma ChainIdsPermutationStep(a: seq<RpcInfo>, b: seq<RpcInfo>, j: nat)
    requires |a| > 0 && j < |b| && b[j] == a[0]
    requires multiset(ChainIdsOf(a[1..])) == multiset(ChainIdsOf(b[..j] + b[j + 1..]))
    ensures multiset(ChainIdsOf(a)) == multiset(ChainIdsOf(b))
  {
    var ka := ChainIdsOf(a);
    var kb := ChainIdsOf(b);
    assert ChainIdsOf(a[1..]) == ka[1..];
    ChainIdsRemoveAt(b, j);
    RemoveAtContents(kb, j);
    assert ka == [ka[0]] + ka[1..];
    assert multiset(ka) == multiset{ka[0]} + multiset(ka[1..]);
    assert kb[j] in multiset(kb);
    assert multiset(kb) == (multiset(kb) - multiset{kb[j]}) + multiset{kb[j]};
  }

  /** Records with the same contents have chain identifiers with the same
      contents. */
  lemma {:induction false} ChainIdsPermutation(a: seq<RpcInfo>, b: seq<RpcInfo>)
    requires multiset(a) == multiset(b)
    ensures multiset(ChainIdsOf(a)) == multiset(ChainIdsOf(b))
    decreases |a|
  {
    assert |a| == |multiset(a)| == |multiset(b)| == |b|;
    if |a| > 0 {
      assert a[0] in multiset(b);
      var j :| 0 <= j < |b| && b[j] == a[0];
      RemoveAtContents(b, j);
      RemoveAtContents(a, 0);
      assert a[..0] + a[1..] == a[1..];
      ChainIdsPermutation(a[1..], b[..j] + b[j + 1..]);
      ChainIdsPermutationStep(a, b, j);
    }
  }

  /** However the concurrent workers interleaved their appends, and however
      the unstable sort broke ties, the final chain identifier sequence is
      the same: any two sorted arrangements of the same records agree on it. */
  lemma SortedArrangementsAgreeOnChainIds(a: seq<RpcInfo>, b: seq<RpcInfo>)
    requires SortedByChainId(a) && SortedByChainId(b)
    requires multiset(a) == multiset(b)
    ensures ChainIdsOf(a) == ChainIdsOf(b)
  {
    ChainIdsPermutation(a, b);
    SortedKeysUnique(ChainIdsOf(a), ChainIdsOf(b));
  }
}
