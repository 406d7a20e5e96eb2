/** The probing stage of `ScanRpcs`: every URL of every scheduled chain is
    probed for liveness, and each live URL yields one record carrying the
    outcome of the fee-history probe. The two nested `Parallel.ForEach`
    loops are modelled by their sequential meaning, a flattening over chains
    and then over URLs; the probes are oracles. */
module Scanner {
  import opened ChainIds
  import opened Records

  /** The records one chain's URLs yield, in URL order. */
  function EmitChain(chainId: u64, urls: seq<string>, live: string -> bool, fee: string -> bool)
    : (out: seq<RpcInfo>)
    ensures |out| <= |urls|
    ensures forall k :: 0 <= k < |out| ==>
      && out[k].chainId == chainId
      && out[k].rpc in urls
      && live(out[k].rpc)
      && out[k].hasEip1559Support == fee(out[k].rpc)
    decreases |urls|
  {
    if |urls| == 0 then []
    else
      var url := urls[0];
      var rest := EmitChain(chainId, urls[1..], live, fee);
      if live(url) then [RpcInfo(chainId, url, fee(url))] + rest else rest
  }

  /** The records the whole scan emits, chain by chain. Every record is for a
      live URL and carries that URL's fee-history outcome. */
  function Emit(toScan: seq<Rpc>, live: string -> bool, fee: string -> bool): (out: seq<RpcInfo>)
    ensures forall k :: 0 <= k < |out| ==>
      live(out[k].rpc) && out[k].hasEip1559Support == fee(out[k].rpc)
    decreases |toScan|
  {
    if |toScan| == 0 then []
    else EmitChain(toScan[0].chainId, toScan[0].rpcList, live, fee) + Emit(toScan[1..], live, fee)
  }

  /** The (chain, URL) pairs one chain schedules. */
  function ChainPairs(chainId: u64, urls: seq<string>): seq<(u64, string)>
    decreases |urls|
  {
    if |urls| == 0 then [] else [(chainId, urls[0])] + ChainPairs(chainId, urls[1..])
  }

  /** Every (chain, URL) unit of work the scan schedules, duplicates kept. */
  function Scheduled(toScan: seq<Rpc>): seq<(u64, string)>
    decreases |toScan|
  {
    if |toScan| == 0 then []
    else ChainPairs(toScan[0].chainId, toScan[0].rpcList) + Scheduled(toScan[1..])
  }

  /** How many of the given units of work have a live URL. */
  function LiveCount(pairs: seq<(u64, string)>, live: string -> bool): nat
    decreases |pairs|
  {
    if |pairs| == 0 then 0
    else (if live(pairs[0].1) then 1 else 0) + LiveCount(pairs[1..], live)
  }

  /** How often a record is emitted for one chain: once per occurrence of
      its (chain, URL) pair when the URL is live and the record's flag is the
      fee-history outcome, never otherwise. */
  lemma {:induction false} EmitChainCount(chainId: u64, urls: seq<string>,
                                          live: string -> bool, fee: string -> bool, info: RpcInfo)
    ensures multiset(EmitChain(chainId, urls, live, fee))[info] ==
      if live(info.rpc) && fee(info.rpc) == info.hasEip1559Support
      then multiset(ChainPairs(chainId, urls))[(info.chainId, info.rpc)]
      else 0
    decreases |urls|
  {
    if |urls| > 0 {
      EmitChainCount(chainId, urls[1..], live, fee, info);
      var url := urls[0];
      var rest := EmitChain(chainId, urls[1..], live, fee);
      var pairs := ChainPairs(chainId, urls[1..]);
      assert ChainPairs(chainId, urls) == [(chainId, url)] + pairs;
      assert multiset(ChainPairs(chainId, urls)) == multiset{(chainId, url)} + multiset(pairs);
      if live(url) {
        assert EmitChain(chainId, urls, live, fee) == [RpcInfo(chainId, url, fee(url))] + rest;
        assert multiset(EmitChain(chainId, urls, live, fee)) ==
          multiset{RpcInfo(chainId, url, fee(url))} + multiset(rest);
      }
    }
  }

  /** A chain never yields more copies of a record than its URL is listed:
      each listed URL is probed once and appends at most one record. */
  lemma {:induction false} EmitChainAtMostOncePerUrl(chainId: u64, urls: seq<string>,
                                                     live: string -> bool, fee: string -> bool, info: RpcInfo)
    ensures multiset(EmitChain(chainId, urls, live, fee))[info] <= multiset(urls)[info.rpc]
    decreases |urls|
  {
    if |urls| > 0 {
      EmitChainAtMostOncePerUrl(chainId, urls[1..], live, fee, info);
      var url := urls[0];
      var rest := EmitChain(chainId, urls[1..], live, fee);
      assert urls == [url] + urls[1..];
      assert multiset(urls) == multiset{url} + multiset(urls[1..]);
      if live(url) {
        assert EmitChain(chainId, urls, live, fee) == [RpcInfo(chainId, url, fee(url))] + rest;
        assert multiset(EmitChain(chainId, urls, live, fee)) ==
          multiset{RpcInfo(chainId, url, fee(url))} + multiset(rest);
      }
    }
  }

  /** Across the whole scan: a record appears exactly as often as its
      (chain, URL) pair was scheduled, provided the URL is live and the flag
      equals the fee-history outcome; nothing is deduplicated, and a failed
      fee-history probe still yields a record (with the flag false). */
  lemma {:induction false} EmitCount(toScan: seq<Rpc>, live: string -> bool,
                                     fee: string -> bool, info: RpcInfo)
    ensures multiset(Emit(toScan, live, fee))[info] ==
      if live(info.rpc) && fee(info.rpc) == info.hasEip1559Support
      then multiset(Scheduled(toScan))[(info.chainId, info.rpc)]
      else 0
    decreases |toScan|
  {
    if |toScan| > 0 {
      EmitCount(toScan[1..], live, fee, info);
      EmitChainCount(toScan[0].chainId, toScan[0].rpcList, live, fee, info);
    }
  }

  /** A record is in the output exactly when its URL is live, its flag is
      the fee-history outcome, and its (chain, URL) pair was scheduled. */
  lemma EmitMembers(toScan: seq<Rpc>, live: string -> bool, fee: string -> bool, info: RpcInfo)
    ensures info in Emit(toScan, live, fee) <==>
      && live(info.rpc)
      && fee(info.rpc) == info.hasEip1559Support
      && (info.chainId, info.rpc) in Scheduled(toScan)
  {
    EmitCount(toScan, live, fee, info);
  }

  lemma {:induction false} LiveCountAppend(a: seq<(u64, string)>, b: seq<(u64, string)>, live: string -> bool)
    ensures LiveCount(a + b, live) == LiveCount(a, live) + LiveCount(b, live)
    decreases |a|
  {
    if |a| > 0 {
      assert (a + b)[1..] == a[1..] + b;
      LiveCountAppend(a[1..], b, live);
    } else {
      assert a + b == b;
    }
  }

  lemma {:induction false} EmitChainLength(chainId: u64, urls: seq<string>, live: string -> bool, fee: string -> bool)
    ensures |EmitChain(chainId, urls, live, fee)| == LiveCount(ChainPairs(chainId, urls), live)
    decreases |urls|
  {
    if |urls| > 0 {
      EmitChainLength(chainId, urls[1..], live, fee);
      assert ChainPairs(chainId, urls)[1..] == ChainPairs(chainId, urls[1..]);
    }
  }

  /** The scan emits exactly one record per live scheduled unit of work. */
  lemma {:induction false} EmitLength(toScan: seq<Rpc>, live: string -> bool, fee: string -> bool)
    ensures |Emit(toScan, live, fee)| == LiveCount(Scheduled(toScan), live)
    decreases |toScan|
  {
    if |toScan| > 0 {
      EmitLength(toScan[1..], live, fee);
      EmitChainLength(toScan[0].chainId, toScan[0].rpcList, live, fee);
      LiveCountAppend(ChainPairs(toScan[0].chainId, toScan[0].rpcList), Scheduled(toScan[1..]), live);
    }
  }

  lemma {:induction false} ChainPairsMembers(chainId: u64, urls: seq<string>, c: u64, u: string)
    ensures (c, u) in ChainPairs(chainId, urls) <==> c == chainId && u in urls
    decreases |urls|
  {
    if |urls| > 0 {
      ChainPairsMembers(chainId, urls[1..], c, u);
      assert urls == [urls[0]] + urls[1..];
    }
  }

  /** The units of work are exactly the URLs of the scheduled chains. */
  lemma {:induction false} ScheduledMembers(toScan: seq<Rpc>, c: u64, u: string)
    ensures (c, u) in Scheduled(toScan) <==>
      exists i :: 0 <= i < |toScan| && toScan[i].chainId == c && u in toScan[i].rpcList
    decreases |toScan|
  {
    if |toScan| > 0 {
      ScheduledMembers(toScan[1..], c, u);
      ChainPairsMembers(toScan[0].chainId, toScan[0].rpcList, c, u);
      if i :| 0 <= i < |toScan| && toScan[i].chainId == c && u in toScan[i].rpcList {
        if i > 0 {
          assert toScan[1..][i - 1] == toScan[i];
        }
      }
      if i :| 0 <= i < |toScan[1..]| && toScan[1..][i].chainId == c && u in toScan[1..][i].rpcList {
        assert toScan[i + 1] == toScan[1..][i];
      }
    }
  }

  lemma {:induction false} EmitChainAppend(chainId: u64, a: seq<string>, b: seq<string>,
                                           live: string -> bool, fee: string -> bool)
    ensures EmitChain(chainId, a + b, live, fee) == EmitChain(chainId, a, live, fee) + EmitChain(chainId, b, live, fee)
    decreases |a|
  {
    if |a| > 0 {
      assert (a + b)[1..] == a[1..] + b;
      EmitChainAppend(chainId, a[1..], b, live, fee);
    } else {
      assert a + b == b;
    }
  }

  lemma {:induction false} EmitAppend(a: seq<Rpc>, b: seq<Rpc>, live: string -> bool, fee: string -> bool)
    ensures Emit(a + b, live, fee) == Emit(a, live, fee) + Emit(b, live, fee)
    decreases |a|
  {
    if |a| > 0 {
      assert (a + b)[1..] == a[1..] + b;
      EmitAppend(a[1..], b, live, fee);
    } else {
      assert a + b == b;
    }
  }

  /** The inner loop: each URL of one chain is probed for liveness, and a
      live URL appends one record with its fee-history outcome. */
  method ProbeChain(chainId: u64, urls: seq<string>, live: string -> bool, fee: string -> bool)
    returns (found: seq<RpcInfo>)
    ensures found == EmitChain(chainId, urls, live, fee)
  {
    found := [];
    var j := 0;
    while j < |urls|
      invariant 0 <= j <= |urls|
      invariant found == EmitChain(chainId, urls[..j], live, fee)
    {
      var url := urls[j];
      EmitChainAppend(chainId, urls[..j], [url], live, fee);
      assert urls[..j + 1] == urls[..j] + [url];
      var isValid := live(url);
      if isValid {
        found := found + [RpcInfo(chainId, url, fee(url))];
      }
      j := j + 1;
    }
    assert urls[..j] == urls;
  }

  /** The outer loop: the chains are probed one after the other and their
      records appended to the shared result. */
  method ProbeAll(toScan: seq<Rpc>, live: string -> bool, fee: string -> bool)
    returns (result: seq<RpcInfo>)
    ensures result == Emit(toScan, live, fee)
  {
    result := [];
    var i := 0;
    while i < |toScan|
      invariant 0 <= i <= |toScan|
      invariant result == Emit(toScan[..i], live, fee)
    {
      var rpcDto := toScan[i];
      var found := ProbeChain(rpcDto.chainId, rpcDto.rpcList, live, fee);
      EmitAppend(toScan[..i], [rpcDto], live, fee);
      assert toScan[..i + 1] == toScan[..i] + [rpcDto];
      result := result + found;
      i := i + 1;
    }
    assert toScan[..i] == toScan;
  }
}
