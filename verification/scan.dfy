/** `ScanRpcs` end to end: filter the registry, probe every URL of every kept
    chain, sort the records by chain identifier. */
module Scan {
  import opened Wrappers
  import opened ChainIds
  import opened Records
  import opened Probe
  import opened Candidates
  import opened Scanner
  import opened Ordering

  /** The scan in its sequential meaning. The report is ordered by chain
      identifier and holds, for every (chain, URL) unit of work whose URL
      passes the liveness probe, exactly one record whose flag is the
      fee-history probe's outcome; duplicated units yield duplicated
      records, and dead URLs yield none. */
  method ScanRpcs(entries: seq<Entry>, net: Network) returns (result: seq<RpcInfo>)
    ensures SortedByChainId(result)
    ensures multiset(result) == multiset(Emit(BuildCandidates(entries), Liveness(net), FeeHistory(net)))
    ensures forall info :: multiset(result)[info] ==
                           if ValidateRpcExists(net, info.rpc) && ChainHasEip1559Support(net, info.rpc) == info.hasEip1559Support
                           then multiset(Scheduled(BuildCandidates(entries)))[(info.chainId, info.rpc)]
                           else 0
    ensures |result| == LiveCount(Scheduled(BuildCandidates(entries)), Liveness(net))
  {
    var toScan := CollectCandidates(entries);
    var collected := ProbeAll(toScan, Liveness(net), FeeHistory(net));
    result := SortByChainId(collected);
    forall info: RpcInfo
      ensures multiset(result)[info] ==
        if ValidateRpcExists(net, info.rpc) && ChainHasEip1559Support(net, info.rpc) == info.hasEip1559Support
        then multiset(Scheduled(toScan))[(info.chainId, info.rpc)]
        else 0
    {
      EmitCount(toScan, Liveness(net), FeeHistory(net), info);
    }
    EmitLength(toScan, Liveness(net), FeeHistory(net));
    assert |result| == |multiset(result)| == |multiset(collected)| == |collected|;
  }

  /** The concurrent workers append to the shared list in no fixed order.
      Whatever order they produced (any arrangement of the emitted records),
      the sorted report lists the same chain identifiers in the same order
      as the sequential scan's. */
  lemma AnyInterleavingSameChainOrder(toScan: seq<Rpc>, live: string -> bool, fee: string -> bool,
                                      collected: seq<RpcInfo>)
    requires multiset(collected) == multiset(Emit(toScan, live, fee))
    ensures ChainIdsOf(SortByChainId(collected)) == ChainIdsOf(SortByChainId(Emit(toScan, live, fee)))
  {
    SortedArrangementsAgreeOnChainIds(SortByChainId(collected), SortByChainId(Emit(toScan, live, fee)));
  }

  /** Two chains, both URLs live, only the second with fee history. */
  lemma TwoChainsExample()
    ensures
      var entries := [Entry("1", ChainObject(Present(["http://a"]), Absent)),
                      Entry("10", ChainObject(Present(["http://b"]), Absent))];
      SortByChainId(Emit(BuildCandidates(entries), _ => true, url => url == "http://b"))
        == [RpcInfo(1, "http://a", false), RpcInfo(10, "http://b", true)]
  {
    assert ParseU64("1") == Some(1);
    assert ParseU64("10") == Some(10);
  }

  /** A chain with no URLs, or already marked working, produces no work. */
  lemma NoWorkExamples()
    ensures BuildCandidates([Entry("5", ChainObject(Present([]), Absent))]) == []
    ensures BuildCandidates([Entry("7", ChainObject(Present(["http://x"]), Present(true)))]) == []
  {
  }
}
