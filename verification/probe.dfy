/** One JSON-RPC probe (`MakeRpcRequest`) and the two named probes built on
    it (`ValidateRpcExists`, `ChainHasEip1559Support`). The HTTP transport is
    an oracle: a function from (url, request body) to what the POST did. */
module Probe {

  /** What one POST produced: it threw (transport failure, timeout, a body
      that could not be read), or it completed with a status and a body. */
  datatype HttpOutcome = Threw | Completed(isSuccessStatusCode: bool, body: string)

  /** The transport: the outcome of POSTing a request body to a URL. */
  type Network = (string, string) -> HttpOutcome

  /** The substring whose presence in a body counts as a JSON-RPC success. */
  const SuccessMarker: string := "result"

  const ClientVersionRequest: string :=
    "{\"jsonrpc\":\"2.0\",\"method\":\"web3_clientVersion\",\"params\":[],\"id\":67}"

  const FeeHistoryRequest: string :=
    "{\"jsonrpc\":\"2.0\",\"method\":\"eth_feeHistory\",\"params\":[4, \"latest\", [25, 75]],\"id\":1}"

  /** `p` occurs in `s` starting at position `i`. */
  predicate OccursAt(s: string, p: string, i: int) {
    0 <= i && i + |p| <= |s| && s[i..i + |p|] == p
  }

  /** Ordinal substring search (`string.Contains`). */
  function Contains(s: string, p: string): (r: bool)
    ensures r <==> exists i :: OccursAt(s, p, i)
    decreases |s|
  {
    if |s| < |p| then
      false
    else if s[..|p|] == p then
      assert OccursAt(s, p, 0);
      true
    else
      ShiftOccurrences(s, p);
      Contains(s[1..], p)
  }

  /** Dropping the first character of `s` shifts every later occurrence of
      `p` one place to the left. */
  lemma ShiftOccurrences(s: string, p: string)
    requires |s| >= 1 && !OccursAt(s, p, 0)
    ensures (exists i :: OccursAt(s, p, i)) <==> (exists j :: OccursAt(s[1..], p, j))
  {
    if i :| OccursAt(s, p, i) {
      assert s[1..][i - 1..i - 1 + |p|] == s[i..i + |p|];
      assert OccursAt(s[1..], p, i - 1);
    }
    if j :| OccursAt(s[1..], p, j) {
      assert s[1..][j..j + |p|] == s[j + 1..j + 1 + |p|];
      assert OccursAt(s, p, j + 1);
    }
  }

  /** Classifies one POST: a thrown exception or a non-success status is a
      failure; otherwise the probe succeeds exactly when the body contains
      the marker `"result"` anywhere. Never fails itself. */
  function MakeRpcRequest(net: Network, url: string, data: string): (r: bool)
    ensures r <==>
      && net(url, data).Completed?
      && net(url, data).isSuccessStatusCode
      && exists i :: OccursAt(net(url, data).body, SuccessMarker, i)
  {
    match net(url, data)
    case Threw => false
    case Completed(success, body) =>
      if !success then false else Contains(body, SuccessMarker)
  }

  /** Liveness probe: POSTs `web3_clientVersion` and succeeds exactly when
      that request completes with a success status and a body holding the
      marker. */
  function ValidateRpcExists(net: Network, url: string): (r: bool)
    ensures r <==>
      && net(url, ClientVersionRequest).Completed?
      && net(url, ClientVersionRequest).isSuccessStatusCode
      && exists i :: OccursAt(net(url, ClientVersionRequest).body, SuccessMarker, i)
  {
    MakeRpcRequest(net, url, ClientVersionRequest)
  }

  /** Capability probe: POSTs `eth_feeHistory` over 4 blocks and succeeds
      exactly when that request completes with a success status and a body
      holding the marker. */
  function ChainHasEip1559Support(net: Network, url: string): (r: bool)
    ensures r <==>
      && net(url, FeeHistoryRequest).Completed?
      && net(url, FeeHistoryRequest).isSuccessStatusCode
      && exists i :: OccursAt(net(url, FeeHistoryRequest).body, SuccessMarker, i)
  {
    MakeRpcRequest(net, url, FeeHistoryRequest)
  }

  /** The liveness probe as an oracle over URLs. The ensures hands the
      solver the pointwise rule directly, so that contracts mentioning the
      oracle need not unfold the lambda. */
  function Liveness(net: Network): (live: string -> bool)
    ensures forall url :: live(url) == ValidateRpcExists(net, url)
  {
    url => ValidateRpcExists(net, url)
  }

  /** The capability probe as an oracle over URLs, with the same pointwise
      rule. */
  function FeeHistory(net: Network): (fee: string -> bool)
    ensures forall url :: fee(url) == ChainHasEip1559Support(net, url)
  {
    url => ChainHasEip1559Support(net, url)
  }

  /** The marker heuristic is loose: a JSON-RPC error object whose text
      mentions "result" is classified as a success. */
  lemma ErrorBodyCountsAsSuccess(net: Network, url: string, data: string)
    requires net(url, data) == Completed(true, "{\"error\":{\"message\":\"no result\"}}")
    ensures MakeRpcRequest(net, url, data)
  {
    var body := "{\"error\":{\"message\":\"no result\"}}";
    assert body[24..30] == SuccessMarker;
    assert OccursAt(body, SuccessMarker, 24);
  }

  /** A success status alone is not enough: a body without the marker fails. */
  lemma SuccessStatusWithoutMarkerFails(net: Network, url: string, data: string)
    requires net(url, data) == Completed(true, "{\"id\":67}")
    ensures !MakeRpcRequest(net, url, data)
  {
    var body := "{\"id\":67}";
    forall i | 0 <= i && i + |SuccessMarker| <= |body|
      ensures !OccursAt(body, SuccessMarker, i)
    {
      assert body[i..i + 6][0] == body[i] != 'r';
    }

  }
}
