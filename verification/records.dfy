/** The two records of the scan: a chain scheduled for probing (`Rpc`) and a
    working endpoint found by the scan (`RpcInfo`). */
module Records {
  import opened ChainIds

  /** A chain kept by the candidate builder, with its full URL list. */
  datatype Rpc = Rpc(chainId: u64, rpcList: seq<string>)

  /** One endpoint that answered the liveness probe, and whether it also
      answered the fee-history probe. */
  datatype RpcInfo = RpcInfo(chainId: u64, rpc: string, hasEip1559Support: bool)
}
