# Chain RPC scan — a Dafny model

This project models the core of NethereumChainInformationUtility. The utility
reads a public registry that maps chain identifiers to candidate JSON-RPC URLs.
It probes every URL for liveness with `web3_clientVersion`, and probes each
live URL for EIP-1559 support with `eth_feeHistory`. It then reports the working endpoints sorted by
chain identifier.

The model covers the body of `ScanRpcs` and the outcome rule of
`MakeRpcRequest`:

- `ChainIds` (`chain_ids.dfy`): `ulong.Parse` of a registry key, as a
  digit-by-digit parser with an overflow check.
- `Probe` (`probe.dfy`): the HTTP transport is an oracle `Network` from
  (url, request body) to the POST's outcome. `MakeRpcRequest` classifies that
  outcome. The two named probes use the program's fixed request bodies.
- `Candidates` (`candidates.dfy`): the filtering loop. A decoded registry entry
  is a small datatype whose fields may be absent or ill-typed. Each entry is
  kept as an `Rpc(chainId, rpcList)` or dropped on its own.
- `Scanner` (`scanner.dfy`): the two nested `Parallel.ForEach` loops, taken in
  their sequential meaning: a flattening over chains, then over URLs. The
  liveness and fee-history probes are oracle functions `string -> bool`.
- `Ordering` (`ordering.dfy`): the final sort by `ChainId`. `List.Sort` is not
  stable, so the contract promises only ascending chain identifiers and the
  same records. A lemma shows that every sorted arrangement of the same records
  has the same chain-identifier sequence.
- `Scan` (`scan.dfy`): `ScanRpcs` end to end.
- `Records` and `Wrappers`: the `Rpc` and `RpcInfo` records, and an `Option`
  type.

`ScanRpcs` appends to a plain `List<RpcInfo>` from many threads
(`Program.cs:81`), and `List<T>` is not safe for concurrent writers. The model
takes the sequential result, in which every append lands.

## Model

| member | source | states |
|---|---|---|
| ChainIds.ParseFrom | NethereumChainInformationUtility/Program.cs:58 | The digit-by-digit parse with its overflow check succeeds exactly when the rest of the key is all digits and the key's value is below 2^64. On success it yields that value. |
| ChainIds.ParseU64 | NethereumChainInformationUtility/Program.cs:58 | The key parses exactly when it is a non-empty string of decimal digits whose value fits in an unsigned 64-bit integer, and the result is that value. An empty, non-numeric or overflowing key fails. |
| ChainIds.ParseFormatRoundTrip | NethereumChainInformationUtility/Program.cs:58 | Every 64-bit chain identifier is recovered by parsing its decimal rendering. |
| Probe.Contains | NethereumChainInformationUtility/Program.cs:109 | The substring search is true exactly when the pattern occurs at some position of the body. |
| Probe.MakeRpcRequest | NethereumChainInformationUtility/Program.cs:98-115 | A probe succeeds exactly when the POST completed with a success status and its body contains `"result"` somewhere. A thrown exception or a non-success status gives false, and the probe never fails itself. |
| Probe.ValidateRpcExists | NethereumChainInformationUtility/Program.cs:93 | The liveness probe POSTs the fixed `web3_clientVersion` request (empty params, id 67). Under `MakeRpcRequest`'s rule it succeeds exactly when that request completes with a success status and a body containing `"result"`. `Probe.Liveness` passes it to the scan as an oracle over URLs. |
| Probe.ChainHasEip1559Support | NethereumChainInformationUtility/Program.cs:96 | The capability probe POSTs the fixed `eth_feeHistory` request with params `[4, "latest", [25, 75]]` (id 1). Under the same rule it succeeds exactly when that request completes with a success status and a body containing `"result"`. `Probe.FeeHistory` passes it to the scan as an oracle over URLs. |
| Probe.ErrorBodyCountsAsSuccess | NethereumChainInformationUtility/Program.cs:109 | The marker rule is loose: a JSON-RPC error body whose text mentions "result" is classified as a success. |
| Probe.SuccessStatusWithoutMarkerFails | NethereumChainInformationUtility/Program.cs:106-109 | A success status alone is not enough: a body without the marker classifies as a failure. |
| Candidates.BuildEntry | NethereumChainInformationUtility/Program.cs:56-68 | An entry is kept exactly when all of these hold: its key parses; its value is an object with a readable `rpcs` list; the list is non-empty; the list lacks `"rpcWorking:false"`; and `rpcWorking` does not read as true. An absent or unreadable flag keeps the entry. A kept entry carries the parsed identifier and the unmodified list. |
| Candidates.BuildCandidates | NethereumChainInformationUtility/Program.cs:54-69 | The scan list is no longer than the registry. Every scheduled chain has a non-empty URL list without the retired sentinel. |
| Candidates.BuildCandidatesAppend | NethereumChainInformationUtility/Program.cs:54-69 | Entries are processed independently and in order. The candidates of a concatenation are the concatenated candidates. |
| Candidates.DroppedEntryIsolated | NethereumChainInformationUtility/Program.cs:56-68 | A dropped entry anywhere in the registry leaves the treatment of every earlier and later entry unchanged. |
| Candidates.BuildCandidatesMembers | NethereumChainInformationUtility/Program.cs:66 | A chain is on the scan list exactly when some registry entry builds to it. |
| Candidates.CollectCandidates | NethereumChainInformationUtility/Program.cs:51-69 | The `foreach` loop with its per-entry `continue`s and catch builds exactly the filtered, order-preserving candidate list. |
| Scanner.EmitChain | NethereumChainInformationUtility/Program.cs:73-84 | Every record a chain yields carries that chain's identifier, one of its URLs, a live URL, and that URL's fee-history outcome. A chain yields no more records than it lists URLs. |
| Scanner.EmitChainAtMostOncePerUrl | NethereumChainInformationUtility/Program.cs:73-84 | A chain never yields more copies of a record than its URL is listed, since each listed URL is probed once and appends at most one record. |
| Scanner.Emit | NethereumChainInformationUtility/Program.cs:71-85 | Every emitted record is for a live URL, and its flag equals the fee-history probe's outcome. |
| Scanner.EmitChainCount | NethereumChainInformationUtility/Program.cs:73-84 | Within one chain, a record appears as often as its URL is listed, if the URL is live and the flag matches the fee probe. Otherwise it never appears. |
| Scanner.EmitCount | NethereumChainInformationUtility/Program.cs:71-85 | For each scheduled (chain, URL) pair there is exactly one record if the URL is live, with the fee-history outcome as its flag. Duplicated pairs give duplicated records. A failed fee probe still gives a record. |
| Scanner.EmitMembers | NethereumChainInformationUtility/Program.cs:77-81 | A record is emitted exactly when its URL is live, its flag is the fee-history outcome, and its (chain, URL) pair was scheduled. |
| Scanner.EmitLength | NethereumChainInformationUtility/Program.cs:71-85 | The number of records emitted equals the number of scheduled (chain, URL) pairs whose URL is live. |
| Scanner.ScheduledMembers | NethereumChainInformationUtility/Program.cs:71-73 | The scheduled units of work are exactly the pairs of a kept chain's identifier and one of that chain's URLs. |
| Scanner.ProbeChain | NethereumChainInformationUtility/Program.cs:73-84 | The inner loop, run URL by URL, appends exactly that chain's records in URL order. |
| Scanner.ProbeAll | NethereumChainInformationUtility/Program.cs:71-85 | The outer loop, run chain by chain, produces exactly the flattened emission. |
| Ordering.Insert | NethereumChainInformationUtility/Program.cs:87 | Inserting into a sorted sequence keeps it sorted by chain identifier and adds exactly one copy of the record. |
| Ordering.SortByChainId | NethereumChainInformationUtility/Program.cs:87 | The sort result ascends by chain identifier and is a permutation of its input. |
| Ordering.SortedKeysUnique | NethereumChainInformationUtility/Program.cs:87 | Two non-decreasing identifier sequences with the same contents are equal. |
| Ordering.ChainIdsPermutation | NethereumChainInformationUtility/Program.cs:87 | Permuting records permutes their chain identifiers. |
| Ordering.SortedArrangementsAgreeOnChainIds | NethereumChainInformationUtility/Program.cs:87 | Any two sorted arrangements of the same records list the same chain identifiers in the same order. Only ties may be ordered differently. |
| Scan.ScanRpcs | NethereumChainInformationUtility/Program.cs:49-90 | The report ascends by chain identifier and is a permutation of the emitted records. Each record appears once per scheduled pair whose URL passes `web3_clientVersion`, with the flag set by `eth_feeHistory`. The report's length is the number of live scheduled pairs. |
| Scan.AnyInterleavingSameChainOrder | NethereumChainInformationUtility/Program.cs:71-87 | In whatever order the workers appended the records, the sorted report lists the same chain identifiers in the same order as the sequential scan. |
| Scan.TwoChainsExample | NethereumChainInformationUtility/Program.cs:49-90 | Take chains 1 and 10, both live, where only chain 10's URL supports fee history. The report is chain 1 without EIP-1559 support, then chain 10 with it. |
| Scan.NoWorkExamples | NethereumChainInformationUtility/Program.cs:61-64 | A chain with an empty URL list, or one marked `rpcWorking: true`, produces no work. |

## Left out

- Fetching the registry over HTTP, `Environment.Exit` and console `Output` (`Program.cs:19-47`, `Program.cs:146`) are I/O and process control.
- Decoding JSON with Newtonsoft `dynamic`/`JObject` and `ToObject` (`Program.cs:31`, `Program.cs:58-59`, `Program.cs:64`) belongs to a foreign library. The decoded entry is the `Entry`/`ChainValue`/`Field` datatype. A field that is missing or JSON null is `Absent`, and one that `ToObject` cannot convert is `IllTyped`. The library's own conversions, such as numbers read as strings, are not modelled.
- ChainIds.ParseU64: accepts only plain decimal digits. It rejects three forms that `ulong.Parse` with default styles also accepts: leading or trailing white space (the fixed set U+0009 to U+000D and U+0020), a leading sign, and trailing NUL characters ("5\0" parses as 5). The sign strings come from the current culture's number format, which the model has no counterpart for; the white space and NUL rules are left out to keep the key grammar to bare digits.
- `Parallel.ForEach`, `MaxDegreeOfParallelism` and the `maxThreads` parameter (`Program.cs:71-85`) only bound concurrency. The model is the sequential result. Because of this, the `(int)maxThreads` cast is not modelled either: 0, or a value above `int.MaxValue` other than `uint.MaxValue`, would make the `ParallelOptions` initializer throw, so `ScanRpcs` throws.
- Concurrent `List.Add` (`Program.cs:81`) is unsynchronised. Under a race the real list can lose or corrupt writes. The model assumes every append lands. `Scan.AnyInterleavingSameChainOrder` covers every order of appends, not lost ones.
- The 5-second `HttpClient` timeout and the real POSTs (`Program.cs:24`, `Program.cs:102`) are network behaviour. The transport is the oracle `Network`, a function, so a URL that is listed twice gets the same probe outcome both times.
- The `catch { }` around each URL's work (`Program.cs:83`) never fires in the model, because both probes catch every exception themselves.
- `RpcInfo.ToString` and the record constructors carry no logic.
- `NethereumChainInformationUtility.Tests/UnitTest1.cs` only runs `Main` against the live network and checks the exit code.
