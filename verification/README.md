# EDR, modelled and proved in Dafny

This project models the parts of EDR (the Ethereum development runtime) whose correctness is hardest to see from
the code, and proves what they promise for every input, every run or every reachable state. `dafny verify
dfyconfig.toml` checks all of it.

| files | what they model |
|---|---|
| `SyntaxTree`, `Instrument`, `Meaning` | the coverage instrumentation of Solidity sources: tree cursor, metadata pass, cursor-queue printer, and what instrumentation does to the meaning of a program |
| `Collector`, `Transparency` | the inspector that answers the inserted calls at run time, and instrumented functions that call each other under it |
| `StateDiff`, `Bloom`, `AccessList`, `BlockBuilder`, `DebugTrace` | building a block, the diff accumulated beside its state, finalizing it, and tracing one of its transactions |
| `Rlp`, `Receipt`, `OpReceipt`, `Envelope` | receipts in RLP inside EIP-2718 envelopes, for L1, OP and generic chains |
| `IntervalMiner` | the background miner and the request handler that replaces it while holding the data lock |
| `Difficulty`, `OpFees`, `OpBlock` | Ethash difficulty; OP extra data and base fees, and chains of OP blocks |
| `GasReport`, `Logger`, `Decimal` | merging gas reports, the console logger's state machine, rendering of amounts |
| `Prelude`, `Bytes`, `Arithmetic` | options, integer encodings, 256-bit numbers and floor division |

Code that updates things in place is modelled by classes and methods with loops; each is proved equal to a function on
values, and the laws are lemmas about those functions over whole runs. The EVM is a deterministic function of state,
block environment and transaction. Hashes, the bits of a bloom input, the parser's tree and the contract decoder are
parameters. A panic is an explicit result (`None`, `false`, or an error).

## What turned out not to hold

Each of these has a lemma with the exact condition under which the property does hold.

- The diff a builder hands out does not lead from the initial state to the one it hands out if an account ends alive
  that was destroyed in the block, ends emptied after it was created in the block, inherits slots from before its storage
  last started afresh, or was loaded untouched and then paid a reward (`StateDiff.DiffDescribesStateIff`,
  `BlockBuilder.BuiltDiffDescribesStateIff`, `StateDiff.RevivedAccountIsLost`).
- Finalizing replaces the gas limit the executions ran under by the parent's when none was given, and a zero timestamp
  by the clock, so a trace under the final header can differ from the build
  (`DebugTrace.TraceMatchesBuild`, `DebugTrace.TraceDiffersUnlessEnvironmentIsKept`).
- A finalized header can carry more gas than its limit, when the builder enforced a limit above the parent's
  (`BlockBuilder.FinalGasLimitHolds`, `BlockBuilder.FinalGasCanExceedLimit`).
- A failed EIP-658 receipt and a receipt of the generic chain's unrecognized type do not decode
  (`Envelope.EnvelopeRoundTripIff`). On OP, neither do failed receipts; a deposit without version, or with nonce zero,
  decodes as an EIP-658 receipt, a version zero is dropped, and a legacy receipt decodes as a successful EIP-658 one
  (`Envelope.OpEnvelopeRoundTripIff`, `OpReceipt.DepositsReadAs`, `OpReceipt.LegacyReadsAsSuccessful`).
- Decoding accepts more than encoding writes: a log under a string's header and, on OP, single or empty trailing fields
  and the legacy layout (`Receipt.ReceiptIsCanonicalIff`, `OpReceipt.OpReceiptIsCanonicalIff`).
- A frame that reads its return data between its first coverage call and its first subcall may see the data of another
  frame (`Collector.SeenTheSameIff`). Instrumented functions that call each other behave as the originals if no operation
  of a frame can tell an empty buffer from any data before the frame's first call; in the outermost frame of a
  transaction that may happen, in the frames below it not (`Transparency.InstrumentedFrameIsTransparent`,
  `Transparency.OutermostFrameIsTransparent`, `Transparency.NestedDifferenceIsSeen`, `Transparency.NestedReadIsSeen`).
- The difficulty wraps at 256 bits; from 25.8 million blocks past the delay the bomb is gone
  (`Difficulty.DifficultyIsCanonicalIff`, `Difficulty.LateBlocksAreNotCanonical`).
- A timestamp before the parent's, such as the zero of a header that was given none (crates/block/header/src/lib.rs:366),
  makes the pre-merge difficulty panic in a build with overflow checks, and gives the largest reduction in one without
  (`Difficulty.CalculateEthashCanonicalDifficulty`, `Difficulty.EarlierTimestampReducesMost`).
- A later block can be harder than an earlier one: where the 256-bit sum wraps for one of two timestamps and not for the
  other (`Difficulty.NonIncreasingInTimestampIff`, `Difficulty.LaterBlockCanBeHarder`), and across the parent's timestamp in a build without overflow checks
  (`Difficulty.NonIncreasingAcrossParentIff`, `Difficulty.EarlierBlockCanBeEasier`).
- Where a 128-bit product overflows, a build without overflow checks computes another fee than EIP-1559's, and one that
  can fall as gas rises (`OpFees.UncheckedFeeIsEip1559Iff`, `OpFees.WrappedFeeCanFall`).
- No Jovian block can be built on a parent that carries no minimum base fee, such as a Holocene block: the first one
  panics unless its extra data and its base fee are given (`OpBlock.JovianBlockIsBuiltIff`,
  `OpBlock.JovianActivationNeedsOverrides`). The fee the provider announces is the one the next block is built with,
  except on the last block before Holocene, where announcing panics (`OpBlock.AnnouncedFeeIsBuilt`,
  `OpBlock.HoloceneActivationIsNotAnnounced`). A genesis block announces its own parameters instead of the next block's
  (`OpBlock.LocalChainPaysSchedule`).
- A block with an empty diff left the state as it was, but not the other way round: a block that only loaded accounts
  gets a derived access list hash on an unchanged state (`BlockBuilder.EmptyDiffMeansUnchanged`,
  `BlockBuilder.LoadsGetDerivedHashIff`, `BlockBuilder.LoadedBlockLooksChanged`).
- With logging disabled, mining on request can panic for want of a line (`Logger.MiningPanicsIff`); an interval-mining
  range line can span non-empty blocks (`Logger.RangeLineIsTruthfulIff`); a repeated method can overwrite a blank line
  instead of its own (`Logger.RepeatReplacesOwnLineIff`).
- Leading zeros of a fraction are lost: 1.05 gwei prints as `1.5` (`Decimal.DecimalStringIsTruncationIff`).

Where code and comments disagree, the model follows the code: `calculate_next_base_fee_per_gas` is documented to panic
when the parent has no base fee and in fact starts from the initial base fee
(crates/block/header/src/lib.rs:666-692); `block_access_list_hash` is documented to give no two blocks of a chain the
same hash, which is so for state-changing blocks only (crates/edr_chain_l1/src/block.rs:909-933).

## Model

| member | source | states |
|---|---|---|
| SyntaxTree.NextNonDescendantSkipsSubtree | crates/edr_instrument/src/coverage.rs:164-165 | Skipping a subtree leaves exactly the nodes after it still to be visited, and the next node starts where the skipped text ends. |
| SyntaxTree.NextExpandsNode | crates/edr_instrument/src/coverage.rs:188-188 | One cursor step replaces the current node by its children in the list of nodes to visit, with the right text offset. |
| SyntaxTree.Utf16LengthIsExact | crates/edr_instrument/src/coverage.rs:96-102 | The offsets count the code units of the text's UTF-16 form, surrogate pairs included. |
| Instrument.TagsAreDistinct | crates/edr_instrument/src/coverage.rs:37-50 | Two statements have the same tag if and only if source id, content hash and statement number agree, whatever the lengths of the ids. |
| Instrument.TagsOfFileAreDistinct | crates/edr_instrument/src/coverage.rs:82-94 | The tags of statements i and j of one file are equal if and only if i is j, as long as the hash tells their inputs apart. |
| Instrument.HitTextTellsTag | crates/edr_instrument/src/coverage.rs:171-180 | The inserted call is the library's, its payload is the tag in hexadecimal, and calls for different tags differ. |
| Bytes.HexExample | crates/edr_instrument/src/coverage.rs:171-180 | Lower-case digits, the high half of each byte first. |
| Bytes.LittleEndianByte | crates/edr_instrument/src/coverage.rs:46-46 | Byte i of a little-endian number is the i-th from the least significant. |
| Instrument.CollectMetadata | crates/edr_instrument/src/coverage.rs:84-108 | The first pass yields one entry per statement in source order, with its tag and its UTF-16 range. |
| Instrument.WrapStep | crates/edr_instrument/src/coverage.rs:122-170 | Re-rooting a lone body under a new block and skipping it in the old cursor changes neither the text still to be printed nor the statements left, and lowers the loop's measure although nodes are added. |
| Instrument.PrintStep | crates/edr_instrument/src/coverage.rs:171-189 | Every other step prints exactly the next fragment of the recursive printer's text and lowers the measure. |
| Instrument.PrintInstrumented | crates/edr_instrument/src/coverage.rs:110-190 | The cursor-queue loop terminates, never asks a root statement for its parent, never runs out of metadata, and prints what the recursive printer prints. |
| Instrument.InstrumentCode | crates/edr_instrument/src/coverage.rs:65-198 | An invalid file is refused; otherwise there is one entry per statement, the i-th with the hash of source id, content hash and i + 1 as eight little-endian bytes for its tag, and the source is the recursive printer's text with these tags, followed by the library import. |
| Instrument.ErasureOfNode | crates/edr_instrument/src/coverage.rs:110-192 | Deleting the inserted hits and braces from the output gives back the original text. |
| Instrument.HitsStandBeforeTheirStatements | crates/edr_instrument/src/coverage.rs:84-180 | The k-th hit carries the k-th tag and stands where the k-th metadata range starts, with the range's text following it; there are as many hits as entries. |
| Meaning.InstrumentationSimulates | crates/edr_instrument/src/coverage.rs:110-190 | For every body of blocks, branches and loops, run instrumented on any machine that simulates the original's: a related final state, the same control signal, and as hits the numbers of the statements the original starts, in order, on every iteration. |
| Meaning.InstrumentationPreservesMeaning | crates/edr_instrument/src/coverage.rs:110-190 | In particular, on every machine that hits leave alone the instrumented body ends in the same state as the original. |
| Meaning.MarkedRunIsWatched | crates/edr_instrument/src/coverage.rs:171-180 | Running a marked statement on a simulating machine is the observed run of the original: one hit when the statement starts, then the statement. |
| Meaning.WatchingIsHarmless | crates/edr_instrument/src/coverage.rs:110-190 | An observed run without its reports is the plain run. |
| Meaning.MarkedAllHits | crates/edr_instrument/src/coverage.rs:110-190 | The instrumented program contains exactly one hit call per statement, numbered in the order of the text. |
| Meaning.StatementText | crates/edr_instrument/src/coverage.rs:114-186 | The text printed for a statement's tree is the text of its marked form, braced exactly under a branch or loop. |
| Meaning.InstrumentedFileIsMarkedProgram | crates/edr_instrument/src/coverage.rs:110-190 | The text printed for a whole file is the text of the file whose bodies are the marked programs. |
| Collector.CoverageHitCollector.Call | crates/edr_coverage/src/collector.rs:48-72 | A coverage call is recorded and answered with the last output; any other call is let through and changes nothing. |
| Collector.CoverageHitCollector.CallEnd | crates/edr_coverage/src/collector.rs:74-84 | Only calls other than coverage calls become the last output. |
| Collector.CoverageHitCollector.CreateEnd | crates/edr_coverage/src/collector.rs:86-102 | A create leaves its output if it reverted and nothing otherwise. |
| Collector.CoverageHitCollector.Flush | crates/edr_coverage/src/collector.rs:29-33 | The hits are handed out and the collector is as new, its last output included. |
| Collector.CollectorAfterRun | crates/edr_coverage/src/collector.rs:48-102 | After any nested execution the collector holds the hits of all depths and the return data of the call or create that ended last. |
| Collector.HitIsTransparentIff | crates/edr_coverage/src/collector.rs:48-72 | A coverage call leaves a frame's return data as the original program has it if and only if the frame has completed a call or create, or the one completed last elsewhere left none. |
| Collector.SeenTheSameIff | crates/edr_coverage/src/collector.rs:48-102 | All frames of an execution see the return data they would see without instrumentation if and only if no frame reads between its first coverage call and its first subcall while another frame's data is held. |
| Collector.TransactionIsTransparentIff | crates/edr_coverage/src/collector.rs:24-33 | In a transaction that starts from a flushed collector the outermost frame never reads stale data; only nested frames can. |
| Collector.FlushesReportOwnHits | crates/edr_provider/src/observability.rs:221-252 | Over any sequence of transactions flushed in between, each report is exactly that transaction's hits and no transaction sees another's return data. |
| Collector.StaleReadExample | crates/edr_coverage/src/collector.rs:48-72 | An execution in which a callee sees its caller's return data where it should see none. |
| Collector.CreateExample | crates/edr_coverage/src/collector.rs:86-102 | An execution with a reverted and a successful create, each followed by a hit and a read: the frame sees the revert's output and then nothing, as without instrumentation. |
| Collector.CoverageCallLeavesOnlyItsHit | crates/edr_coverage/src/collector.rs:48-84 | A coverage call adds its input to the hits and changes nothing else in the collector, whatever its outcome. |
| Transparency.CallsSimulate | crates/edr_coverage/src/collector.rs:48-102 | Instrumented functions that call each other to any depth, all under one collector, stay in step with the originals, if no operation of a frame tells an empty buffer from any data before the frame's first call. |
| Transparency.BlindIffGuarded | crates/edr_coverage/src/collector.rs:48-72 | That condition holds of a program if and only if showing its frames an empty buffer until their first call changes none of its operations. |
| Transparency.InstrumentedFrameIsTransparent | crates/edr_coverage/src/collector.rs:48-102 | A frame of such a program, with everything it calls, entered while the collector holds any return data: same state and control flow as the original, and one hit per statement it starts, in order. |
| Transparency.OutermostFrameIsTransparent | crates/edr_coverage/src/collector.rs:24-33 | The outermost frame, entered with a flushed collector, may look at its buffer at any time; only the frames below it must not before their first call. State, control flow, hits and return-data buffer are then the original's. |
| Transparency.StaleStatementIsSeen | crates/edr_coverage/src/collector.rs:48-72 | A statement that by itself does anything else on stale data makes a function that instrumentation changes. |
| Transparency.StaleConditionIsSeen | crates/edr_coverage/src/collector.rs:48-72 | So does a loop's condition. |
| Transparency.StaleInitialisationIsSeen | crates/edr_coverage/src/collector.rs:48-72 | So does a loop's initialisation that leaves another state or fails otherwise. |
| Transparency.StaleUpdateIsSeen | crates/edr_coverage/src/collector.rs:48-72 | So does an update, in a loop whose first round gets to it. |
| Transparency.NestedDifferenceIsSeen | crates/edr_coverage/src/collector.rs:48-85 | A transaction that calls any such function after a call that returned the stale data ends otherwise once instrumented, although its outermost frame never looks at its buffer. |
| Transparency.NestedReadIsSeen | crates/edr_coverage/src/collector.rs:48-85 | The smallest such transaction, with the states it ends in. |
| StateDiff.ApplyDiffByEntry | crates/state/api/src/diff.rs:62-73 | Applying a diff entry by entry, in any order, is the account-wise merge. |
| StateDiff.CommitByEntry | crates/state/persistent_trie/src/state.rs:57-76 | Committing a diff entry by entry, in any order, is the account-wise commit. |
| StateDiff.MergeIsExactIff | crates/state/api/src/diff.rs:62-73 | For one account, the merged change leads from the initial to the new account if and only if the two changes are composable. |
| StateDiff.RewardIsExactIff | crates/state/api/src/diff.rs:18-29 | A reward's change describes the credited account if and only if the account's entry is absent, or touched, not destroyed, and not an emptied account with storage left. |
| StateDiff.DiffDescribesStateIff | crates/edr_chain_l1/src/block.rs:505-512 | For every run of transactions and rewards, the accumulated diff applied to the initial state gives the final state if and only if every account's history is settled: untouched ones were paid nothing, living ones were never destroyed and inherit no slot from before their last fresh start, dead ones were destroyed or not created in the block. |
| StateDiff.SettledIff | crates/state/persistent_trie/src/state.rs:57-76 | The same for one account, from what its history accounts for. |
| StateDiff.HistoryIsRemembered | crates/state/api/src/diff.rs:18-73 | The history accounts for the flags and slots of every accumulated change and for the present account, after every run. |
| StateDiff.DiffDescribesEveryPrefixIff | crates/edr_chain_l1/src/block.rs:505-512 | The diff describes the state at every point of a run if and only if every step is exact where it is taken. |
| StateDiff.RevivedAccountIsLost | crates/state/api/src/diff.rs:62-73 | An account destroyed and then paid in one block is alive in the state and removed by the diff. |
| Bloom.LogsToBloom | crates/edr_receipt/src/log.rs:19-34 | The loop computes the union of the bits of every log's address and topics. |
| Bloom.UnionIsBloomOfAllLogs | crates/edr_chain_l1/src/block.rs:647-653 | The union of per-receipt blooms is the bloom of all the receipts' logs. |
| Bloom.BloomHasNoFalseNegatives | crates/edr_receipt/src/log.rs:36-55 | If a log passes the filters, the bloom has the bits of an entry of the address filter, if that is not empty, and of an entry of every set topic position. |
| Bloom.AddressesMatchByEntry | crates/edr_receipt/src/log.rs:36-39 | An empty address filter accepts everything, any other exactly what one of its entries accepts. |
| Bloom.TopicsMatchByPosition | crates/edr_receipt/src/log.rs:41-55 | The empty topic filter accepts every log; each further position asks for one more topic and, if set, for one of its entries; topics beyond the filter do not matter. |
| AccessList.AccessListHashesAreDistinct | crates/edr_chain_l1/src/block.rs:909-933 | On a chain no two state-changing blocks share an access list hash, as long as the hashes tell their inputs apart. |
| AccessList.EmptyListHashIffUnchanged | crates/edr_chain_l1/src/block.rs:909-933 | A block carries the empty-list hash if and only if it changes no state. |
| AccessList.HashIsReplacedIff | crates/edr_chain_l1/src/block.rs:920-933 | Finalization replaces a hash if and only if it is the empty-list one and state changed; overridden and absent hashes stay. |
| BlockBuilder.BuiltBlockIsValidLink | crates/edr_chain_l1/src/block.rs:673-679 | Every block built on a parent from the empty-list hash is such a link of its chain, with its state change read off the diff it hands out. |
| BlockBuilder.EmptyDiffMeansUnchanged | crates/edr_chain_l1/src/block.rs:909-933 | For every run, a block handed out with an empty diff is handed out with the state it started from. |
| BlockBuilder.LoadsGetDerivedHashIff | crates/edr_chain_l1/src/block.rs:909-933 | A block whose steps touch no account leaves the state as it was, and gets a derived hash if and only if one of them left an entry in the diff. |
| BlockBuilder.LoadedBlockLooksChanged | crates/edr_chain_l1/src/block.rs:920-933 | On every fresh builder without a reward there is an honest execution after which the diff is not empty and the state unchanged. |
| BlockBuilder.EthBlockBuilder.ValidateTransaction | crates/edr_chain_l1/src/block.rs:188-228 | The errors, in the code's order, of the gas and blob gas checks. |
| BlockBuilder.EthBlockBuilder.AddTransactionResult | crates/edr_chain_l1/src/block.rs:499-544 | Diff, state, both gas counters, blob gas, receipt, transaction and result are updated together, and nothing else. |
| BlockBuilder.EthBlockBuilder.AddTransaction | crates/edr_chain_l1/src/block.rs:385-428 | A refused transaction leaves the builder as it was; an accepted one is included with its execution result. |
| BlockBuilder.EthBlockBuilder.PayRewards | crates/edr_chain_l1/src/block.rs:617-635 | Rewards above zero are credited in order, in the state and in the diff. |
| BlockBuilder.EthBlockBuilder.FinalizeBlock | crates/edr_chain_l1/src/block.rs:891-907 | The reward is paid before the header is completed, so the access list hash sees it; an oversized block is refused. |
| BlockBuilder.RunIsAccounted | crates/edr_chain_l1/src/block.rs:499-544 | After any run of adds, transactions, receipts and results align by index, receipt k carries the sum of net gas up to k, the header carries the sums of block gas and blob gas, and what executions see of the block is unchanged. |
| BlockBuilder.BlockIsAccounted | crates/edr_chain_l1/src/block.rs:637-705 | Transactions, receipts and results of the block handed out align by index, receipt k carries the sum of net gas up to k, the header carries the sums of block gas and blob gas, and only a block that is too large is refused. |
| BlockBuilder.AcceptedIffSafe | crates/edr_chain_l1/src/block.rs:188-228 | A transaction is refused if and only if including it could break the gas limit, using all of its gas, or the blob gas limit. |
| BlockBuilder.RefusalIsReported | crates/edr_chain_l1/src/block.rs:188-228 | The condition of each error, in every state of the builder; an error leaves the builder as it was and none means that the transaction is its last. |
| BlockBuilder.RunIncludesAccepted | crates/edr_chain_l1/src/block.rs:385-428 | A run includes exactly the offered transactions that fit where they are offered and execute, in order. |
| BlockBuilder.CumulativeGasVersusHeaderGas | crates/edr_chain_l1/src/block.rs:514-518 | After any run, header gas and cumulative gas are equal before Amsterdam and differ by exactly the refunds that took effect from Amsterdam on. |
| BlockBuilder.GasLimitHolds | crates/edr_chain_l1/src/block.rs:153-202 | With the limit enforced and contributions bounded by gas limits, header gas never exceeds the limit in any run; enforced or not, validation never evaluates an underflowing subtraction, and with the limit disabled refuses nothing for its gas. |
| BlockBuilder.BlobLimitHolds | crates/edr_chain_l1/src/block.rs:204-225 | Blob gas stays within the maximum in every run that starts within it. |
| BlockBuilder.RunIsReplayable | crates/edr_chain_l1/src/block.rs:385-428 | At every point of every run the state is the replay of the included transactions on the initial state, each executed with the recorded result, and the diff is the accumulation of that replay. |
| BlockBuilder.BlockIsReplayed | crates/edr_chain_l1/src/block.rs:617-635 | State and diff of the block handed out are those of the replay of the block's own transactions followed by the reward, whatever was offered. |
| BlockBuilder.RewardsArePaid | crates/edr_chain_l1/src/block.rs:617-635 | Any list of rewards raises the balances of exactly the rewarded by exactly what they are paid and changes nothing else, in the state and in the diff. |
| BlockBuilder.BlockPaysReward | crates/edr_chain_l1/src/block.rs:891-907 | In the block handed out the beneficiary has exactly the reward on top of what the transactions left, and every other account what they left it. |
| BlockBuilder.BuiltDiffDescribesStateIff | crates/edr_chain_l1/src/block.rs:891-907 | For every block handed out, whatever was offered and with or without a reward, its diff leads from the initial state to the state handed out if and only if every account's history is settled. |
| BlockBuilder.FinalGasLimitHolds | crates/edr_chain_l1/src/block.rs:643-645 | The block handed out carries at most its gas limit if the builder was given a limit or worked under one within the parent's. |
| BlockBuilder.FinalGasCanExceedLimit | crates/edr_chain_l1/src/block.rs:643-645 | For every other builder there are an EVM and a transaction whose block is finalized with more gas than its limit. |
| BlockBuilder.HeaderBloomCoversAllLogs | crates/edr_chain_l1/src/block.rs:647-653 | The bloom of the block handed out is the bloom of all logs of all its results, for every run. |
| BlockBuilder.FinalEnvironment | crates/edr_chain_l1/src/block.rs:643-671 | What the final header shows to executions is what the builder's did, with the parent's gas limit if none was given and the clock's time if none was set; so it is unchanged if and only if the limit is the parent's or was given, and the timestamp was set. |
| BlockBuilder.SameEnvironmentIff | crates/edr_chain_l1/src/block.rs:385-428 | Two headers show the same to executions if and only if number, beneficiary, gas limit, timestamp, excess blob gas and the rest agree; gas used, blooms and hashes play no part. |
| DebugTrace.DebugTraceTransaction | crates/edr_provider/src/debug_trace.rs:37-111 | The loop executes the first transaction with the hash in the replay of those before it, and says which error arises otherwise. |
| DebugTrace.TraceIsUnique | crates/edr_provider/src/debug_trace.rs:37-111 | What is asked of a trace determines it. |
| DebugTrace.InclusionPoint | crates/edr_chain_l1/src/block.rs:385-428 | Every transaction of a block was included at some point of the run, when the builder held exactly the transactions before it. |
| DebugTrace.TraceMatchesBuild | crates/edr_provider/src/debug_trace.rs:49-105 | For every block handed out and every position, there is that point of the run such that the trace executes the transaction in the very state the builder had then, and gets the block's result, if finalizing kept the environment. |
| DebugTrace.TraceDiffersUnlessEnvironmentIsKept | crates/edr_provider/src/debug_trace.rs:49-105 | For every builder whose environment is not kept there is an EVM under which the trace differs from the block. |
| Rlp.HeaderRoundTrip | crates/edr_receipt/src/execution.rs:84-89 | A header followed by its payload and anything decodes to the same kind and length and leaves the rest. |
| Rlp.ItemsRoundTrip | crates/edr_receipt/src/execution.rs:23-24 | A list of encoded items decodes to the items, consuming the payload exactly. |
| Rlp.HeaderIsCanonical | crates/edr_receipt/src/execution.rs:84-89 | A header that is accepted is the one written for its kind and length. |
| Receipt.LegacyRoundTrip | crates/edr_receipt/src/execution.rs:77-112 | Every legacy receipt followed by anything decodes to itself and leaves the rest. |
| Receipt.SuccessfulEip658RoundTrip | crates/edr_receipt/src/execution.rs:77-112 | Every successful EIP-658 receipt followed by anything decodes to itself and leaves the rest. |
| Receipt.FailedEip658IsRejected | crates/edr_receipt/src/execution.rs:91-99 | For a failed EIP-658 receipt the first field's length is not one, the legacy branch is taken, and decoding fails. |
| Receipt.ExecutionRoundTripIff | crates/edr_receipt/src/execution.rs:77-112 | A receipt round-trips if and only if it is not a failed EIP-658 receipt. |
| Receipt.ReceiptFollowsYellowPaper | crates/edr_receipt/src/execution.rs:20-44 | Every receipt is written as the encoding of Appendix B of the Yellow Paper, defined separately, of its fields in their order. |
| Receipt.LogReadsUnderEitherHeader | crates/edr_receipt/src/execution.rs:23-24 | Every log reads back under the header of a list and under that of a string of the same length. |
| Receipt.ReceiptIsCanonicalIff | crates/edr_receipt/src/execution.rs:77-112 | A buffer that reads as a receipt is that receipt's encoding, followed by the rest, if and only if every log in it has a list's header. |
| Receipt.LengthIsExact | crates/edr_receipt/src/execution.rs:114-119 | The computed length is the size of the encoding. |
| Envelope.Reader.DecodeExecution | crates/edr_receipt/src/execution.rs:81-100 | Peeking on a copy of the buffer and then decoding gives the receipt and advances the buffer past it. |
| Envelope.Reader.DecodeOpExecution | crates/edr_op/src/receipt/execution.rs:55-74 | The same on OP, where the short first field means an EIP-658 or deposit receipt and any other a legacy one, taken as successful. |
| Envelope.Reader.TakeType | crates/edr_chain_l1/src/eip2718.rs:86-95 | A list is taken as a legacy receipt without consuming; any other first byte is consumed as the type, or refused. |
| Envelope.Reader.DecodeEnvelope | crates/edr_chain_l1/src/eip2718.rs:81-99 | Type and receipt of an L1 or generic envelope, with the buffer advanced past both. |
| Envelope.Reader.DecodeOpEnvelope | crates/edr_op/src/eip2718.rs:85-103 | Type and receipt of an OP envelope, with the buffer advanced past both. |
| Envelope.Writer.EncodeEnvelope | crates/edr_chain_l1/src/eip2718.rs:106-113 | The type byte is appended unless it is zero, then the receipt, after what the buffer held. |
| OpReceipt.TrailingRoundTrip | crates/edr_op/src/receipt/execution/deposit.rs:30-72 | Any two trailing fields are read back as written, except that a zero is taken for absent. |
| OpReceipt.SuccessfulReadsAs | crates/edr_op/src/receipt/execution/deposit.rs:41-93 | Every successful OP receipt followed by anything decodes to the receipt its trailing fields spell, and leaves the rest. |
| OpReceipt.FailedIsRejected | crates/edr_op/src/receipt/execution.rs:65-73 | A failed OP receipt, deposit or not, takes the legacy branch and fails. |
| OpReceipt.OpRoundTripIff | crates/edr_op/src/receipt/execution.rs:51-86 | An OP receipt round-trips if and only if it is successful and, for a deposit, has a version and neither version nor nonce is zero. |
| OpReceipt.DepositsReadAs | crates/edr_op/src/receipt/execution/deposit.rs:41-93 | What every successful deposit receipt is read back as: an EIP-658 receipt without a version or with nonce zero, itself without its version if that is zero. |
| OpReceipt.BuiltReceiptRoundTripIff | crates/edr_op/src/receipt/execution.rs:117-151 | A receipt the builder makes round-trips if and only if the transaction succeeded and is no deposit, or one from Canyon on whose sender had a nonce above zero. |
| OpReceipt.BuiltReceiptReadsAs | crates/edr_op/src/receipt/execution.rs:117-151 | A reader gets a successful transaction's receipt as a deposit with the sender's nonce and version 1, from Canyon on and for a nonce above zero, and otherwise as an EIP-658 receipt with its fields. |
| OpReceipt.ReceiptFollowsYellowPaper | crates/edr_op/src/receipt/execution/deposit.rs:30-72 | Every OP receipt is written as the Yellow Paper's encoding of its fields, a deposit's nonce and version last. |
| OpReceipt.OpReceiptIsCanonicalIff | crates/edr_op/src/receipt/execution.rs:51-86 | A buffer that reads as an OP receipt is that receipt's encoding if and only if it is in the EIP-658 layout, every log has a list's header, and there are no trailing bytes or, for a deposit, both trailing fields. |
| OpReceipt.LegacyReadsAsSuccessful | crates/edr_op/src/receipt/execution.rs:70-73 | Every legacy receipt decodes on OP as the successful EIP-658 receipt with its fields. |
| OpReceipt.OpLengthIsExact | crates/edr_op/src/receipt/execution.rs:88-93 | The computed length is the size of the encoding, trailing fields included. |
| Envelope.KnownTypeRoundTrip | crates/edr_op/src/eip2718.rs:81-117 | Under every known type of every chain, and for every receipt codec, an envelope decodes to its type and whatever its receipt decodes to. |
| Envelope.EnvelopeStartsWithType | crates/edr_chain_l1/src/eip2718.rs:106-113 | The byte in front of the receipt for every transaction type, and none for a legacy one. |
| Envelope.TypeByteIsReadIff | crates/edr_generic/src/eip2718.rs:82-104 | How every first byte is read on every chain: from 0xC0 on as a legacy receipt that is not consumed, below that as the chain's type that is written so, as unrecognized on generic chains if there is none, and refused elsewhere. |
| Envelope.UnrecognizedIsRejected | crates/edr_generic/src/eip2718.rs:76-104 | An unrecognized type is written as a byte that reads as a list header of more bytes than any buffer holds. |
| Envelope.EnvelopeRoundTripIff | crates/edr_generic/src/eip2718.rs:82-117 | On L1 and generic chains, for every envelope, decoding the encoding followed by anything gives the envelope and the rest if and only if the type is recognized and the receipt is not a failed EIP-658 one. |
| Envelope.OpEnvelopeRoundTripIff | crates/edr_op/src/eip2718.rs:81-117 | On OP, under every type, if and only if the receipt is successful and, for a deposit, has a version and neither version nor nonce is zero. |
| Envelope.OpReadsLegacyAsSuccessful | crates/edr_op/src/eip2718.rs:85-103 | On OP a legacy receipt under every type decodes as a successful EIP-658 one. |
| Envelope.EnvelopeLengthIsExact | crates/edr_chain_l1/src/eip2718.rs:115-118 | The computed length is the size of the encoding. |
| Envelope.OpEnvelopeLengthIsExact | crates/edr_op/src/eip2718.rs:119-122 | The same for OP envelopes. |
| IntervalMiner.RunIsSound | crates/edr_provider/src/interval.rs:55-111 | In every reachable state exactly the lock's owner is inside its critical section, every live task is the installed miner or its successor, and only a task being joined is cancelled. |
| IntervalMiner.OnlyTheInstalledMinerLives | crates/edr_provider/src/requests/eth/mine.rs:10-23 | Outside a replacement, the installed miner is the only task that has not ended and nobody has cancelled it. |
| IntervalMiner.NoTaskMinesDuringARequest | crates/edr_provider/src/provider.rs:158-170 | From the moment a handler holds the data lock until it releases it, the chain grows by that request's blocks alone. |
| IntervalMiner.StepWhileJoining | crates/edr_provider/src/interval.rs:94-109 | While the handler joins, every step of the joined task lowers its measure, and no step changes handler or chain. |
| IntervalMiner.CancellationCompletes | crates/edr_provider/src/interval.rs:68-109 | Between cancellation and join, in every interleaving: no block is mined, the task takes at most two steps, and it has ended or can take a step that ends it. |
| IntervalMiner.ReplacingTheMinerNeverDeadlocks | crates/edr_provider/src/provider.rs:387-393 | The same from the start of the provider, whatever led to the replacement. |
| IntervalMiner.ReplacedMinerNeverMines | crates/edr_provider/src/interval.rs:90-111 | A miner that was replaced or has failed never adds a block again. |
| IntervalMiner.BlocksAreSpaced | crates/edr_provider/src/interval.rs:63-85 | In every run two blocks of one miner start at least its minimum interval apart. |
| IntervalMiner.BlocksAreChronicled | crates/edr_provider/src/interval.rs:63-85 | The blocks of every run are exactly the ones its events tell: one for every request that mines and one for every successful mining step, started when its task last took the lock. |
| IntervalMiner.MinerProgresses | crates/edr_provider/src/interval.rs:63-85 | While no request is being handled, a live miner can mine its next block by its own steps and the passing of time alone, started at the latest its maximum interval after the one before, or now. |
| IntervalMiner.MinerKeepsItsPace | crates/edr_provider/src/interval.rs:63-85 | From every such point, whatever delays are drawn, it can mine block after block, each exactly one delay after the start of the one before. |
| IntervalMiner.FixedIntervalMinesEvenly | crates/edr_provider/src/interval.rs:63-85 | A provider left alone with a fixed interval mines one block at each multiple of it. |
| IntervalMiner.RequestIsServed | crates/edr_provider/src/provider.rs:158-170 | Whenever nobody holds the lock, a request is served and leaves everything but its own block as it was. |
| IntervalMiner.MinerSurvives | crates/edr_provider/src/interval.rs:68-85 | A miner that is not replaced and does not fail is never ended or cancelled. |
| IntervalMiner.FailedMinerGivesWay | crates/edr_provider/src/interval.rs:78-81 | A miner that fails to mine ends without a block and frees the lock, so that the next request is served. |
| IntervalMiner.ReplacingInstallsConfig | crates/edr_provider/src/requests/eth/mine.rs:10-23 | Replacing the miner starts a task with the new interval and installs exactly that one, at once or by the join, whatever happens in between. |
| IntervalMiner.WithoutInnerCheckItDeadlocks | crates/edr_provider/src/provider.rs:60-63 | A task that watched for cancellation only while sleeping would reach a state from which no run completes the join. |
| Difficulty.CalculateEthashCanonicalDifficulty | crates/edr_chain_l1/src/difficulty.rs:72-108 | For every timestamp: a panic exactly for one before the parent's in a build with overflow checks; otherwise the EIP-100 target with the delayed bomb, cut to 256 bits and raised to the minimum. |
| Difficulty.DefaultBlockDifficulty | crates/edr_chain_l1/src/spec.rs:235-254 | Zero after the merge, one for a pre-merge genesis, the Ethash value or its panic otherwise. |
| Difficulty.DefaultDifficultyWithoutParent | crates/edr_chain_l1/src/spec.rs:235-254 | After the merge the difficulty is zero, and a first block has difficulty one. |
| Difficulty.BombDoubles | crates/edr_chain_l1/src/difficulty.rs:54-71 | Under each hardfork the bomb is silent before its start, adds one from there and doubles every hundred thousand blocks. |
| Difficulty.AdjustmentSteps | crates/edr_chain_l1/src/difficulty.rs:80-103 | A quick block raises the difficulty by one or two steps of a 2048th, each further nine seconds take one away, down to a reduction of 99. |
| Difficulty.DifficultyIsCanonicalIff | crates/edr_chain_l1/src/difficulty.rs:72-108 | From the parent's timestamp on, the result equals the formula of EIP-100 and section 4.3.4 of the Yellow Paper if and only if its unbounded target fits 256 bits. |
| Difficulty.OrdinaryBlocksAreCanonical | crates/edr_chain_l1/src/difficulty.rs:72-108 | That is so for every block less than 25.7 million past the bomb delay whose parent's difficulty is below 2^254. |
| Difficulty.BombWrapsToZero | crates/edr_chain_l1/src/difficulty.rs:100-105 | From exponent 256 on the power is zero. |
| Difficulty.LateBlocksAreNotCanonical | crates/edr_chain_l1/src/difficulty.rs:100-107 | So no block at least 25.8 million past the bomb delay gets the canonical difficulty. |
| Difficulty.EarlierTimestampReducesMost | crates/edr_chain_l1/src/difficulty.rs:88-93 | A timestamp before the parent's panics with overflow checks and gives the reduction by 99 steps without. |
| Difficulty.NonIncreasingInTimestampIff | crates/edr_chain_l1/src/difficulty.rs:88-107 | Of two timestamps on one side of the parent's, the later never gives a higher difficulty if and only if the 256-bit sum wraps as often for both. |
| Difficulty.NonIncreasingAcrossParentIff | crates/edr_chain_l1/src/difficulty.rs:88-107 | Across the parent's timestamp, in a build without overflow checks, if and only if the sums wrap differently, are equal, or the later block is on the minimum. |
| Difficulty.LaterBlockCanBeHarder | crates/edr_chain_l1/src/difficulty.rs:88-107 | A parent under which a block nine seconds later is harder. |
| Difficulty.EarlierBlockCanBeEasier | crates/edr_chain_l1/src/difficulty.rs:88-97 | There a block at time 0 is easier than one at the parent's time. |
| Difficulty.LateBlocksAreNonIncreasing | crates/edr_chain_l1/src/difficulty.rs:100-107 | Past the bomb's wrap-around, a parent's difficulty below 2^255 is enough for that monotonicity. |
| Difficulty.ChainStaysAboveMinimum | crates/edr_chain_l1/src/spec.rs:235-254 | On every pre-merge chain from a genesis of difficulty 1, whatever the timestamps, all later blocks are at or above 131072, and an unhurried chain rests exactly on it for 3.2 million blocks. |
| OpFees.CopyBaseFeeParams | crates/edr_op/src/eip1559.rs:46-65 | Denominator and elasticity are copied big-endian into bytes 1 to 8, the rest of the buffer is kept, and oversized values are refused. |
| OpFees.EncodeHolocene | crates/edr_op/src/eip1559.rs:13-19 | The nine bytes of the Holocene layout, or a refusal exactly when a parameter does not fit. |
| OpFees.EncodeJovian | crates/edr_op/src/eip1559.rs:25-41 | The seventeen bytes of the Jovian layout, or a refusal exactly when a value does not fit. |
| OpFees.ExtraDataRoundTrip | crates/edr_op/src/block/builder.rs:267-315 | Parameters and minimum fee are read back from both layouts as written. |
| OpFees.JovianDataIsCanonical | crates/edr_op/src/block/builder.rs:267-315 | Every seventeen-byte Jovian extra data is the encoding of what it decodes to. |
| OpFees.ExtraDataIsInjective | crates/edr_op/src/eip1559.rs:13-41 | Equal extra data means equal parameters and equal minimum fee. |
| OpFees.ExtraDataExample | crates/edr_op/src/eip1559.rs:13-41 | The bytes of one set of parameters in both layouts. |
| Bytes.BigEndianByte | crates/edr_op/src/eip1559.rs:46-65 | Byte i from the end of a big-endian number is the i-th from the least significant. |
| OpFees.NextBaseFeeIsEip1559 | crates/block/header/src/lib.rs:669-724 | Where every result fits 128 bits, builds with and without overflow checks compute the update of EIP-1559's Specification section, one division by a product being its two divisions; elsewhere a build with checks panics. |
| OpFees.UncheckedFeeIsEip1559Iff | crates/block/header/src/lib.rs:669-724 | A build without overflow checks computes that update if and only if every result fits. |
| OpFees.WrappedFeeCanFall | crates/block/header/src/lib.rs:703-712 | An input on which the wrapped fee falls as gas rises. |
| OpFees.NextBaseFeeIsMonotone | crates/block/header/src/lib.rs:669-724 | More gas never lowers the next fee, in a build with overflow checks and, where the fees fit, in any. |
| OpFees.JovianFeeObeysExtraData | crates/edr_op/src/spec.rs:276-330 | In both builds the next fee is the EIP-1559 update at the larger of gas and blob gas under the parameters encoded in the parent, raised to the encoded minimum, where the update fits; it is never below the minimum anywhere. |
| OpFees.PreJovianFeeIsEip1559 | crates/edr_op/src/spec.rs:322-329 | Before Jovian it is, in both builds, the EIP-1559 update at the gas used, without a floor, where that fits. |
| OpFees.JovianFeeIsMonotone | crates/edr_op/src/spec.rs:306-321 | The Jovian fee is monotone in gas used and in blob gas used, where no blob gas counts as none used, in a build with overflow checks and, where the updates fit, in any. |
| OpBlock.JovianBlockIsBuiltIff | crates/edr_op/src/block/builder.rs:100-150 | Without overrides a Jovian block can be built if and only if the parent carries a minimum fee, the schedule has parameters that fit for the block after it, and the update can be computed, under the parent's parameters or, on a parent before Holocene, the chain's. |
| OpBlock.EarlierBlockIsBuiltIff | crates/edr_op/src/block/builder.rs:100-140 | Before Jovian no minimum is needed; before Holocene nothing of the parent's extra data is read and none is written, and a Holocene block on an earlier parent takes the chain's parameters. |
| OpBlock.JovianActivationNeedsOverrides | crates/edr_op/src/block/builder.rs:118-150 | On a parent without a minimum a Jovian block can be built if and only if its extra data is given and its base fee too, or, on a parent before Holocene, can be computed as before; what is given is kept. |
| OpBlock.HoloceneDataHasNoMinimum | crates/edr_op/src/block/builder.rs:296-301 | Holocene's extra data is never such that a Jovian block can be built on it. |
| OpBlock.AnnouncedFeeIsBuilt | crates/edr_op/src/spec.rs:351-366 | What the provider announces as the next fee is the fee the next block is built with, if the parent is of Holocene or later or the new block is not. |
| OpBlock.HoloceneActivationIsNotAnnounced | crates/edr_op/src/spec.rs:276-290 | On the last block before Holocene announcing panics, and exactly when the Holocene block can be built. |
| OpBlock.ChainKeepsSchedule | crates/edr_op/src/block/builder.rs:100-124 | On every chain built without overrides, every block's extra data holds the parameters scheduled for the block after it and, from Jovian on, the first block's minimum. |
| OpBlock.ChainPaysSchedule | crates/edr_op/src/block/builder.rs:126-150 | From the second built block on, every fee is the EIP-1559 update under the parameters scheduled for that block, from Jovian on at the larger of gas and blob gas and at least the first block's minimum. |
| OpBlock.GivenParamsGovern | crates/edr_op/src/block/builder.rs:100-150 | Parameters that are given replace the parent's for the block's own fee and the chain's for what it announces, each at its own block. |
| OpBlock.GenesisAnnounces | crates/edr_op/src/spec.rs:228-255 | When a genesis block can be made, and that it announces the parameters scheduled for block 0 and, from Jovian on, a minimum of zero. |
| OpBlock.LocalChainPaysSchedule | crates/edr_op/src/spec.rs:228-255 | On a chain from its own genesis the minimum is zero for ever; block 1 pays under the parameters scheduled for block 0, every later block under its own. |
| GasReport.MergeContractReport | crates/edr_gas_report/src/lib.rs:143-157 | The loop over the other report's functions gives the pointwise concatenation in every iteration order. |
| GasReport.GasReport.MergeReport | crates/edr_gas_report/src/lib.rs:121-132 | The same for the loop over contracts. |
| GasReport.GasReport.AddOutcome | crates/edr_gas_report/src/lib.rs:78-115 | A recognized transaction extends its contract's report; an unrecognized one and missing code change nothing, and only missing code is an error. |
| GasReport.MergeConcatenates | crates/edr_gas_report/src/lib.rs:121-157 | Per contract and function the merged list is the concatenation, and no other contract or function appears. |
| GasReport.MergeConservesEntries | crates/edr_gas_report/src/lib.rs:121-157 | Every entry occurs in the merged report as often as in both together. |
| GasReport.MergeIsMonoid | crates/edr_gas_report/src/lib.rs:121-157 | Merging is associative with the empty report as unit. |
| GasReport.AddsAreMerges | crates/edr_gas_report/src/lib.rs:78-132 | Adding transactions one by one is merging their one-entry reports in order, and splitting the work over two reports gives the same result. |
| GasReport.ResolvedChainIsReversed | crates/edr_gas_report/src/lib.rs:462-527 | A resolved chain is the exact reverse of the input chain's identifiers. |
| GasReport.ResolutionFailsIff | crates/edr_gas_report/src/lib.rs:462-527 | Exactly when a chain resolves, and which missing code is reported: the implementation's first, then the outermost proxy's. |
| Logger.LogCollector.MinedBlocks | crates/edr_napi_core/src/logger.rs:366-394 | The loop collects what the recursive definition collects, and panics exactly when that does. |
| Logger.LogCollector.IntervalMinedBlock | crates/edr_napi_core/src/logger.rs:396-438 | An empty block is printed or extends the open range; a non-empty one prints everything pending and leaves the range open. |
| Logger.LogCollector.PrintPending | crates/edr_napi_core/src/logger.rs:1102-1121 | All pending lines are taken and, if logging is enabled, printed in order. |
| Logger.LogCollector.PrintMethodName | crates/edr_napi_core/src/logger.rs:1123-1136 | A repeated method replaces the last line with the next count; another starts at one. |
| Logger.LogCollector.ReplaceLastLogLine | crates/edr_napi_core/src/logger.rs:1150-1154 | The last pending line is replaced; without one the code panics. |
| Logger.AnnouncesMaximalRuns | crates/edr_napi_core/src/logger.rs:366-394 | From any state without an open run, the lines collected are exactly one per maximal run of empty blocks and all other blocks in full. |
| Logger.MiningPanicsIff | crates/edr_napi_core/src/logger.rs:366-394 | Mining on request panics if and only if a run is open, no line is pending and the first block is empty. |
| Logger.PanicsOnlyAfterIntervalBlock | crates/edr_napi_core/src/logger.rs:426-435 | Whatever is switched on or off, a run panics only if a non-empty interval block fell into an open run of requested blocks. |
| Logger.EnabledRunNeverPanics | crates/edr_napi_core/src/logger.rs:181-224 | With logging enabled throughout, no run of requests, unreadable requests and interval blocks panics. |
| Logger.DisabledRunCanPanic | crates/edr_napi_core/src/logger.rs:1150-1154 | A run with logging disabled that panics. |
| Logger.EmptyIntervalRunIsOneLine | crates/edr_napi_core/src/logger.rs:403-425 | A run of empty interval blocks leaves exactly one line on the console. |
| Logger.RangeLineIsTruthfulIff | crates/edr_napi_core/src/logger.rs:396-438 | The line for an empty interval block names the maximal run it ends if and only if no non-empty block followed the first empty one. |
| Logger.RepeatedMethodIsOneLine | crates/edr_napi_core/src/logger.rs:1123-1136 | A run of n silent requests of one method shows as one line with count n. |
| Logger.RepeatReplacesOwnLineIff | crates/edr_napi_core/src/logger.rs:214-221 | A repetition overwrites the method's own line if and only if the previous request had nothing else to print. |
| Logger.NothingReportedIsLost | crates/edr_napi_core/src/logger.rs:181-224 | With logging enabled throughout, the text on the console and still pending after any run is exactly what its events reported, in order: replacing lines never loses, doubles or reorders any. |
| Logger.ConsoleFromTheStart | crates/edr_napi_core/src/logger.rs:181-224 | From a new logger that stays enabled, no run panics and the console holds exactly the text reported. |
| Logger.IntervalBlockIsAnnounced | crates/edr_napi_core/src/logger.rs:426-435 | A non-empty interval block prints its line, everything pending and its details, closed by a blank line, and leaves an open range open. |
| Logger.CollectingRequestStartsAfresh | crates/edr_napi_core/src/logger.rs:214-221 | A request that collected anything is never collapsed with the one before and prints all of it. |
| Logger.FailedRequestIsShown | crates/edr_napi_core/src/logger.rs:181-224 | What a failed request prints for each kind of error, and what it leaves pending. |
| Decimal.ReadingIsUnique | crates/edr_napi_core/src/logger.rs:1185-1185 | Digits, a dot and digits can be read in one way only. |
| Decimal.DecimalStringIsTruncationIff | crates/edr_napi_core/src/logger.rs:1176-1186 | The returned string reads as a number with at most four decimals and does not end in a zero; it denotes the value truncated to four decimals if and only if the four-digit fraction is zero or at least 1000. |
| Decimal.PowersFit | crates/edr_napi_core/src/logger.rs:1179-1180 | 77 is the largest exponent whose power of ten is a 256-bit number. |
| Decimal.LeadingZeroIsLost | crates/edr_napi_core/src/logger.rs:1176-1186 | 1.05 gwei is rendered as `1.5`. |

## Left out

- The EVM, precompiles and the journal: execution is a parameter; that a contribution stays within the transaction's gas limit, and that a diff marks as untouched only what was loaded, is assumed where it is needed.
- Hash functions, trie roots, signatures and KZG: parameters; where distinctness is claimed, the hash must tell the inputs in question apart.
- The Solidity parser and Solidity scoping: the tree is an input; that a brace around a lone body is a new scope plays no part in the model.
- Meaning: try/catch, unchecked blocks and assembly are not among its statements; the printing theorems cover any tree.
- Meaning.InstrumentationPreservesMeaning: loops carry a bound on iterations and the theorem holds for every bound, so it covers every terminating run and every prefix of the others.
- Collector: gas and memory effects of a coverage call.
- Transparency: a callee that is not instrumented is covered as a call with an empty body, so not where it calls instrumented ones; a call at the limit of the call depth fails at once, and the theorems hold for every limit.
- OpBlock: failing to look up the parent's hardfork, and the L1 block info.
- DebugTrace: custom precompiles, which a builder may have and the trace has not.
- The derive macros of alloy-rlp and the log type of alloy-primitives, which give the receipts their codecs: their field order, length checks and rule for trailing options are written out in the model and not derived from those crates.
- Receipt: block-level fields of receipts, which are not part of the encoding.
- IntervalMiner: dropping the provider without holding the lock, a terminated runtime and a panic inside mining.
- GasReport: how a transaction is classified before it is added, and statistics over a report.
- Logger: wording, colours, indentation, failures of the print callback.
- Decimal.DecimalStringIsTruncationIff: exponents from 78 on, at which the 256-bit power wraps; the code's callers use 9 and 18.
- `wei_to_human_readable`: the choice of the unit in which an amount is shown.
- The mempool, the JSON-RPC layer, N-API bindings, forking, state overrides and account management.
