/** `EthBlockBuilder`: validation, inclusion, rewards and finalization. EVM
    execution is a deterministic function of state, block environment and
    transaction. */
module BlockBuilder {
  import opened Prelude
  import opened StateDiff
  import opened Arithmetic
  import opened Bytes
  import Bloom
  import AccessList

  const GAS_PER_BLOB := 131_072
  const MAX_RLP_BLOCK_SIZE := 10_485_760 - 2_097_152

  datatype Tx = Tx(hash: nat, gasLimit: nat, blobHashes: nat, payload: nat)

  function TotalBlobGas(tx: Tx): nat {
    tx.blobHashes * GAS_PER_BLOB
  }

  datatype TxResult = TxResult(success: bool, totalGasSpent: nat, refunded: nat, floorGas: nat, logs: seq<Bloom.Log>)

  datatype BlobGas = BlobGas(gasUsed: nat, excessGas: nat)

  datatype Header = Header(
    number: nat, parentHash: AccessList.Hash, beneficiary: Address, gasLimit: nat, gasUsed: nat, timestamp: nat,
    blobGas: Option<BlobGas>, logsBloom: Bloom.Filter, accessListHash: Option<AccessList.Hash>, other: nat)

  /** What an execution can see of the block. */
  datatype Env = Env(number: nat, beneficiary: Address, gasLimit: nat, timestamp: nat, excessBlobGas: Option<nat>,
                     other: nat)

  function EnvOf(h: Header): Env {
    Env(h.number, h.beneficiary, h.gasLimit, h.timestamp,
        if h.blobGas.Some? then Some(h.blobGas.value.excessGas) else None, h.other)
  }

  datatype Outcome = Invalid | Executed(result: TxResult, diff: Diff)

  type Evm = (State, Env, Tx) -> Outcome

  datatype Receipt = Receipt(status: bool, cumulativeGasUsed: nat, logsBloom: Bloom.Filter, logs: seq<Bloom.Log>,
                             hash: nat, index: nat, gasUsed: nat)

  /** `bits` are the bloom bits of an input; `evm` and `bits` stand for the EVM and
      the hash function. */
  datatype Config = Config(amsterdam: bool, disableBlockGasLimit: bool, maxBlobGas: nat, minerReward: Option<nat>,
                           evm: Evm, bits: Bloom.Data -> Bloom.Filter)

  datatype Builder = Builder(
    header: Header, parentGasLimit: Option<nat>, receipts: seq<Receipt>, state: State, diff: Diff,
    transactions: seq<Tx>, results: seq<TxResult>, cumulativeGasUsed: nat)

  /** `Underflow` is the unchecked subtraction of `gas_remaining` going wrong. */
  datatype AddError = ExceedsBlockGasLimit | ExceedsBlockBlobGasLimit | TransactionInvalid | Underflow

  /** Gas after refunds, at least the calldata floor. */
  function NetGas(r: TxResult): nat {
    Max(if r.refunded <= r.totalGasSpent then r.totalGasSpent - r.refunded else 0, r.floorGas)
  }

  /** `transaction_block_gas_contribution` */
  function BlockGasContribution(amsterdam: bool, r: TxResult): nat {
    if amsterdam then Max(r.totalGasSpent, r.floorGas) else NetGas(r)
  }

  function Validate(cfg: Config, b: Builder, tx: Tx): Option<AddError> {
    if !cfg.disableBlockGasLimit && b.header.gasUsed > b.header.gasLimit then
      Some(Underflow)
    else if !cfg.disableBlockGasLimit && tx.gasLimit > b.header.gasLimit - b.header.gasUsed then
      Some(ExceedsBlockGasLimit)
    else if tx.blobHashes > 0 && b.header.blobGas.Some?
            && b.header.blobGas.value.gasUsed + TotalBlobGas(tx) > cfg.maxBlobGas then
      Some(ExceedsBlockBlobGasLimit)
    else
      None
  }

  function ChargeGas(amsterdam: bool, h: Header, tx: Tx, result: TxResult): Header {
    h.(gasUsed := h.gasUsed + BlockGasContribution(amsterdam, result),
       blobGas := match h.blobGas
                  case None => None
                  case Some(blob) => Some(blob.(gasUsed := blob.gasUsed + TotalBlobGas(tx))))
  }

  /** `add_transaction_result` */
  function Include(cfg: Config, b: Builder, tx: Tx, result: TxResult, diff: Diff): Builder {
    var cumulative := b.cumulativeGasUsed + NetGas(result);
    var receipt := Receipt(result.success, cumulative, Bloom.LogsBloom(result.logs, cfg.bits), result.logs,
                           tx.hash, |b.transactions|, NetGas(result));
    b.(header := ChargeGas(cfg.amsterdam, b.header, tx, result),
       receipts := b.receipts + [receipt],
       state := Commit(b.state, diff),
       diff := ApplyDiff(b.diff, diff),
       transactions := b.transactions + [tx],
       results := b.results + [result],
       cumulativeGasUsed := cumulative)
  }

  /** `add_transaction` */
  function Add(cfg: Config, b: Builder, tx: Tx): (Builder, Option<AddError>) {
    var error := Validate(cfg, b, tx);
    if error.Some? then (b, error)
    else match cfg.evm(b.state, EnvOf(b.header), tx)
      case Invalid => (b, Some(TransactionInvalid))
      case Executed(result, diff) => (Include(cfg, b, tx, result, diff), None)
  }

  /** Offering transactions one after the other; refused ones are dropped. */
  function AddAll(cfg: Config, b: Builder, txs: seq<Tx>): Builder {
    if txs == [] then b else Add(cfg, AddAll(cfg, b, txs[..|txs| - 1]), txs[|txs| - 1]).0
  }

  predicate Fresh(b: Builder) {
    && b.receipts == [] && b.transactions == [] && b.results == [] && b.diff == map[]
    && b.cumulativeGasUsed == 0 && b.header.gasUsed == 0
  }

  // ----- accounting -----

  function SumNet(rs: seq<TxResult>): nat {
    if rs == [] then 0 else SumNet(rs[..|rs| - 1]) + NetGas(rs[|rs| - 1])
  }

  function SumContribution(amsterdam: bool, rs: seq<TxResult>): nat {
    if rs == [] then 0 else SumContribution(amsterdam, rs[..|rs| - 1]) + BlockGasContribution(amsterdam, rs[|rs| - 1])
  }

  function SumBlobGas(txs: seq<Tx>): nat {
    if txs == [] then 0 else SumBlobGas(txs[..|txs| - 1]) + TotalBlobGas(txs[|txs| - 1])
  }

  /** Receipt `k` is the receipt of result `k`, with the prefix sum of net gas. */
  predicate ReceiptMatches(cfg: Config, transactions: seq<Tx>, receipts: seq<Receipt>, results: seq<TxResult>, k: nat)
    requires k < |receipts| == |transactions| == |results|
  {
    receipts[k] == Receipt(results[k].success, SumNet(results[..k + 1]), Bloom.LogsBloom(results[k].logs, cfg.bits),
                           results[k].logs, transactions[k].hash, k, NetGas(results[k]))
  }

  predicate Accounted(cfg: Config, start: Header, b: Builder) {
    && |b.receipts| == |b.transactions| == |b.results|
    && (forall k :: 0 <= k < |b.receipts| ==> ReceiptMatches(cfg, b.transactions, b.receipts, b.results, k))
    && b.cumulativeGasUsed == SumNet(b.results)
    && b.header.gasUsed == start.gasUsed + SumContribution(cfg.amsterdam, b.results)
    && b.header.blobGas == (match start.blobGas
                            case None => None
                            case Some(blob) => Some(blob.(gasUsed := blob.gasUsed + SumBlobGas(b.transactions))))
    && EnvOf(b.header) == EnvOf(start)
  }

  lemma IncludeKeepsAccounts(cfg: Config, start: Header, b: Builder, tx: Tx, result: TxResult, diff: Diff)
    requires Accounted(cfg, start, b)
    ensures Accounted(cfg, start, Include(cfg, b, tx, result, diff))
  {
    var next := Include(cfg, b, tx, result, diff);
    assert next.results[..|b.results|] == b.results && next.transactions[..|b.transactions|] == b.transactions;
    forall k | 0 <= k < |next.receipts|
      ensures ReceiptMatches(cfg, next.transactions, next.receipts, next.results, k)
    {
      if k < |b.receipts| {
        assert ReceiptMatches(cfg, b.transactions, b.receipts, b.results, k);
        assert next.results[..k + 1] == b.results[..k + 1];
      } else {
        assert next.results[..k + 1] == next.results;
      }
    }
  }

  /** After any run of adds from a fresh builder: transactions, receipts and results
      align by index, receipts carry prefix sums of net gas, the header carries the
      sum of block contributions and of blob gas, and nothing an execution can see
      of the block has changed. */
  lemma {:induction false} RunIsAccounted(cfg: Config, b: Builder, txs: seq<Tx>)
    requires Fresh(b)
    ensures Accounted(cfg, b.header, AddAll(cfg, b, txs))
  {
    if txs != [] {
      var before := AddAll(cfg, b, txs[..|txs| - 1]);
      RunIsAccounted(cfg, b, txs[..|txs| - 1]);
      match cfg.evm(before.state, EnvOf(before.header), txs[|txs| - 1])
      case Invalid =>
      case Executed(result, diff) => IncludeKeepsAccounts(cfg, b.header, before, txs[|txs| - 1], result, diff);
    }
  }

  /** What the refund saves the sender, given the calldata floor. */
  function EffectiveRefund(r: TxResult): nat {
    var refundable := if r.totalGasSpent > r.floorGas then r.totalGasSpent - r.floorGas else 0;
    if r.refunded < refundable then r.refunded else refundable
  }

  function SumRefunds(rs: seq<TxResult>): nat {
    if rs == [] then 0 else SumRefunds(rs[..|rs| - 1]) + EffectiveRefund(rs[|rs| - 1])
  }

  lemma {:induction false} BlockGasIsNetPlusRefunds(amsterdam: bool, rs: seq<TxResult>)
    ensures SumContribution(amsterdam, rs) == SumNet(rs) + if amsterdam then SumRefunds(rs) else 0
  {
    if rs != [] {
      BlockGasIsNetPlusRefunds(amsterdam, rs[..|rs| - 1]);
    }
  }

  /** The receipts' total never exceeds the header's gas. Before Amsterdam they are the
      same number; from Amsterdam on the header exceeds it by exactly the refunds. */
  lemma CumulativeGasVersusHeaderGas(cfg: Config, b: Builder, txs: seq<Tx>)
    requires Fresh(b)
    ensures var r := AddAll(cfg, b, txs);
            && r.header.gasUsed == r.cumulativeGasUsed + (if cfg.amsterdam then SumRefunds(r.results) else 0)
            && (r.receipts != [] ==> r.receipts[|r.receipts| - 1].cumulativeGasUsed == r.cumulativeGasUsed)
  {
    var r := AddAll(cfg, b, txs);
    RunIsAccounted(cfg, b, txs);
    BlockGasIsNetPlusRefunds(cfg.amsterdam, r.results);
    if r.receipts != [] {
      assert ReceiptMatches(cfg, r.transactions, r.receipts, r.results, |r.receipts| - 1);
      assert r.results[..|r.results|] == r.results;
    }
  }

  // ----- limits -----

  /** No execution contributes more block gas than its transaction's gas limit. */
  ghost predicate Bounded(cfg: Config) {
    forall s, env, tx :: cfg.evm(s, env, tx).Executed? ==>
      BlockGasContribution(cfg.amsterdam, cfg.evm(s, env, tx).result) <= tx.gasLimit
  }

  /** With the limit enforced, header gas stays within it; and whether it is or not, the
      subtraction in validation never goes wrong: with the limit disabled it is not
      evaluated, and no run is refused for its gas. */
  lemma {:induction false} GasLimitHolds(cfg: Config, b: Builder, txs: seq<Tx>, tx: Tx)
    requires cfg.disableBlockGasLimit || (Bounded(cfg) && b.header.gasUsed <= b.header.gasLimit)
    ensures var r := AddAll(cfg, b, txs);
            && r.header.gasLimit == b.header.gasLimit
            && (!cfg.disableBlockGasLimit ==> r.header.gasUsed <= r.header.gasLimit)
    ensures Validate(cfg, AddAll(cfg, b, txs), tx) != Some(Underflow)
    ensures cfg.disableBlockGasLimit ==> Validate(cfg, AddAll(cfg, b, txs), tx) != Some(ExceedsBlockGasLimit)
  {
    if txs != [] {
      var last := txs[|txs| - 1];
      GasLimitHolds(cfg, b, txs[..|txs| - 1], last);
      var before := AddAll(cfg, b, txs[..|txs| - 1]);
      assert !cfg.disableBlockGasLimit && cfg.evm(before.state, EnvOf(before.header), last).Executed? ==>
          BlockGasContribution(cfg.amsterdam, cfg.evm(before.state, EnvOf(before.header), last).result)
          <= last.gasLimit;
    }
  }

  predicate BlobGasWithin(cfg: Config, h: Header) {
    h.blobGas.Some? ==> h.blobGas.value.gasUsed <= cfg.maxBlobGas
  }

  /** Blob gas stays within the maximum, from any start within it. */
  lemma {:induction false} BlobLimitHolds(cfg: Config, b: Builder, txs: seq<Tx>)
    requires BlobGasWithin(cfg, b.header)
    ensures BlobGasWithin(cfg, AddAll(cfg, b, txs).header)
  {
    if txs != [] {
      BlobLimitHolds(cfg, b, txs[..|txs| - 1]);
    }
  }

  predicate WithinLimits(cfg: Config, h: Header) {
    (cfg.disableBlockGasLimit || h.gasUsed <= h.gasLimit) && BlobGasWithin(cfg, h)
  }

  /** A transaction is refused exactly when including it could break a limit: the gas limit,
      if it may use all of its gas, or the blob gas limit. */
  lemma AcceptedIffSafe(cfg: Config, b: Builder, tx: Tx)
    requires WithinLimits(cfg, b.header)
    ensures Validate(cfg, b, tx).None? <==>
              forall result | BlockGasContribution(cfg.amsterdam, result) <= tx.gasLimit ::
                WithinLimits(cfg, ChargeGas(cfg.amsterdam, b.header, tx, result))
  {
    var greedy := TxResult(true, tx.gasLimit, 0, 0, []);
    assert BlockGasContribution(cfg.amsterdam, greedy) == tx.gasLimit;
    if Validate(cfg, b, tx).Some? {
      assert !WithinLimits(cfg, ChargeGas(cfg.amsterdam, b.header, tx, greedy));
    }
  }

  /** Which error is reported, whatever state the builder is in, and what reporting one means:
      the builder is as it was, and without one the transaction is its last. */
  lemma RefusalIsReported(cfg: Config, b: Builder, tx: Tx)
    ensures var h, enforced := b.header, !cfg.disableBlockGasLimit;
            var error := Add(cfg, b, tx).1;
            && (error == Some(Underflow) <==> enforced && h.gasUsed > h.gasLimit)
            && (error == Some(ExceedsBlockGasLimit)
                <==> enforced && h.gasUsed <= h.gasLimit && h.gasUsed + tx.gasLimit > h.gasLimit)
            && (error == Some(ExceedsBlockBlobGasLimit)
                <==> && (enforced ==> h.gasUsed + tx.gasLimit <= h.gasLimit)
                     && tx.blobHashes > 0 && h.blobGas.Some?
                     && h.blobGas.value.gasUsed + 131_072 * tx.blobHashes > cfg.maxBlobGas)
            && (error == Some(TransactionInvalid)
                <==> Validate(cfg, b, tx).None? && cfg.evm(b.state, EnvOf(h), tx).Invalid?)
            && (error.Some? ==> Add(cfg, b, tx).0 == b)
            && (error.None? ==> Add(cfg, b, tx).0.transactions == b.transactions + [tx])
  {
  }

  predicate Fits(cfg: Config, h: Header, tx: Tx) {
    && (cfg.disableBlockGasLimit || h.gasUsed + tx.gasLimit <= h.gasLimit)
    && (h.blobGas.Some? ==> h.blobGas.value.gasUsed + 131_072 * tx.blobHashes <= cfg.maxBlobGas)
  }

  /** Of the offered transactions, those that fit where they are offered and execute. */
  function Accepted(cfg: Config, b: Builder, txs: seq<Tx>): seq<Tx> {
    if txs == [] then b.transactions
    else
      var last, before := txs[|txs| - 1], AddAll(cfg, b, txs[..|txs| - 1]);
      Accepted(cfg, b, txs[..|txs| - 1])
      + if Fits(cfg, before.header, last) && cfg.evm(before.state, EnvOf(before.header), last).Executed? then [last]
        else []
  }

  /** A run includes exactly the transactions that fit and execute, in the order of offers. */
  lemma {:induction false} RunIncludesAccepted(cfg: Config, b: Builder, txs: seq<Tx>)
    requires cfg.disableBlockGasLimit || (Bounded(cfg) && b.header.gasUsed <= b.header.gasLimit)
    requires BlobGasWithin(cfg, b.header)
    ensures AddAll(cfg, b, txs).transactions == Accepted(cfg, b, txs)
  {
    if txs != [] {
      var init, last := txs[..|txs| - 1], txs[|txs| - 1];
      RunIncludesAccepted(cfg, b, init);
      GasLimitHolds(cfg, b, init, last);
      BlobLimitHolds(cfg, b, init);
      AcceptedIffSafe(cfg, AddAll(cfg, b, init), last);
    }
  }

  // ----- the state and the diff as a replay -----

  /** Executing transactions in order and committing each; absent if one fails. */
  function Replay(evm: Evm, s: State, env: Env, txs: seq<Tx>): Option<State> {
    if txs == [] then
      Some(s)
    else
      var before := Replay(evm, s, env, txs[..|txs| - 1]);
      if before.None? then None
      else match evm(before.value, env, txs[|txs| - 1])
        case Invalid => None
        case Executed(_, diff) => Some(Commit(before.value, diff))
  }

  /** The diffs of that replay, as steps of an accumulating diff. */
  function ReplaySteps(evm: Evm, s: State, env: Env, txs: seq<Tx>): seq<Step> {
    if txs == [] then
      []
    else
      var before := Replay(evm, s, env, txs[..|txs| - 1]);
      var earlier := ReplaySteps(evm, s, env, txs[..|txs| - 1]);
      if before.None? then earlier
      else match evm(before.value, env, txs[|txs| - 1])
        case Invalid => earlier
        case Executed(_, diff) => earlier + [Transaction(diff)]
  }

  /** Transaction `k` of the builder was executed in the replay of the ones before
      it, and gave result `k`. */
  predicate ExecutedInReplay(cfg: Config, base: State, env: Env, b: Builder, k: nat)
    requires k < |b.transactions| == |b.results|
  {
    var before := Replay(cfg.evm, base, env, b.transactions[..k]);
    && before.Some?
    && cfg.evm(before.value, env, b.transactions[k]).Executed?
    && cfg.evm(before.value, env, b.transactions[k]).result == b.results[k]
  }

  predicate Replayable(cfg: Config, base: State, env: Env, b: Builder) {
    && EnvOf(b.header) == env
    && |b.transactions| == |b.results|
    && Replay(cfg.evm, base, env, b.transactions) == Some(b.state)
    && (forall k :: 0 <= k < |b.transactions| ==> ExecutedInReplay(cfg, base, env, b, k))
    && Progress(b.state, b.diff) == After(base, ReplaySteps(cfg.evm, base, env, b.transactions))
  }

  lemma IncludeIsReplayable(cfg: Config, base: State, b: Builder, tx: Tx)
    requires Replayable(cfg, base, EnvOf(b.header), b)
    requires cfg.evm(b.state, EnvOf(b.header), tx).Executed?
    ensures var o := cfg.evm(b.state, EnvOf(b.header), tx);
            Replayable(cfg, base, EnvOf(b.header), Include(cfg, b, tx, o.result, o.diff))
  {
    var env := EnvOf(b.header);
    var o := cfg.evm(b.state, env, tx);
    var next := Include(cfg, b, tx, o.result, o.diff);
    assert next.transactions[..|b.transactions|] == b.transactions;
    forall k | 0 <= k < |next.transactions|
      ensures ExecutedInReplay(cfg, base, env, next, k)
    {
      if k < |b.transactions| {
        assert ExecutedInReplay(cfg, base, env, b, k);
        assert next.transactions[..k] == b.transactions[..k];
      }
    }
    var steps := ReplaySteps(cfg.evm, base, env, b.transactions);
    assert (steps + [Transaction(o.diff)])[..|steps|] == steps;
  }

  /** At every point of every run, the builder's state is the replay of its own
      transactions on the initial state, transaction by transaction, and its diff
      is the accumulated diff of that replay. */
  lemma {:induction false} RunIsReplayable(cfg: Config, b: Builder, txs: seq<Tx>)
    requires Fresh(b)
    ensures Replayable(cfg, b.state, EnvOf(b.header), AddAll(cfg, b, txs))
  {
    if txs != [] {
      var before, last := AddAll(cfg, b, txs[..|txs| - 1]), txs[|txs| - 1];
      RunIsReplayable(cfg, b, txs[..|txs| - 1]);
      if Validate(cfg, before, last).None? && cfg.evm(before.state, EnvOf(before.header), last).Executed? {
        IncludeIsReplayable(cfg, b.state, before, last);
      }
    }
  }

  // ----- rewards and finalization -----

  /** `apply_rewards` with one reward. */
  function ApplyReward(b: Builder, address: Address, amount: nat): Builder {
    var p := Advance(Progress(b.state, b.diff), Reward(address, amount));
    b.(state := p.state, diff := p.diff)
  }

  function ApplyRewards(b: Builder, rewards: seq<(Address, nat)>): Builder {
    if rewards == [] then b
    else
      var earlier := ApplyRewards(b, rewards[..|rewards| - 1]);
      ApplyReward(earlier, rewards[|rewards| - 1].0, rewards[|rewards| - 1].1)
  }

  datatype Block = Block(header: Header, transactions: seq<Tx>, receipts: seq<Receipt>)

  datatype Finalized = BlockRlpSizeExceeded | Built(block: Block, state: State, diff: Diff, results: seq<TxResult>)

  function Blooms(receipts: seq<Receipt>): seq<Bloom.Filter> {
    seq(|receipts|, i requires 0 <= i < |receipts| => receipts[i].logsBloom)
  }

  function ResultLogs(results: seq<TxResult>): seq<seq<Bloom.Log>> {
    seq(|results|, i requires 0 <= i < |results| => results[i].logs)
  }

  /** The header `finalize` makes of the builder's; `now` is the clock. */
  function FinalHeader(b: Builder, now: nat, keccak: AccessList.Hash -> AccessList.Hash): Header {
    b.header.(
      gasLimit := if b.parentGasLimit.Some? then b.parentGasLimit.value else b.header.gasLimit,
      timestamp := if b.header.timestamp == 0 then now else b.header.timestamp,
      logsBloom := Bloom.UnionOfBlooms(Blooms(b.receipts)),
      accessListHash :=
        AccessList.BlockAccessListHash(b.header.accessListHash, b.diff != map[], b.header.parentHash, keccak))
  }

  function Rewarded(cfg: Config, b: Builder): Builder {
    if cfg.minerReward.Some? then ApplyRewards(b, [(b.header.beneficiary, cfg.minerReward.value)]) else b
  }

  function FinalizeBuilder(b: Builder, now: nat, rlpSize: nat, keccak: AccessList.Hash -> AccessList.Hash): Finalized {
    if rlpSize > MAX_RLP_BLOCK_SIZE then BlockRlpSizeExceeded
    else Built(Block(FinalHeader(b, now, keccak), b.transactions, b.receipts), b.state, b.diff, b.results)
  }

  /** A whole block: transactions offered to the builder, the reward, finalization. */
  function BuildBlock(cfg: Config, b: Builder, txs: seq<Tx>, now: nat, rlpSize: nat,
                      keccak: AccessList.Hash -> AccessList.Hash): Finalized {
    FinalizeBuilder(Rewarded(cfg, AddAll(cfg, b, txs)), now, rlpSize, keccak)
  }

  lemma RewardKeepsRest(cfg: Config, b: Builder)
    ensures Rewarded(cfg, b) == b.(state := Rewarded(cfg, b).state, diff := Rewarded(cfg, b).diff)
  {
    var rewards := [(b.header.beneficiary, if cfg.minerReward.Some? then cfg.minerReward.value else 0)];
    assert rewards[..0] == [] && ApplyRewards(b, []) == b;
  }

  // ----- what the block handed out says -----

  /** Receipt `k` of the block is that of its transaction `k` and of result `k`, with the
      prefix sum of net gas; the header carries the sums of block gas and blob gas; and only
      a block that is too large is refused. */
  lemma BlockIsAccounted(cfg: Config, b: Builder, txs: seq<Tx>, now: nat, rlpSize: nat,
                         keccak: AccessList.Hash -> AccessList.Hash)
    requires Fresh(b)
    ensures var r := BuildBlock(cfg, b, txs, now, rlpSize, keccak);
            && (r.Built? <==> rlpSize <= 8 * 1024 * 1024)
            && (r.Built? ==>
                  var h, built := r.block.header, AddAll(cfg, b, txs);
                  && r.block.transactions == built.transactions
                  && |r.block.receipts| == |r.block.transactions| == |r.results|
                  && (forall k :: 0 <= k < |r.results| ==>
                        ReceiptMatches(cfg, r.block.transactions, r.block.receipts, r.results, k))
                  && h.gasUsed == SumNet(r.results) + (if cfg.amsterdam then SumRefunds(r.results) else 0)
                  && h.blobGas == (match b.header.blobGas
                                   case None => None
                                   case Some(blob) =>
                                     Some(blob.(gasUsed := blob.gasUsed + SumBlobGas(r.block.transactions)))))
  {
    hide Bloom.LogsBloom, Bloom.UnionOfBlooms, AccessList.BlockAccessListHash;
    var built := AddAll(cfg, b, txs);
    RunIsAccounted(cfg, b, txs);
    RewardKeepsRest(cfg, built);
    BlockGasIsNetPlusRefunds(cfg.amsterdam, built.results);
    hide AddAll, Rewarded, ReceiptMatches, SumNet, SumContribution, SumRefunds, SumBlobGas, EnvOf;
  }

  /** The header's bloom is the bloom of all logs of the block. */
  lemma HeaderBloomCoversAllLogs(cfg: Config, b: Builder, txs: seq<Tx>, now: nat, rlpSize: nat,
                                 keccak: AccessList.Hash -> AccessList.Hash)
    requires Fresh(b)
    ensures var r := BuildBlock(cfg, b, txs, now, rlpSize, keccak);
            r.Built? ==> r.block.header.logsBloom == Bloom.LogsBloom(Bloom.Concat(ResultLogs(r.results)), cfg.bits)
  {
    var r := AddAll(cfg, b, txs);
    RunIsAccounted(cfg, b, txs);
    RewardKeepsRest(cfg, r);
    forall i | 0 <= i < |r.receipts|
      ensures Blooms(r.receipts)[i] == Bloom.LogsBloom(ResultLogs(r.results)[i], cfg.bits)
    {
      assert ReceiptMatches(cfg, r.transactions, r.receipts, r.results, i);
    }
    Bloom.UnionIsBloomOfAllLogs(ResultLogs(r.results), Blooms(r.receipts), cfg.bits);
  }

  /** The environment of the final header is that of the builder, with the parent's gas limit
      if none was given and the clock's time if none was set. So it is the one the executions
      saw exactly when the builder worked under the parent's limit, if any, and with a
      timestamp. */
  lemma FinalEnvironment(cfg: Config, b: Builder, txs: seq<Tx>, now: nat, rlpSize: nat,
                         keccak: AccessList.Hash -> AccessList.Hash)
    requires Fresh(b)
    ensures var r := BuildBlock(cfg, b, txs, now, rlpSize, keccak);
            r.Built? ==>
              && EnvOf(r.block.header)
                 == EnvOf(b.header).(
                      gasLimit := if b.parentGasLimit.Some? then b.parentGasLimit.value else b.header.gasLimit,
                      timestamp := if b.header.timestamp == 0 then now else b.header.timestamp)
              && (now > 0 ==> (EnvOf(r.block.header) == EnvOf(b.header) <==> KeepsEnvironment(b)))
  {
    hide Bloom.UnionOfBlooms, Bloom.LogsBloom, AccessList.BlockAccessListHash;
    RunIsAccounted(cfg, b, txs);
    RewardKeepsRest(cfg, AddAll(cfg, b, txs));
    ParentGasLimitIsKept(cfg, b, txs);
    hide AddAll, Rewarded;
  }

  /** Whether the builder works under the gas limit and timestamp of the final header. One
      that was given no gas limit works under the default of one million and is finalized
      with the parent's. */
  predicate KeepsEnvironment(b: Builder) {
    (b.parentGasLimit.Some? ==> b.parentGasLimit.value == b.header.gasLimit) && b.header.timestamp != 0
  }

  /** Two headers show the same to executions exactly if these fields agree. */
  lemma SameEnvironmentIff(g: Header, h: Header)
    ensures EnvOf(g) == EnvOf(h) <==>
              && g.number == h.number && g.beneficiary == h.beneficiary && g.gasLimit == h.gasLimit
              && g.timestamp == h.timestamp && g.other == h.other && g.blobGas.Some? == h.blobGas.Some?
              && (g.blobGas.Some? ==> g.blobGas.value.excessGas == h.blobGas.value.excessGas)
  {
  }

  /** The final state is the replay of the block's own transactions, followed by the reward,
      and the diff the accumulation of both. */
  lemma BlockIsReplayed(cfg: Config, b: Builder, txs: seq<Tx>, now: nat, rlpSize: nat,
                        keccak: AccessList.Hash -> AccessList.Hash)
    requires Fresh(b)
    ensures var r := BuildBlock(cfg, b, txs, now, rlpSize, keccak);
            r.Built? ==>
              && Replay(cfg.evm, b.state, EnvOf(b.header), r.block.transactions).Some?
              && Progress(r.state, r.diff) == After(b.state, BlockSteps(cfg, b, r.block.transactions))
  {
    hide Bloom.UnionOfBlooms, Bloom.LogsBloom, AccessList.BlockAccessListHash;
    var built := AddAll(cfg, b, txs);
    RunIsReplayable(cfg, b, txs);
    RunIsAccounted(cfg, b, txs);
    RewardedIsAccumulated(cfg, b, txs);
    RewardKeepsRest(cfg, built);
    hide AddAll, Rewarded, After, Replay, ReplaySteps;
  }

  /** An execution's diff marks as untouched only what it merely loaded. */
  ghost predicate Honest(evm: Evm) {
    forall s, env, tx :: evm(s, env, tx).Executed? ==>
      HonestStep(Progress(s, map[]), Transaction(evm(s, env, tx).diff))
  }

  lemma {:induction false} ReplayIsHonest(evm: Evm, base: State, env: Env, txs: seq<Tx>)
    requires Honest(evm) && (forall a: Address :: NonZero(Get(base, a))) && Replay(evm, base, env, txs).Some?
    ensures HonestRun(base, ReplaySteps(evm, base, env, txs))
    ensures After(base, ReplaySteps(evm, base, env, txs)).state == Replay(evm, base, env, txs).value
  {
    hide HonestRun, HonestStep, After, Commit, ApplyDiff, NonZero, Honest;
    if txs == [] {
      EmptyRunIsHonest(base);
    } else {
      var before, last := txs[..|txs| - 1], txs[|txs| - 1];
      ReplayIsHonest(evm, base, env, before);
      var state := Replay(evm, base, env, before).value;
      var earlier := ReplaySteps(evm, base, env, before);
      ExecutionIsHonest(evm, state, env, last);
      ExtendHonestRun(base, earlier, evm(state, env, last).diff);
    }
  }

  lemma EmptyRunIsHonest(base: State)
    requires forall a: Address :: NonZero(Get(base, a))
    ensures HonestRun(base, []) && After(base, []).state == base
  {
  }

  lemma ExecutionIsHonest(evm: Evm, s: State, env: Env, tx: Tx)
    requires Honest(evm) && evm(s, env, tx).Executed?
    ensures HonestStep(Progress(s, map[]), Transaction(evm(s, env, tx).diff))
  {
    hide HonestStep;
  }

  lemma ExtendHonestRun(base: State, steps: seq<Step>, diff: Diff)
    requires HonestRun(base, steps) && HonestStep(Progress(After(base, steps).state, map[]), Transaction(diff))
    ensures HonestRun(base, steps + [Transaction(diff)])
    ensures After(base, steps + [Transaction(diff)]).state == Commit(After(base, steps).state, diff)
  {
    hide HonestStep, Commit, ApplyDiff;
    HonestyIsAboutState(After(base, steps), diff);
    assert (steps + [Transaction(diff)])[..|steps|] == steps;
  }

  lemma HonestyIsAboutState(p: Progress, diff: Diff)
    requires HonestStep(Progress(p.state, map[]), Transaction(diff))
    ensures HonestStep(p, Transaction(diff))
  {
  }

  /** The builder as it is finalized: with the beneficiary's reward, if there is one. */
  /** The whole of a block's building, as an accumulating diff: the replay of its
      transactions, then the reward. */
  function BlockSteps(cfg: Config, b: Builder, transactions: seq<Tx>): seq<Step> {
    ReplaySteps(cfg.evm, b.state, EnvOf(b.header), transactions)
    + if cfg.minerReward.Some? then [Reward(b.header.beneficiary, cfg.minerReward.value)] else []
  }

  lemma RewardedIsAccumulated(cfg: Config, b: Builder, txs: seq<Tx>)
    requires Fresh(b)
    ensures var built := AddAll(cfg, b, txs);
            var final := Rewarded(cfg, built);
            Progress(final.state, final.diff) == After(b.state, BlockSteps(cfg, b, built.transactions))
  {
    var built := AddAll(cfg, b, txs);
    RunIsReplayable(cfg, b, txs);
    var earlier := ReplaySteps(cfg.evm, b.state, EnvOf(b.header), built.transactions);
    var steps := BlockSteps(cfg, b, built.transactions);
    if cfg.minerReward.Some? {
      assert steps[..|steps| - 1] == earlier;
      var one := [(built.header.beneficiary, cfg.minerReward.value)];
      assert one[..0] == [] && ApplyRewards(built, []) == built;
    } else {
      assert steps == earlier;
    }
  }

  /** For every block that is built, whatever is offered and whether or not a reward is
      paid: the diff handed out, applied to the initial state, is the state handed out if
      and only if the history of every account is settled. */
  lemma BuiltDiffDescribesStateIff(cfg: Config, b: Builder, txs: seq<Tx>, now: nat, rlpSize: nat,
                                   keccak: AccessList.Hash -> AccessList.Hash)
    requires Fresh(b) && Honest(cfg.evm) && forall a: Address :: NonZero(Get(b.state, a))
    ensures var r := BuildBlock(cfg, b, txs, now, rlpSize, keccak);
            r.Built? ==>
              (Commit(b.state, r.diff) == r.state
               <==> AllSettled(b.state, BlockSteps(cfg, b, r.block.transactions)))
  {
    var r := BuildBlock(cfg, b, txs, now, rlpSize, keccak);
    if r.Built? {
      hide BuildBlock, After, Commit, AllSettled, Replay, ReplaySteps, HonestRun;
      BlockIsReplayed(cfg, b, txs, now, rlpSize, keccak);
      ReplayIsHonest(cfg.evm, b.state, EnvOf(b.header), r.block.transactions);
      RewardKeepsHonesty(cfg, b, r.block.transactions);
      DiffDescribesStateIff(b.state, BlockSteps(cfg, b, r.block.transactions));
    }
  }

  lemma RewardKeepsHonesty(cfg: Config, b: Builder, transactions: seq<Tx>)
    requires HonestRun(b.state, ReplaySteps(cfg.evm, b.state, EnvOf(b.header), transactions))
    ensures HonestRun(b.state, BlockSteps(cfg, b, transactions))
  {
    var earlier := ReplaySteps(cfg.evm, b.state, EnvOf(b.header), transactions);
    var steps := BlockSteps(cfg, b, transactions);
    if cfg.minerReward.Some? {
      assert steps[..|steps| - 1] == earlier;
    } else {
      assert steps == earlier;
    }
  }

  // ----- the reward -----

  /** What `rewards` pay to an address. */
  function Paid(rewards: seq<(Address, nat)>, a: Address): nat {
    if rewards == [] then 0
    else
      var last := rewards[|rewards| - 1];
      Paid(rewards[..|rewards| - 1], a) + if last.0 == a then last.1 else 0
  }

  /** The account has `amount` more and is otherwise as before; paying nothing to an account
      that is absent does not create it. */
  predicate RaisedBy(before: Option<Account>, after: Option<Account>, amount: nat) {
    if amount == 0 then after == before
    else
      && after.Some?
      && after.value.info.balance == InfoOf(before).balance + amount
      && after.value.info.nonce == InfoOf(before).nonce && after.value.info.code == InfoOf(before).code
      && after.value.storage == SlotsOf(before)
      && (before.None? ==> after.value == Account(Info(amount, 0, 0), map[]))
  }

  /** What the diff records of an account that was paid: its new info, and otherwise what it
      recorded before. */
  predicate RecordsPayment(before: Option<Change>, after: Option<Change>, account: Option<Account>, amount: nat) {
    if amount == 0 then after == before
    else
      && after.Some? && account.Some? && after.value.info == account.value.info
      && (before.None? ==> after.value.touched && !after.value.created && !after.value.destroyed
                           && after.value.storage == map[])
      && (before.Some? ==> after.value == before.value.(info := after.value.info))
  }

  /** Rewards raise the balances of exactly the rewarded, by exactly what they are paid, in the
      state and in the diff, and change nothing else. */
  lemma {:induction false} RewardsArePaid(b: Builder, rewards: seq<(Address, nat)>, a: Address)
    ensures var r := ApplyRewards(b, rewards);
            && r == b.(state := r.state, diff := r.diff)
            && RaisedBy(Get(b.state, a), Get(r.state, a), Paid(rewards, a))
            && RecordsPayment(Get(b.diff, a), Get(r.diff, a), Get(r.state, a), Paid(rewards, a))
  {
    if rewards != [] {
      RewardsArePaid(b, rewards[..|rewards| - 1], a);
    }
  }

  /** In the block handed out the beneficiary has exactly the reward on top of what the
      transactions left, and every other account what they left it. */
  lemma BlockPaysReward(cfg: Config, b: Builder, txs: seq<Tx>, now: nat, rlpSize: nat,
                        keccak: AccessList.Hash -> AccessList.Hash, a: Address)
    requires Fresh(b)
    ensures var r := BuildBlock(cfg, b, txs, now, rlpSize, keccak);
            r.Built? ==>
              var left := Replay(cfg.evm, b.state, EnvOf(b.header), r.block.transactions);
              var reward := if cfg.minerReward.Some? && a == b.header.beneficiary then cfg.minerReward.value else 0;
              left.Some? && RaisedBy(Get(left.value, a), Get(r.state, a), reward)
  {
    hide Bloom.UnionOfBlooms, Bloom.LogsBloom, AccessList.BlockAccessListHash;
    var built := AddAll(cfg, b, txs);
    RunIsReplayable(cfg, b, txs);
    RewardKeepsRest(cfg, built);
    if cfg.minerReward.Some? {
      var one := [(built.header.beneficiary, cfg.minerReward.value)];
      RewardsArePaid(built, one, a);
      assert one[..0] == [] && Paid(one[..0], a) == 0;
    }
    hide AddAll, Replay, After, ApplyRewards;
  }

  // ----- the final header in its chain -----

  function ChainHeader(h: Header): AccessList.Header<Header> {
    AccessList.Header(h.number, h.parentHash, h.accessListHash, h)
  }

  lemma {:induction false} LinksAreKept(cfg: Config, b: Builder, txs: seq<Tx>)
    ensures var h := AddAll(cfg, b, txs).header;
            && h.number == b.header.number && h.parentHash == b.header.parentHash
            && h.accessListHash == b.header.accessListHash
  {
    if txs != [] {
      LinksAreKept(cfg, b, txs[..|txs| - 1]);
    }
  }

  /** Every block built on a parent from the empty-list hash is a valid link of its chain,
      where a block changes state if the diff it hands out is not empty: what is proved of
      access list hashes along chains holds of the blocks the builder makes. */
  lemma BuiltBlockIsValidLink(cfg: Config, b: Builder, txs: seq<Tx>, now: nat, rlpSize: nat,
                              keccak: seq<byte> -> AccessList.Hash,
                              blockHash: AccessList.Header<Header> -> AccessList.Hash, parent: AccessList.Block<Header>)
    requires b.header.accessListHash == Some(keccak(AccessList.EMPTY_LIST))
    requires b.header.number == parent.header.number + 1 && b.header.parentHash == blockHash(parent.header)
    ensures var r := BuildBlock(cfg, b, txs, now, rlpSize, keccak);
            r.Built? ==>
              AccessList.ValidLink(parent, AccessList.Block(ChainHeader(r.block.header), r.diff != map[]), keccak,
                                   blockHash)
  {
    hide Bloom.UnionOfBlooms;
    LinksAreKept(cfg, b, txs);
    RewardKeepsRest(cfg, AddAll(cfg, b, txs));
  }

  /** A block whose diff is empty left the state as it was. */
  lemma EmptyDiffMeansUnchanged(cfg: Config, b: Builder, txs: seq<Tx>, now: nat, rlpSize: nat,
                                keccak: AccessList.Hash -> AccessList.Hash)
    requires Fresh(b)
    ensures var r := BuildBlock(cfg, b, txs, now, rlpSize, keccak);
            r.Built? && r.diff == map[] ==> r.state == b.state
  {
    var r := BuildBlock(cfg, b, txs, now, rlpSize, keccak);
    if r.Built? {
      hide BuildBlock, After, BlockSteps;
      BlockIsReplayed(cfg, b, txs, now, rlpSize, keccak);
      EmptyDiffIff(b.state, BlockSteps(cfg, b, r.block.transactions));
    }
  }

  /** The converse fails: a diff records loaded accounts as well. A block whose executions
      only load, and that pays no reward, leaves the state as it was, and yet gets a derived
      hash if and only if anything was loaded. */
  lemma LoadsGetDerivedHashIff(cfg: Config, b: Builder, txs: seq<Tx>, now: nat, rlpSize: nat,
                               keccak: seq<byte> -> AccessList.Hash)
    requires Fresh(b) && b.header.accessListHash == Some(keccak(AccessList.EMPTY_LIST))
    requires AccessList.Separates(keccak, AccessList.Preimage(b.header.parentHash), AccessList.EMPTY_LIST)
    requires forall step :: step in BlockSteps(cfg, b, AddAll(cfg, b, txs).transactions) ==> !Touches(step)
    ensures var r := BuildBlock(cfg, b, txs, now, rlpSize, keccak);
            r.Built? ==>
              && r.state == b.state
              && (r.block.header.accessListHash != Some(keccak(AccessList.EMPTY_LIST))
                  <==> exists step :: step in BlockSteps(cfg, b, r.block.transactions) && LeavesEntry(step))
  {
    hide AddAll, Rewarded, After, BlockSteps, LeavesEntry, Touches, Bloom.UnionOfBlooms, AccessList.BlockAccessListHash;
    var built := AddAll(cfg, b, txs);
    RewardedIsAccumulated(cfg, b, txs);
    EmptyDiffIff(b.state, BlockSteps(cfg, b, built.transactions));
    LinksAreKept(cfg, b, txs);
    RewardKeepsRest(cfg, built);
    AccessList.HashIsReplacedIff(b.header.accessListHash, Rewarded(cfg, built).diff != map[], b.header.parentHash,
                                 keccak);
  }

  /** An EVM that loads account 0 and does nothing. */
  function Loading(): Evm {
    (s: State, env: Env, tx: Tx) =>
      Executed(TxResult(true, 0, 0, 0, []), map[0 := Change(InfoOf(Get(s, 0)), false, false, false, map[])])
  }

  /** Such a block exists on every fresh builder without a reward. */
  lemma LoadedBlockLooksChanged(cfg: Config, b: Builder, now: nat, rlpSize: nat,
                                keccak: AccessList.Hash -> AccessList.Hash)
    requires Fresh(b) && cfg.evm == Loading() && cfg.minerReward.None?
    ensures Honest(cfg.evm)
    ensures var r := BuildBlock(cfg, b, [Tx(0, 0, 0, 0)], now, rlpSize, keccak);
            r.Built? ==> r.state == b.state && r.diff != map[]
  {
    hide Bloom.LogsBloom, Bloom.UnionOfBlooms, Commit, AccessList.BlockAccessListHash;
    var tx := Tx(0, 0, 0, 0);
    assert [tx][..0] == [];
    assert AddAll(cfg, b, [tx]) == Add(cfg, b, tx).0;
    var diff := cfg.evm(b.state, EnvOf(b.header), tx).diff;
    UntouchedStateStays(b.state, diff);
    assert 0 in ApplyDiff(map[], diff);
  }

  // ----- the gas limit of the final header -----

  lemma {:induction false} ParentGasLimitIsKept(cfg: Config, b: Builder, txs: seq<Tx>)
    ensures AddAll(cfg, b, txs).parentGasLimit == b.parentGasLimit
  {
    if txs != [] {
      ParentGasLimitIsKept(cfg, b, txs[..|txs| - 1]);
    }
  }

  /** A block carries at most its gas limit, if the builder was given a limit of its own or
      worked under one within the parent's. */
  lemma FinalGasLimitHolds(cfg: Config, b: Builder, txs: seq<Tx>, now: nat, rlpSize: nat,
                           keccak: AccessList.Hash -> AccessList.Hash)
    requires Bounded(cfg) && !cfg.disableBlockGasLimit && b.header.gasUsed <= b.header.gasLimit
    requires b.parentGasLimit.Some? ==> b.header.gasLimit <= b.parentGasLimit.value
    ensures var r := BuildBlock(cfg, b, txs, now, rlpSize, keccak);
            r.Built? ==> r.block.header.gasUsed <= r.block.header.gasLimit
  {
    hide Bloom.UnionOfBlooms, AccessList.BlockAccessListHash;
    GasLimitHolds(cfg, b, txs, Tx(0, 0, 0, 0));
    ParentGasLimitIsKept(cfg, b, txs);
    RewardKeepsRest(cfg, AddAll(cfg, b, txs));
    hide AddAll, Rewarded;
  }

  /** An EVM that uses up every transaction's gas. */
  function Greedy(): Evm {
    (s: State, env: Env, tx: Tx) => Executed(TxResult(true, tx.gasLimit, 0, 0, []), map[])
  }

  /** The condition is exact: for every fresh builder that enforces a limit above the
      parent's there are an EVM, within the bounds, and a transaction whose block is
      finalized with more gas than its limit. */
  lemma FinalGasCanExceedLimit(cfg: Config, b: Builder, now: nat, rlpSize: nat,
                               keccak: AccessList.Hash -> AccessList.Hash)
    requires Fresh(b) && cfg.evm == Greedy() && b.parentGasLimit.Some? && b.parentGasLimit.value < b.header.gasLimit
    ensures Bounded(cfg)
    ensures var r := BuildBlock(cfg, b, [Tx(0, b.header.gasLimit, 0, 0)], now, rlpSize, keccak);
            r.Built? ==> r.block.header.gasUsed > r.block.header.gasLimit
  {
    hide Bloom.UnionOfBlooms, Bloom.LogsBloom, AccessList.BlockAccessListHash, Commit, ApplyDiff;
    var tx := Tx(0, b.header.gasLimit, 0, 0);
    assert [tx][..0] == [];
    assert AddAll(cfg, b, [tx]) == Add(cfg, b, tx).0;
    RewardKeepsRest(cfg, AddAll(cfg, b, [tx]));
  }

  class EthBlockBuilder {
    const cfg: Config
    var header: Header
    var parentGasLimit: Option<nat>
    var receipts: seq<Receipt>
    var state: State
    var diff: Diff
    var transactions: seq<Tx>
    var results: seq<TxResult>
    var cumulativeGasUsed: nat

    function View(): Builder
      reads this
    {
      Builder(header, parentGasLimit, receipts, state, diff, transactions, results, cumulativeGasUsed)
    }

    constructor (cfg: Config, header: Header, parentGasLimit: Option<nat>, state: State)
      requires header.gasUsed == 0
      ensures this.cfg == cfg
      ensures Fresh(View()) && this.header == header && this.parentGasLimit == parentGasLimit && this.state == state
    {
      this.cfg := cfg;
      this.header := header;
      this.parentGasLimit := parentGasLimit;
      this.state := state;
      receipts, transactions, results := [], [], [];
      diff := map[];
      cumulativeGasUsed := 0;
    }

    method ValidateTransaction(tx: Tx) returns (error: Option<AddError>)
      ensures error == Validate(cfg, View(), tx)
    {
      if !cfg.disableBlockGasLimit {
        if header.gasUsed > header.gasLimit {
          return Some(Underflow);
        }
        var gasRemaining := header.gasLimit - header.gasUsed;
        if tx.gasLimit > gasRemaining {
          return Some(ExceedsBlockGasLimit);
        }
      }
      if tx.blobHashes > 0 && header.blobGas.Some? {
        if header.blobGas.value.gasUsed + TotalBlobGas(tx) > cfg.maxBlobGas {
          return Some(ExceedsBlockBlobGasLimit);
        }
      }
      return None;
    }

    method ChargeHeader(tx: Tx, result: TxResult)
      modifies this`header
      ensures header == ChargeGas(cfg.amsterdam, old(header), tx, result)
    {
      header := header.(gasUsed := header.gasUsed + BlockGasContribution(cfg.amsterdam, result));
      if header.blobGas.Some? {
        var blob := header.blobGas.value;
        header := header.(blobGas := Some(blob.(gasUsed := blob.gasUsed + TotalBlobGas(tx))));
      }
    }

    method AddTransactionResult(tx: Tx, result: TxResult, stateDiff: Diff)
      modifies this
      ensures View() == Include(cfg, old(View()), tx, result, stateDiff)
    {
      hide Commit, ApplyDiff, NetGas, ChargeGas;
      diff := ApplyDiffByEntry(diff, stateDiff);
      state := CommitByEntry(state, stateDiff);
      cumulativeGasUsed := cumulativeGasUsed + NetGas(result);
      ChargeHeader(tx, result);
      var bloom := Bloom.LogsToBloom(result.logs, cfg.bits);
      receipts := receipts
        + [Receipt(result.success, cumulativeGasUsed, bloom, result.logs, tx.hash, |transactions|, NetGas(result))];
      transactions := transactions + [tx];
      results := results + [result];
    }

    /** A refused transaction leaves the builder as it was. */
    method AddTransaction(tx: Tx) returns (error: Option<AddError>)
      modifies this
      ensures (View(), error) == Add(cfg, old(View()), tx)
      ensures error.Some? ==> View() == old(View())
    {
      error := ValidateTransaction(tx);
      if error.Some? {
        return;
      }
      match cfg.evm(state, EnvOf(header), tx)
      case Invalid => error := Some(TransactionInvalid);
      case Executed(result, stateDiff) => AddTransactionResult(tx, result, stateDiff);
    }

    method PayRewards(rewards: seq<(Address, nat)>)
      modifies this
      ensures View() == ApplyRewards(old(View()), rewards)
    {
      for i := 0 to |rewards|
        invariant View() == ApplyRewards(old(View()), rewards[..i])
      {
        assert rewards[..i + 1][..i] == rewards[..i];
        var (address, amount) := rewards[i];
        if amount > 0 {
          var account := Credit(Get(state, address), amount);
          state := state[address := account];
          diff := diff[address := ChangeInfo(Get(diff, address), account.info)];
        }
      }
      assert rewards[..|rewards|] == rewards;
    }

    /** `L1BlockBuilder::finalize_block`: the reward first, so that the access list
        hash sees its state change. */
    method FinalizeBlock(now: nat, rlpSize: nat, keccak: AccessList.Hash -> AccessList.Hash) returns (r: Finalized)
      modifies this
      ensures r == FinalizeBuilder(Rewarded(cfg, old(View())), now, rlpSize, keccak)
    {
      if cfg.minerReward.Some? {
        PayRewards([(header.beneficiary, cfg.minerReward.value)]);
      }
      if parentGasLimit.Some? {
        header := header.(gasLimit := parentGasLimit.value);
      }
      var bloom: Bloom.Filter := {};
      for i := 0 to |receipts|
        invariant bloom == Bloom.UnionOfBlooms(Blooms(receipts[..i]))
      {
        assert Blooms(receipts[..i + 1])[..i] == Blooms(receipts[..i]);
        bloom := bloom + receipts[i].logsBloom;
      }
      assert receipts[..|receipts|] == receipts;
      header := header.(logsBloom := bloom);
      if header.timestamp == 0 {
        header := header.(timestamp := now);
      }
      header := header.(
        accessListHash := AccessList.BlockAccessListHash(header.accessListHash, diff != map[], header.parentHash,
                                                         keccak));
      if rlpSize > MAX_RLP_BLOCK_SIZE {
        return BlockRlpSizeExceeded;
      }
      return Built(Block(header, transactions, receipts), state, diff, results);
    }
  }
}
