/** `debug_trace_transaction`: replaying a block up to one of its transactions. */
module DebugTrace {
  import opened Prelude
  import opened StateDiff
  import opened BlockBuilder
  import AccessList
  import Bloom

  datatype Trace =
    | InvalidSpecId
    | InvalidTransactionHash
    | ReplayFailed(index: nat)
    | Traced(index: nat, state: State, outcome: Outcome)

  /** The first transaction with the hash, if any. */
  predicate FirstWithHash(txs: seq<Tx>, hash: nat, k: nat) {
    k < |txs| && txs[k].hash == hash && forall i :: 0 <= i < k ==> txs[i].hash != hash
  }

  /** What the trace of the transaction with `hash` must be: the first transaction
      with that hash, executed in the replay of the ones before it. */
  predicate IsTrace(evm: Evm, base: State, env: Env, txs: seq<Tx>, hash: nat, r: Trace) {
    match r
    case InvalidSpecId => false
    case InvalidTransactionHash =>
      Replay(evm, base, env, txs).Some? && forall i :: 0 <= i < |txs| ==> txs[i].hash != hash
    case ReplayFailed(k) =>
      && k < |txs| && (forall i :: 0 <= i <= k ==> txs[i].hash != hash)
      && Replay(evm, base, env, txs[..k]).Some? && Replay(evm, base, env, txs[..k + 1]).None?
    case Traced(k, state, outcome) =>
      && FirstWithHash(txs, hash, k)
      && Replay(evm, base, env, txs[..k]) == Some(state)
      && outcome == evm(state, env, txs[k])
  }

  method DebugTraceTransaction(evm: Evm, beforeSpuriousDragon: bool, base: State, env: Env, txs: seq<Tx>, hash: nat)
    returns (r: Trace)
    ensures if beforeSpuriousDragon then r == InvalidSpecId else IsTrace(evm, base, env, txs, hash, r)
  {
    if beforeSpuriousDragon {
      return InvalidSpecId;
    }
    var state := base;
    for k := 0 to |txs|
      invariant Replay(evm, base, env, txs[..k]) == Some(state)
      invariant forall i :: 0 <= i < k ==> txs[i].hash != hash
    {
      assert txs[..k + 1][..k] == txs[..k];
      if txs[k].hash == hash {
        return Traced(k, state, evm(state, env, txs[k]));
      }
      match evm(state, env, txs[k])
      case Invalid => return ReplayFailed(k);
      case Executed(_, diff) => state := Commit(state, diff);
    }
    assert txs[..|txs|] == txs;
    return InvalidTransactionHash;
  }

  lemma NoReplayPastFailure(evm: Evm, base: State, env: Env, txs: seq<Tx>, j: nat, k: nat)
    requires j < k <= |txs| && Replay(evm, base, env, txs[..j + 1]).None?
    ensures Replay(evm, base, env, txs[..k]).None?
  {
    if Replay(evm, base, env, txs[..k]).Some? {
      assert txs[..k][..j + 1] == txs[..j + 1];
      ReplayOfPrefix(evm, base, env, txs[..k], j + 1);
    }
  }

  lemma FailureIsUnique(evm: Evm, base: State, env: Env, txs: seq<Tx>, hash: nat, k: nat, t: Trace)
    requires IsTrace(evm, base, env, txs, hash, ReplayFailed(k)) && IsTrace(evm, base, env, txs, hash, t)
    ensures t == ReplayFailed(k)
  {
    hide Replay;
    assert txs[..|txs|] == txs;
    NoReplayPastFailure(evm, base, env, txs, k, |txs|);
    if (t.Traced? || t.ReplayFailed?) && k < t.index {
      NoReplayPastFailure(evm, base, env, txs, k, t.index);
    } else if t.ReplayFailed? && t.index < k {
      NoReplayPastFailure(evm, base, env, txs, t.index, k);
    }
  }

  /** There is exactly one trace: what is asked of it leaves nothing open. */
  lemma TraceIsUnique(evm: Evm, base: State, env: Env, txs: seq<Tx>, hash: nat, r: Trace, t: Trace)
    requires IsTrace(evm, base, env, txs, hash, r) && IsTrace(evm, base, env, txs, hash, t)
    ensures r == t
  {
    hide Replay;
    if r.ReplayFailed? {
      FailureIsUnique(evm, base, env, txs, hash, r.index, t);
    } else if t.ReplayFailed? {
      FailureIsUnique(evm, base, env, txs, hash, t.index, r);
    }
  }

  lemma {:induction false} ReplayOfPrefix(evm: Evm, base: State, env: Env, txs: seq<Tx>, k: nat)
    requires k <= |txs| && Replay(evm, base, env, txs).Some?
    ensures Replay(evm, base, env, txs[..k]).Some?
  {
    if k < |txs| {
      var before := txs[..|txs| - 1];
      ReplayOfPrefix(evm, base, env, before, k);
      assert before[..k] == txs[..k];
    } else {
      assert txs[..k] == txs;
    }
  }

  /** Transaction `k` of the block was included after the offers before `m`. */
  predicate IncludedAt(cfg: Config, b: Builder, offered: seq<Tx>, k: nat, m: nat) {
    var built := AddAll(cfg, b, offered);
    && k < |built.transactions| && m < |offered|
    && offered[m] == built.transactions[k]
    && AddAll(cfg, b, offered[..m]).transactions == built.transactions[..k]
  }

  /** Every transaction of the block was included at some point of the run. */
  lemma {:induction false} InclusionPoint(cfg: Config, b: Builder, offered: seq<Tx>, k: nat) returns (m: nat)
    requires Fresh(b) && k < |AddAll(cfg, b, offered).transactions|
    ensures IncludedAt(cfg, b, offered, k, m)
  {
    var last := |offered| - 1;
    var before := AddAll(cfg, b, offered[..last]);
    var built := AddAll(cfg, b, offered);
    if k < |before.transactions| {
      m := InclusionPoint(cfg, b, offered[..last], k);
      assert offered[..last][..m] == offered[..m];
      assert built.transactions[..k] == before.transactions[..k];
    } else {
      m := last;
      assert built.transactions[..k] == before.transactions;
    }
  }

  lemma BlockKeepsRun(cfg: Config, b: Builder, offered: seq<Tx>, now: nat, rlpSize: nat,
                      keccak: AccessList.Hash -> AccessList.Hash)
    requires Fresh(b) && KeepsEnvironment(b) && BuildBlock(cfg, b, offered, now, rlpSize, keccak).Built?
    ensures var f, built := BuildBlock(cfg, b, offered, now, rlpSize, keccak), AddAll(cfg, b, offered);
            && f.block.transactions == built.transactions && f.results == built.results
            && EnvOf(f.block.header) == EnvOf(b.header)
  {
    hide Bloom.UnionOfBlooms, AccessList.BlockAccessListHash, AddAll, Rewarded;
    RewardKeepsRest(cfg, AddAll(cfg, b, offered));
    FinalEnvironment(cfg, b, offered, now, rlpSize, keccak);
  }

  /** Tracing transaction `k` of a block that was handed out, on the state before the block
      and under the block's own header: there is a point of the run at which the builder
      included it, the trace executes it in exactly the state the builder had then, and gets
      the block's result, provided the builder worked under the gas limit and timestamp of
      the final header. */
  lemma TraceMatchesBuild(cfg: Config, b: Builder, offered: seq<Tx>, now: nat, rlpSize: nat,
                          keccak: AccessList.Hash -> AccessList.Hash, k: nat, r: Trace)
    requires Fresh(b) && KeepsEnvironment(b)
    requires var f := BuildBlock(cfg, b, offered, now, rlpSize, keccak);
             && f.Built? && k < |f.block.transactions|
             && (forall i :: 0 <= i < k ==> f.block.transactions[i].hash != f.block.transactions[k].hash)
             && IsTrace(cfg.evm, b.state, EnvOf(f.block.header), f.block.transactions, f.block.transactions[k].hash, r)
    ensures r.Traced? && r.index == k
    ensures exists m: nat :: IncludedAt(cfg, b, offered, k, m) && AddAll(cfg, b, offered[..m]).state == r.state
    ensures var f := BuildBlock(cfg, b, offered, now, rlpSize, keccak);
            r.outcome.Executed? && |f.results| == |f.block.transactions| && r.outcome.result == f.results[k]
  {
    hide BuildBlock, AddAll, Replay, EnvOf;
    var f := BuildBlock(cfg, b, offered, now, rlpSize, keccak);
    var built := AddAll(cfg, b, offered);
    var env := EnvOf(b.header);
    RunIsReplayable(cfg, b, offered);
    BlockKeepsRun(cfg, b, offered, now, rlpSize, keccak);
    assert ExecutedInReplay(cfg, b.state, env, built, k);
    if r.ReplayFailed? {
      ReplayOfPrefix(cfg.evm, b.state, env, built.transactions, r.index + 1);
    }
    var m := InclusionPoint(cfg, b, offered, k);
    RunIsReplayable(cfg, b, offered[..m]);
    assert IncludedAt(cfg, b, offered, k, m) && AddAll(cfg, b, offered[..m]).state == r.state;
  }

  /** An EVM whose gas tells whether it runs in `env`. */
  function Telltale(env: Env): Evm {
    (s: State, e: Env, tx: Tx) => Executed(TxResult(true, if e == env then 0 else 1, 0, 0, []), map[])
  }

  /** The proviso is exact: for every fresh builder that does not meet it, and every
      transaction it would accept, there is an EVM under which the traced result differs
      from the one in the block. */
  lemma TraceDiffersUnlessEnvironmentIsKept(cfg: Config, b: Builder, tx: Tx, now: nat, rlpSize: nat,
                                            keccak: AccessList.Hash -> AccessList.Hash, r: Trace)
    requires Fresh(b) && !KeepsEnvironment(b) && now > 0
    requires cfg.evm == Telltale(EnvOf(b.header)) && Validate(cfg, b, tx).None?
    requires var f := BuildBlock(cfg, b, [tx], now, rlpSize, keccak);
             f.Built? && IsTrace(cfg.evm, b.state, EnvOf(f.block.header), f.block.transactions, tx.hash, r)
    ensures var f := BuildBlock(cfg, b, [tx], now, rlpSize, keccak);
            && f.block.transactions == [tx] && |f.results| == 1
            && r.Traced? && r.outcome.Executed? && r.outcome.result != f.results[0]
  {
    hide Bloom.UnionOfBlooms, Bloom.LogsBloom, AccessList.BlockAccessListHash, Commit, ApplyDiff;
    assert [tx][..0] == [] && AddAll(cfg, b, []) == b;
    var built := AddAll(cfg, b, [tx]);
    assert built == Add(cfg, b, tx).0;
    RewardKeepsRest(cfg, built);
    FinalEnvironment(cfg, b, [tx], now, rlpSize, keccak);
  }
}
