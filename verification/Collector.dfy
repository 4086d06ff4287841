/** The run-time side of coverage: the inspector that answers the inserted calls,
    over nested call and create frames and over sequences of transactions. */
module Collector {
  import opened Prelude
  import opened Bytes

  type Data = seq<byte>
  type Address = seq<byte>

  /** 0xc0bEc0BEc0BeC0bEC0beC0bEC0bEC0beC0beC0BE */
  const COVERAGE_ADDRESS: Address :=
    [0xc0, 0xbe, 0xc0, 0xbe, 0xc0, 0xbe, 0xc0, 0xbe, 0xc0, 0xbe,
     0xc0, 0xbe, 0xc0, 0xbe, 0xc0, 0xbe, 0xc0, 0xbe, 0xc0, 0xbe]

  // ----- the collector's state and hooks -----

  datatype State = State(hits: set<Data>, previous: Data)

  const FRESH := State({}, [])

  function OnCall(c: State, target: Address, input: Data): (State, Option<Data>) {
    if target == COVERAGE_ADDRESS then (c.(hits := c.hits + {input}), Some(c.previous)) else (c, None)
  }

  function OnCallEnd(c: State, target: Address, output: Data): State {
    if target != COVERAGE_ADDRESS then c.(previous := output) else c
  }

  function OnCreateEnd(c: State, reverted: bool, output: Data): State {
    c.(previous := if reverted then output else [])
  }

  class CoverageHitCollector {
    var hits: set<Data>
    var previousCallOutput: Data

    function View(): State
      reads this
    {
      State(hits, previousCallOutput)
    }

    constructor ()
      ensures View() == FRESH
    {
      hits, previousCallOutput := {}, [];
    }

    method Call(target: Address, input: Data) returns (outcome: Option<Data>)
      modifies this
      ensures (View(), outcome) == OnCall(old(View()), target, input)
    {
      if target == COVERAGE_ADDRESS {
        hits := hits + {input};
        return Some(previousCallOutput);
      }
      return None;
    }

    method CallEnd(target: Address, output: Data)
      modifies this
      ensures View() == OnCallEnd(old(View()), target, output)
    {
      if target != COVERAGE_ADDRESS {
        previousCallOutput := output;
      }
    }

    method CreateEnd(reverted: bool, output: Data)
      modifies this
      ensures View() == OnCreateEnd(old(View()), reverted, output)
    {
      if reverted {
        previousCallOutput := output;
      } else {
        previousCallOutput := [];
      }
    }

    method Flush() returns (flushed: set<Data>)
      modifies this
      ensures flushed == old(hits)
      ensures View() == FRESH
    {
      flushed := hits;
      hits := {};
      previousCallOutput := [];
    }
  }

  /** A coverage call leaves the collector its input and nothing else, whatever its outcome
      turns out to be. */
  lemma CoverageCallLeavesOnlyItsHit(c: State, input: Data, output: Data)
    ensures OnCallEnd(OnCall(c, COVERAGE_ADDRESS, input).0, COVERAGE_ADDRESS, output)
         == State(c.hits + {input}, c.previous)
  {
  }

  // ----- executions -----

  /** What one frame does, as far as return data is concerned: it inspects its
      return-data buffer, or it makes a call or create whose own frame does
      `body` and ends with `output`. A call to the coverage address has no frame
      of its own. */
  datatype Op =
    | Read
    | Call(target: Address, input: Data, body: seq<Op>, output: Data)
    | Create(body: seq<Op>, reverted: bool, output: Data)

  predicate IsHit(op: Op) {
    op.Call? && op.target == COVERAGE_ADDRESS
  }

  /** Everything the frames saw in their buffers, in execution order, and the
      frame's final buffer. */
  datatype Plain = Plain(buffer: Data, seen: seq<Data>)

  datatype Instrumented = Instrumented(buffer: Data, collector: State, seen: seq<Data>)

  /** The return data an operation leaves its caller, as the EVM has it: a create that
      succeeds leaves none, for its output is the code it deployed. */
  function Output(op: Op): Data
    requires !op.Read?
  {
    match op
    case Call(_, _, _, output) => output
    case Create(_, true, output) => output
    case Create(_, false, _) => []
  }

  /** The EVM without instrumentation: coverage calls are not there. A frame's
      buffer is empty at first and holds the last subcall's return data. */
  function RunPlain(ops: seq<Op>, buffer: Data): Plain {
    if ops == [] then
      Plain(buffer, [])
    else if IsHit(ops[0]) then
      RunPlain(ops[1..], buffer)
    else if ops[0].Read? then
      var rest := RunPlain(ops[1..], buffer);
      Plain(rest.buffer, [buffer] + rest.seen)
    else
      var inner := RunPlain(ops[0].body, []);
      var rest := RunPlain(ops[1..], Output(ops[0]));
      Plain(rest.buffer, inner.seen + rest.seen)
  }

  /** The EVM with the collector as inspector. */
  function RunInstrumented(ops: seq<Op>, buffer: Data, c: State): Instrumented {
    if ops == [] then
      Instrumented(buffer, c, [])
    else match ops[0]
      case Read =>
        var rest := RunInstrumented(ops[1..], buffer, c);
        rest.(seen := [buffer] + rest.seen)
      case Call(target, input, body, output) =>
        var (c1, outcome) := OnCall(c, target, input);
        if outcome.Some? then
          RunInstrumented(ops[1..], outcome.value, OnCallEnd(c1, target, outcome.value))
        else
          var inner := RunInstrumented(body, [], c1);
          var rest := RunInstrumented(ops[1..], output, OnCallEnd(inner.collector, target, output));
          rest.(seen := inner.seen + rest.seen)
      case Create(body, reverted, output) =>
        var inner := RunInstrumented(body, [], c);
        var rest := RunInstrumented(ops[1..], Output(ops[0]), OnCreateEnd(inner.collector, reverted, output));
        rest.(seen := inner.seen + rest.seen)
  }

  // ----- what the collector holds -----

  /** The return data of the call or create that ended last, whatever its frame. */
  function LastOutput(ops: seq<Op>, last: Data): Data {
    if ops == [] then last
    else if ops[0].Read? || IsHit(ops[0]) then LastOutput(ops[1..], last)
    else LastOutput(ops[1..], Output(ops[0]))
  }

  /** The payloads of all coverage calls, at every depth. */
  function Hits(ops: seq<Op>): set<Data> {
    if ops == [] then {}
    else (if ops[0].Read? then {} else if IsHit(ops[0]) then {ops[0].input} else Hits(ops[0].body)) + Hits(ops[1..])
  }

  lemma {:induction false} CollectorAfterRun(ops: seq<Op>, buffer: Data, c: State)
    ensures RunInstrumented(ops, buffer, c).collector == State(c.hits + Hits(ops), LastOutput(ops, c.previous))
  {
    if ops != [] {
      match ops[0]
      case Read => CollectorAfterRun(ops[1..], buffer, c);
      case Call(target, input, body, output) =>
        var (c1, outcome) := OnCall(c, target, input);
        if outcome.Some? {
          CollectorAfterRun(ops[1..], outcome.value, OnCallEnd(c1, target, outcome.value));
        } else {
          CollectorAfterRun(body, [], c1);
          var inner := RunInstrumented(body, [], c1);
          CollectorAfterRun(ops[1..], output, OnCallEnd(inner.collector, target, output));
        }
      case Create(body, reverted, output) =>
        CollectorAfterRun(body, [], c);
        var inner := RunInstrumented(body, [], c);
        CollectorAfterRun(ops[1..], Output(ops[0]), OnCreateEnd(inner.collector, reverted, output));
    }
  }

  // ----- transparency of one hit -----

  predicate IsSubcall(op: Op) {
    !op.Read? && !IsHit(op)
  }

  predicate HasSubcall(ops: seq<Op>) {
    ops != [] && (IsSubcall(ops[0]) || HasSubcall(ops[1..]))
  }

  predicate HasHit(ops: seq<Op>) {
    ops != [] && (IsHit(ops[0]) || HasHit(ops[1..]))
  }

  lemma {:induction false} LastOutputWithoutSubcall(ops: seq<Op>, last: Data)
    requires !HasSubcall(ops)
    ensures LastOutput(ops, last) == last
  {
    if ops != [] {
      LastOutputWithoutSubcall(ops[1..], last);
    }
  }

  /** A frame's buffer in both worlds, after any of its executions. */
  lemma {:induction false} BufferAfterRun(ops: seq<Op>, plain: Data, actual: Data, c: State)
    ensures RunPlain(ops, plain).buffer == if HasSubcall(ops) then LastOutput(ops, c.previous) else plain
    ensures RunInstrumented(ops, actual, c).buffer
         == if HasSubcall(ops) then LastOutput(ops, c.previous) else if HasHit(ops) then c.previous else actual
  {
    if ops != [] {
      if IsHit(ops[0]) {
        BufferAfterRun(ops[1..], plain, c.previous, OnCall(c, ops[0].target, ops[0].input).0);
      } else if ops[0].Read? {
        BufferAfterRun(ops[1..], plain, actual, c);
      } else {
        var output := Output(ops[0]);
        var inner := RunInstrumented(ops[0].body, [], c);
        BufferAfterRun(ops[1..], output, output, inner.collector.(previous := output));
        if !HasSubcall(ops[1..]) {
          LastOutputWithoutSubcall(ops[1..], output);
        }
      }
    }
  }

  lemma {:induction false} AppendHit(ops: seq<Op>, hit: Op, last: Data)
    requires IsHit(hit)
    ensures LastOutput(ops + [hit], last) == LastOutput(ops, last)
    ensures HasSubcall(ops + [hit]) == HasSubcall(ops) && HasHit(ops + [hit])
  {
    if ops == [] {
      assert (ops + [hit])[1..] == [];
    } else {
      assert (ops + [hit])[1..] == ops[1..] + [hit];
      AppendHit(ops[1..], hit, if IsSubcall(ops[0]) then Output(ops[0]) else last);
    }
  }

  /** A coverage call after any prefix of a frame's execution leaves the buffer as
      the original program has it exactly when the frame has completed a call or
      create of its own, or the last one completed elsewhere left no return data. */
  lemma HitIsTransparentIff(ops: seq<Op>, hit: Op, c: State)
    requires IsHit(hit)
    ensures RunInstrumented(ops + [hit], [], c).buffer == RunPlain(ops, []).buffer
       <==> HasSubcall(ops) || c.previous == []
  {
    BufferAfterRun(ops + [hit], [], [], c);
    BufferAfterRun(ops, [], [], c);
    AppendHit(ops, hit, c.previous);
  }

  // ----- transparency of whole executions -----

  /** Whether a frame inspects its buffer between its first coverage call and its
      first call or create. */
  predicate ReadsStale(ops: seq<Op>, afterHit: bool) {
    ops != [] && !IsSubcall(ops[0]) &&
    ((ops[0].Read? && afterHit) || ReadsStale(ops[1..], afterHit || IsHit(ops[0])))
  }

  /** No nested frame that starts while the last completed call or create left
      return data inspects its buffer in that window. */
  predicate Faithful(ops: seq<Op>, last: Data) {
    ops == [] ||
    (if IsSubcall(ops[0]) then
       && (last == [] || !ReadsStale(ops[0].body, false))
       && Faithful(ops[0].body, last)
       && Faithful(ops[1..], Output(ops[0]))
     else
       Faithful(ops[1..], last))
  }

  lemma {:induction false} SameNumberOfReads(ops: seq<Op>, plain: Data, actual: Data, c: State)
    ensures |RunInstrumented(ops, actual, c).seen| == |RunPlain(ops, plain).seen|
  {
    if ops != [] {
      if IsHit(ops[0]) {
        SameNumberOfReads(ops[1..], plain, c.previous, OnCall(c, ops[0].target, ops[0].input).0);
      } else if ops[0].Read? {
        SameNumberOfReads(ops[1..], plain, actual, c);
      } else {
        var output := Output(ops[0]);
        var inner := RunInstrumented(ops[0].body, [], c);
        SameNumberOfReads(ops[0].body, [], [], c);
        SameNumberOfReads(ops[1..], output, output, inner.collector.(previous := output));
      }
    }
  }

  lemma EqualBySplit(a: seq<Data>, b: seq<Data>, x: seq<Data>, y: seq<Data>)
    requires |a| == |x|
    ensures a + b == x + y <==> a == x && b == y
  {
    assert a == (a + b)[..|a|] && b == (a + b)[|a|..];
    assert x == (x + y)[..|x|] && y == (x + y)[|x|..];
  }

  /** Every frame sees what it would have seen without instrumentation if and only
      if no frame reads stale data. `plain` and `actual` are the frame's buffers in
      the two worlds: equal, or `plain` empty and `actual` the collector's. */
  lemma {:induction false} SeenTheSameIff(ops: seq<Op>, plain: Data, actual: Data, c: State)
    requires actual == plain == c.previous || (plain == [] && (actual == [] || actual == c.previous))
    ensures RunInstrumented(ops, actual, c).seen == RunPlain(ops, plain).seen
       <==> Faithful(ops, c.previous)
            && (plain == c.previous || !ReadsStale(ops, actual != plain))
  {
    if ops != [] {
      if IsHit(ops[0]) {
        SeenTheSameIff(ops[1..], plain, c.previous, OnCall(c, ops[0].target, ops[0].input).0);
      } else if ops[0].Read? {
        SeenTheSameIff(ops[1..], plain, actual, c);
        EqualBySplit([actual], RunInstrumented(ops[1..], actual, c).seen, [plain], RunPlain(ops[1..], plain).seen);
      } else {
        var output := Output(ops[0]);
        var inner := RunInstrumented(ops[0].body, [], c);
        var after := inner.collector.(previous := output);
        SeenTheSameIff(ops[0].body, [], [], c);
        SeenTheSameIff(ops[1..], output, output, after);
        SameNumberOfReads(ops[0].body, [], [], c);
        EqualBySplit(inner.seen, RunInstrumented(ops[1..], output, after).seen,
                     RunPlain(ops[0].body, []).seen, RunPlain(ops[1..], output).seen);
      }
    }
  }

  // ----- transactions -----

  /** One transaction: its outermost frame, as the single operation of the caller. */
  predicate IsTransaction(tx: Op) {
    !tx.Read?
  }

  /** The outermost frame never needs the exception: its own reads are stale in no
      transaction, because every transaction starts from a flushed collector. */
  lemma TransactionIsTransparentIff(tx: Op)
    requires IsTransaction(tx) && !IsHit(tx)
    ensures RunInstrumented([tx], [], FRESH).seen == RunPlain([tx], []).seen <==> Faithful(tx.body, [])
  {
    SeenTheSameIff([tx], [], [], FRESH);
    assert [tx][1..] == [];
  }

  /** Runs the transactions one after the other on one collector, flushing after
      each; returns the reported hits and what the frames saw, per transaction. */
  function RunBlock(txs: seq<Op>, c: State): (seq<set<Data>>, seq<seq<Data>>) {
    if txs == [] then
      ([], [])
    else
      var r := RunInstrumented([txs[0]], [], c);
      var (reports, seen) := RunBlock(txs[1..], FRESH);
      ([r.collector.hits] + reports, [r.seen] + seen)
  }

  /** Each flush reports exactly its own transaction's hits, and no transaction is
      affected by an earlier one. */
  lemma {:induction false} FlushesReportOwnHits(txs: seq<Op>)
    ensures var (reports, seen) := RunBlock(txs, FRESH);
            && |reports| == |seen| == |txs|
            && forall i :: 0 <= i < |txs| ==>
                 && reports[i] == Hits([txs[i]])
                 && seen[i] == RunInstrumented([txs[i]], [], FRESH).seen
  {
    if txs != [] {
      FlushesReportOwnHits(txs[1..]);
      CollectorAfterRun([txs[0]], [], FRESH);
    }
  }

  /** The exception is real: a caller that has received return data calls a
      contract which, before any call of its own, is hit and then looks at its
      (in truth empty) return data. */
  lemma StaleReadExample()
    ensures var hit := Call(COVERAGE_ADDRESS, [1], [], []);
            var callee := Call([], [], [hit, Read], []);
            var tx := Call([], [], [Call([], [], [], [7]), callee], []);
            && RunPlain([tx], []).seen == [[]]
            && RunInstrumented([tx], [], FRESH).seen == [[7]]
  {
    var hit := Call(COVERAGE_ADDRESS, [1], [], []);
    var callee := Call([], [], [hit, Read], []);
    var first := Call([], [], [], [7]);
    var tx := Call([], [], [first, callee], []);
    assert [hit, Read][1..] == [Read] && [Read][1..] == [];
    assert [first, callee][1..] == [callee] && [callee][1..] == [] && [tx][1..] == [];
    assert RunPlain([Read], []).seen == [[]];
    assert RunPlain([hit, Read], []).seen == [[]];
    assert RunPlain([callee], [7]).seen == [[]];
    assert RunPlain([first, callee], []).seen == [[]];
    var c := State({}, [7]);
    assert c.hits + {[1]} == {[1]};
    assert RunInstrumented([Read], [7], State({[1]}, [7])).seen == [[7]];
    assert RunInstrumented([hit, Read], [], c).seen == [[7]];
    assert RunInstrumented([callee], [7], c).seen == [[7]];
    assert RunInstrumented([], [], FRESH) == Instrumented([], FRESH, []);
    assert RunInstrumented([first, callee], [], FRESH).seen == [[7]];
  }

  /** What creates leave: a revert its output, a success nothing, and a hit after either
      replays exactly that. */
  lemma CreateExample()
    ensures var hit := Call(COVERAGE_ADDRESS, [1], [], []);
            var tx := Call([], [], [Create([], true, [7]), hit, Read, Create([], false, [8]), hit, Read], []);
            && RunPlain([tx], []).seen == [[7], []]
            && RunInstrumented([tx], [], FRESH).seen == [[7], []]
  {
    var hit := Call(COVERAGE_ADDRESS, [1], [], []);
    var reverted, created := Create([], true, [7]), Create([], false, [8]);
    var ops := [reverted, hit, Read, created, hit, Read];
    var tx := Call([], [], ops, []);
    assert [tx][1..] == [] && [hit, Read][1..] == [Read] && [Read][1..] == [];
    assert ops[1..] == [hit, Read, created, hit, Read] && ops[1..][1..] == [Read, created, hit, Read];
    assert [Read, created, hit, Read][1..] == [created, hit, Read] && [created, hit, Read][1..] == [hit, Read];
    assert RunPlain([hit, Read], []).seen == [[]];
    assert RunPlain([created, hit, Read], [7]).seen == [[]];
    assert RunPlain([Read, created, hit, Read], [7]).seen == [[7], []];
    assert RunPlain(ops, []).seen == [[7], []];
    assert Faithful([hit, Read], []) && Faithful([created, hit, Read], [7]);
    assert Faithful([Read, created, hit, Read], [7]) && Faithful(ops[1..], [7]);
    TransactionIsTransparentIff(tx);
  }
}
