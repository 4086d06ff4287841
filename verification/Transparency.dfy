/**
  * The two sides of coverage together: instrumented function bodies that call each other,
  * with the hit calls of all frames answered by one collector. A frame sees the return data
  * of its last call in a buffer; a hit overwrites that buffer with what the collector
  * replays, which is the output of the call that ended last in any frame.
  */
module Transparency {
  import opened Prelude
  import opened Meaning
  import C = Collector

  /** `called` tells whether the frame has completed a call of its own. */
  datatype Frame<S> = Frame(state: S, buffer: C.Data, called: bool)

  /** A frame under the collector. */
  datatype Live<S> = Live(frame: Frame<S>, collector: C.State)

  /** What a call hands back to its caller: the caller's state, the return data, and how the
      caller goes on. */
  datatype Return<S, R> = Return(state: S, output: C.Data, result: R)

  /** What an operation of a frame does: something of its own, or a call (or create) that runs
      `body` in a frame of its own, from `entry` and with its statements numbered from
      `first`, and comes back as `leave` says. */
  datatype Deed<!S, R> =
    | Local(state: S, result: R)
    | Invoke(entry: S, body: seq<Code>, first: nat, leave: (S, Signal) -> Return<S, R>)

  /** What statements, conditions, initialisations and updates do; they may look at the
      frame's buffer. */
  datatype Program<!S> = Program(
    step: (string, Frame<S>) -> Deed<S, Signal>,
    test: (string, Frame<S>) -> Deed<S, Verdict>,
    init: (string, Frame<S>) -> Deed<S, Signal>,
    update: (string, Frame<S>) -> Deed<S, Signal>)

  /** Programs call functions that are not instrumented yet. */
  ghost predicate PlainDeed<S, R>(d: Deed<S, R>) {
    d.Invoke? ==> PlainAll(d.body)
  }

  ghost predicate PlainProgram<S(!new)>(p: Program<S>) {
    && (forall text, f :: PlainDeed(p.step(text, f)))
    && (forall text, f :: PlainDeed(p.test(text, f)))
    && (forall text, f :: PlainDeed(p.init(text, f)))
    && (forall text, f :: PlainDeed(p.update(text, f)))
  }

  // ----- without the collector -----

  /** A callee that cannot be run, at the limit of the call depth, fails at once. */
  function PlainCallee<S>(below: Option<Machine<Frame<S>>>, entry: S, body: seq<Code>, fuel: nat): (S, Signal) {
    match below
    case None => (entry, Exit)
    case Some(m) =>
      var o := RunAll(m, body, Frame(entry, [], false), fuel);
      (o.state.state, o.signal)
  }

  function PlainDo<S, R>(below: Option<Machine<Frame<S>>>, fuel: nat, f: Frame<S>, d: Deed<S, R>): (Frame<S>, R) {
    match d
    case Local(x, result) => (f.(state := x), result)
    case Invoke(entry, body, _, leave) =>
      var (x, signal) := PlainCallee(below, entry, body, fuel);
      var r := leave(x, signal);
      (Frame(r.state, r.output, true), r.result)
  }

  /** Frames that run `p`, above frames that run on `below`. */
  function PlainOver<S>(p: Program<S>, below: Option<Machine<Frame<S>>>, fuel: nat): Machine<Frame<S>> {
    Machine((text, f) => PlainDo(below, fuel, f, p.step(text, f)),
            (text, f) => PlainDo(below, fuel, f, p.test(text, f)),
            (text, f) => PlainDo(below, fuel, f, p.init(text, f)),
            (text, f) => PlainDo(below, fuel, f, p.update(text, f)),
            (k, f) => f)
  }

  /** `p` in all frames, up to a call depth. */
  function PlainMachine<S>(p: Program<S>, depth: nat, fuel: nat): Machine<Frame<S>> {
    PlainOver(p, if depth == 0 then None else Some(PlainMachine(p, depth - 1, fuel)), fuel)
  }

  // ----- under the collector -----

  /** The callee's frame starts with an empty buffer and with the caller's collector. */
  function LiveCallee<S>(below: Option<Machine<Live<S>>>, c: C.State, entry: S, body: seq<Code>, first: nat, fuel: nat)
    : (S, Signal, C.State)
  {
    match below
    case None => (entry, Exit, c)
    case Some(m) =>
      var r := RunAll(m, MarkAll(body, first), Live(Frame(entry, [], false), c), fuel);
      (r.state.frame.state, r.signal, r.state.collector)
  }

  /** When a call or create ends, the collector keeps what the caller's buffer receives. The
      empty address stands for any but the coverage address. */
  function LiveDo<S, R>(below: Option<Machine<Live<S>>>, fuel: nat, t: Live<S>, d: Deed<S, R>): (Live<S>, R) {
    match d
    case Local(x, result) => (t.(frame := t.frame.(state := x)), result)
    case Invoke(entry, body, first, leave) =>
      var (x, signal, c) := LiveCallee(below, t.collector, entry, body, first, fuel);
      var r := leave(x, signal);
      (Live(Frame(r.state, r.output, true), C.OnCallEnd(c, [], r.output)), r.result)
  }

  /** A hit is a call to the coverage address, answered by the collector. */
  function Hit<S>(tagOf: nat -> C.Data, k: nat, t: Live<S>): Live<S> {
    var (c, answer) := C.OnCall(t.collector, C.COVERAGE_ADDRESS, tagOf(k));
    Live(t.frame.(buffer := answer.value), C.OnCallEnd(c, C.COVERAGE_ADDRESS, answer.value))
  }

  function LiveOver<S>(p: Program<S>, tagOf: nat -> C.Data, below: Option<Machine<Live<S>>>, fuel: nat)
    : Machine<Live<S>>
  {
    Machine((text, t: Live<S>) => LiveDo(below, fuel, t, p.step(text, t.frame)),
            (text, t: Live<S>) => LiveDo(below, fuel, t, p.test(text, t.frame)),
            (text, t: Live<S>) => LiveDo(below, fuel, t, p.init(text, t.frame)),
            (text, t: Live<S>) => LiveDo(below, fuel, t, p.update(text, t.frame)),
            (k, t) => Hit(tagOf, k, t))
  }

  function LiveMachine<S>(p: Program<S>, tagOf: nat -> C.Data, depth: nat, fuel: nat): Machine<Live<S>> {
    LiveOver(p, tagOf, if depth == 0 then None else Some(LiveMachine(p, tagOf, depth - 1, fuel)), fuel)
  }

  // ----- in step -----

  /** A frame under the collector and the frame without: the same state, and either the same
      buffer, which the collector would replay, or, before the frame's first call, an empty
      buffer that a hit may have overwritten with what another frame left. */
  predicate InStep<S(==)>(t: Live<S>, f: Frame<S>) {
    && t.frame.state == f.state && t.frame.called == f.called
    && (t.frame.buffer == f.buffer == t.collector.previous
        || (!f.called && f.buffer == [] && t.frame.buffer in [[], t.collector.previous]))
  }

  /** The same frame, with the buffer the collector would replay. */
  predicate InSync<S(==)>(t: Live<S>, f: Frame<S>) {
    t.frame == f && t.collector.previous == f.buffer
  }

  /** Before its first call, no operation of a frame can tell an empty buffer from any data. */
  ghost predicate Blind<S(!new)>(p: Program<S>) {
    && (forall text, x, data :: p.step(text, Frame(x, data, false)) == p.step(text, Frame(x, [], false)))
    && (forall text, x, data :: p.test(text, Frame(x, data, false)) == p.test(text, Frame(x, [], false)))
    && (forall text, x, data :: p.init(text, Frame(x, data, false)) == p.init(text, Frame(x, [], false)))
    && (forall text, x, data :: p.update(text, Frame(x, data, false)) == p.update(text, Frame(x, [], false)))
  }

  /** The program whose operations are shown an empty buffer until the frame's first call. */
  function Guarded<S>(p: Program<S>): Program<S> {
    Program((text, f: Frame<S>) => p.step(text, if f.called then f else f.(buffer := [])),
            (text, f: Frame<S>) => p.test(text, if f.called then f else f.(buffer := [])),
            (text, f: Frame<S>) => p.init(text, if f.called then f else f.(buffer := [])),
            (text, f: Frame<S>) => p.update(text, if f.called then f else f.(buffer := [])))
  }

  /** A guarded program is blind, whatever it does, and a program is blind exactly if guarding
      it changes none of its operations. */
  lemma BlindIffGuarded<S(!new)>(p: Program<S>)
    ensures Blind(Guarded(p))
    ensures Blind(p) <==>
            && (forall text, f :: p.step(text, f) == Guarded(p).step(text, f))
            && (forall text, f :: p.test(text, f) == Guarded(p).test(text, f))
            && (forall text, f :: p.init(text, f) == Guarded(p).init(text, f))
            && (forall text, f :: p.update(text, f) == Guarded(p).update(text, f))
  {
    var g := Guarded(p);
    if Blind(p) {
      forall text, f
        ensures p.step(text, f) == g.step(text, f) && p.test(text, f) == g.test(text, f)
        ensures p.init(text, f) == g.init(text, f) && p.update(text, f) == g.update(text, f)
      {
        assert !f.called ==> f == Frame(f.state, f.buffer, false);
      }
    }
  }

  /** The frames below, if there are any, are in step. */
  ghost predicate BelowInStep<S(!new)>(live: Option<Machine<Live<S>>>, plain: Option<Machine<Frame<S>>>) {
    live.Some? == plain.Some? && (live.Some? ==> Simulates(live.value, plain.value, InStep))
  }

  lemma CalleeAgrees<S(!new)>(live: Option<Machine<Live<S>>>, plain: Option<Machine<Frame<S>>>, c: C.State, entry: S,
                              body: seq<Code>, first: nat, fuel: nat)
    requires BelowInStep(live, plain) && PlainAll(body)
    ensures var r := LiveCallee(live, c, entry, body, first, fuel);
            (r.0, r.1) == PlainCallee(plain, entry, body, fuel)
  {
    if live.Some? {
      hide RunAll, MarkAll, Simulates, PlainAll;
      InstrumentationSimulates(live.value, plain.value, InStep, body, first, Live(Frame(entry, [], false), c),
                               Frame(entry, [], false), fuel);
    }
  }

  /** Whatever a frame does, it stays in step and in sync: a call brings it in sync. */
  lemma DeedAgrees<S(!new), R>(live: Option<Machine<Live<S>>>, plain: Option<Machine<Frame<S>>>, fuel: nat, t: Live<S>,
                               f: Frame<S>, d: Deed<S, R>)
    requires BelowInStep(live, plain) && PlainDeed(d)
    ensures LiveDo(live, fuel, t, d).1 == PlainDo(plain, fuel, f, d).1
    ensures InStep(t, f) ==> InStep(LiveDo(live, fuel, t, d).0, PlainDo(plain, fuel, f, d).0)
    ensures InSync(t, f) ==> InSync(LiveDo(live, fuel, t, d).0, PlainDo(plain, fuel, f, d).0)
  {
    if d.Invoke? {
      hide BelowInStep, LiveCallee, PlainCallee, PlainAll;
      CalleeAgrees(live, plain, t.collector, d.entry, d.body, d.first, fuel);
    }
  }

  lemma HitAgrees<S>(tagOf: nat -> C.Data, k: nat, t: Live<S>, f: Frame<S>)
    ensures InStep(t, f) ==> InStep(Hit(tagOf, k, t), f)
    ensures InSync(t, f) ==> InSync(Hit(tagOf, k, t), f)
  {
  }

  lemma SameOrUncalled<S>(t: Live<S>, f: Frame<S>)
    requires InStep(t, f)
    ensures t.frame == f || (f == Frame(f.state, [], false) && t.frame == Frame(f.state, t.frame.buffer, false))
  {
  }

  /** One level of frames: blind ones stay in step. */
  lemma BlindFramesSimulate<S(!new)>(p: Program<S>, tagOf: nat -> C.Data, live: Option<Machine<Live<S>>>,
                                     plain: Option<Machine<Frame<S>>>, fuel: nat)
    requires BelowInStep(live, plain) && PlainProgram(p) && Blind(p)
    ensures Simulates(LiveOver(p, tagOf, live, fuel), PlainOver(p, plain, fuel), InStep)
  {
    hide BelowInStep, LiveDo, PlainDo, Hit, InStep, PlainDeed;
    var l, m := LiveOver(p, tagOf, live, fuel), PlainOver(p, plain, fuel);
    forall text, t: Live<S>, f: Frame<S> | InStep(t, f)
      ensures InStep(l.step(text, t).0, m.step(text, f).0) && l.step(text, t).1 == m.step(text, f).1
    {
      SameOrUncalled(t, f);
      DeedAgrees(live, plain, fuel, t, f, p.step(text, f));
    }
    forall text, t: Live<S>, f: Frame<S> | InStep(t, f)
      ensures InStep(l.test(text, t).0, m.test(text, f).0) && l.test(text, t).1 == m.test(text, f).1
    {
      SameOrUncalled(t, f);
      DeedAgrees(live, plain, fuel, t, f, p.test(text, f));
    }
    forall text, t: Live<S>, f: Frame<S> | InStep(t, f)
      ensures InStep(l.init(text, t).0, m.init(text, f).0) && l.init(text, t).1 == m.init(text, f).1
    {
      SameOrUncalled(t, f);
      DeedAgrees(live, plain, fuel, t, f, p.init(text, f));
    }
    forall text, t: Live<S>, f: Frame<S> | InStep(t, f)
      ensures InStep(l.update(text, t).0, m.update(text, f).0) && l.update(text, t).1 == m.update(text, f).1
    {
      SameOrUncalled(t, f);
      DeedAgrees(live, plain, fuel, t, f, p.update(text, f));
    }
    forall k, t: Live<S>, f: Frame<S> | InStep(t, f)
      ensures InStep(l.hit(k, t), f)
    {
      HitAgrees(tagOf, k, t, f);
    }
  }

  /** One level of frames: any that are in sync stay in sync. */
  lemma SyncedFramesSimulate<S(!new)>(p: Program<S>, tagOf: nat -> C.Data, live: Option<Machine<Live<S>>>,
                                      plain: Option<Machine<Frame<S>>>, fuel: nat)
    requires BelowInStep(live, plain) && PlainProgram(p)
    ensures Simulates(LiveOver(p, tagOf, live, fuel), PlainOver(p, plain, fuel), InSync)
  {
    hide BelowInStep, LiveDo, PlainDo, Hit, PlainDeed;
    var l, m := LiveOver(p, tagOf, live, fuel), PlainOver(p, plain, fuel);
    forall text, t: Live<S>, f: Frame<S> | InSync(t, f)
      ensures InSync(l.step(text, t).0, m.step(text, f).0) && l.step(text, t).1 == m.step(text, f).1
    {
      DeedAgrees(live, plain, fuel, t, f, p.step(text, f));
    }
    forall text, t: Live<S>, f: Frame<S> | InSync(t, f)
      ensures InSync(l.test(text, t).0, m.test(text, f).0) && l.test(text, t).1 == m.test(text, f).1
    {
      DeedAgrees(live, plain, fuel, t, f, p.test(text, f));
    }
    forall text, t: Live<S>, f: Frame<S> | InSync(t, f)
      ensures InSync(l.init(text, t).0, m.init(text, f).0) && l.init(text, t).1 == m.init(text, f).1
    {
      DeedAgrees(live, plain, fuel, t, f, p.init(text, f));
    }
    forall text, t: Live<S>, f: Frame<S> | InSync(t, f)
      ensures InSync(l.update(text, t).0, m.update(text, f).0) && l.update(text, t).1 == m.update(text, f).1
    {
      DeedAgrees(live, plain, fuel, t, f, p.update(text, f));
    }
    forall k, t: Live<S>, f: Frame<S> | InSync(t, f)
      ensures InSync(l.hit(k, t), f)
    {
      HitAgrees(tagOf, k, t, f);
    }
  }

  /** Calls to any depth: instrumented frames of a blind program, all under one collector,
      stay in step with the frames of the original. */
  lemma {:induction false} CallsSimulate<S(!new)>(p: Program<S>, tagOf: nat -> C.Data, depth: nat, fuel: nat)
    requires PlainProgram(p) && Blind(p)
    ensures Simulates(LiveMachine(p, tagOf, depth, fuel), PlainMachine(p, depth, fuel), InStep)
    decreases depth
  {
    hide PlainProgram, Blind, Simulates, LiveOver, PlainOver, InStep;
    if depth == 0 {
      BlindFramesSimulate(p, tagOf, None, None, fuel);
    } else {
      CallsSimulate(p, tagOf, depth - 1, fuel);
      BlindFramesSimulate(p, tagOf, Some(LiveMachine(p, tagOf, depth - 1, fuel)),
                          Some(PlainMachine(p, depth - 1, fuel)), fuel);
    }
  }

  // ----- what it means -----

  /** A frame of a blind program, with everything it calls, entered while the collector holds
      anything at all: the same state and control flow as without instrumentation, and a hit
      per statement the original starts, in order. */
  lemma InstrumentedFrameIsTransparent<S(!new)>(p: Program<S>, tagOf: nat -> C.Data, depth: nat, c: C.State,
                                                body: seq<Code>, k: nat, x: S, fuel: nat)
    requires PlainProgram(p) && Blind(p) && PlainAll(body)
    ensures var entry := Frame(x, [], false);
            var r := RunAll(LiveMachine(p, tagOf, depth, fuel), MarkAll(body, k), Live(entry, c), fuel);
            var o := RunAll(PlainMachine(p, depth, fuel), body, entry, fuel);
            && r.state.frame.state == o.state.state && r.signal == o.signal
            && r.trace == WatchAll(PlainMachine(p, depth, fuel), body, k, entry, fuel).trace
  {
    CallsSimulate(p, tagOf, depth, fuel);
    hide RunAll, WatchAll, MarkAll, Simulates, PlainAll, LiveMachine, PlainMachine;
    InstrumentationSimulates(LiveMachine(p, tagOf, depth, fuel), PlainMachine(p, depth, fuel), InStep, body, k,
                             Live(Frame(x, [], false), c), Frame(x, [], false), fuel);
  }

  /** The outermost frame of a transaction, entered with a flushed collector, may look at its
      buffer at any time: only the frames below it have to be blind before their first call.
      Its buffer is then the original's as well. */
  lemma OutermostFrameIsTransparent<S(!new)>(outer: Program<S>, p: Program<S>, tagOf: nat -> C.Data, depth: nat,
                                             body: seq<Code>, k: nat, x: S, fuel: nat)
    requires PlainProgram(outer) && PlainProgram(p) && Blind(p) && PlainAll(body)
    ensures var entry := Frame(x, [], false);
            var live := LiveOver(outer, tagOf, Some(LiveMachine(p, tagOf, depth, fuel)), fuel);
            var plain := PlainOver(outer, Some(PlainMachine(p, depth, fuel)), fuel);
            var r := RunAll(live, MarkAll(body, k), Live(entry, C.FRESH), fuel);
            var o := RunAll(plain, body, entry, fuel);
            && r.state.frame == o.state && r.signal == o.signal
            && r.trace == WatchAll(plain, body, k, entry, fuel).trace
  {
    CallsSimulate(p, tagOf, depth, fuel);
    var live, plain := Some(LiveMachine(p, tagOf, depth, fuel)), Some(PlainMachine(p, depth, fuel));
    SyncedFramesSimulate(outer, tagOf, live, plain, fuel);
    hide RunAll, WatchAll, MarkAll, Simulates, PlainAll, LiveMachine, PlainMachine, LiveOver, PlainOver;
    InstrumentationSimulates(LiveOver(outer, tagOf, live, fuel), PlainOver(outer, plain, fuel), InSync, body, k,
                             Live(Frame(x, [], false), C.FRESH), Frame(x, [], false), fuel);
  }

  // ----- why frames below have to be blind -----

  /** A function entered while the collector holds `data` behaves differently once it is
      instrumented, whatever has been hit before. */
  ghost predicate Differs<S(!new)>(p: Program<S>, tagOf: nat -> C.Data, depth: nat, data: C.Data, body: seq<Code>, x: S,
                                   fuel: nat) {
    var live, plain := Some(LiveMachine(p, tagOf, depth, fuel)), Some(PlainMachine(p, depth, fuel));
    forall hits ::
      var r := LiveCallee(live, C.State(hits, data), x, body, 0, fuel);
      (r.0, r.1) != PlainCallee(plain, x, body, fuel)
  }

  lemma RunSingle<T>(m: Machine<T>, s: Code, t: T, fuel: nat)
    ensures RunAll(m, [], t, fuel) == Outcome(t, Normal, [])
    ensures RunAll(m, [s], t, fuel) == Run(m, s, t, fuel)
  {
    assert [s][1..] == [];
    var r := Run(m, s, t, fuel);
    assert RunAll(m, [], r.state, fuel) == Outcome(r.state, Normal, []);
  }

  /** Running a body of one statement, after its hit. */
  lemma OneStatement<S>(p: Program<S>, tagOf: nat -> C.Data, depth: nat, c: C.State, s: Code, x: S, fuel: nat)
    ensures var m := LiveMachine(p, tagOf, depth, fuel);
            var r := Run(m, MarkInside(s, 1), Live(Frame(x, c.previous, false), c.(hits := c.hits + {tagOf(0)})), fuel);
            LiveCallee(Some(m), c, x, [s], 0, fuel) == (r.state.frame.state, r.signal, r.state.collector)
    ensures var m := PlainMachine(p, depth, fuel);
            var o := Run(m, s, Frame(x, [], false), fuel);
            PlainCallee(Some(m), x, [s], fuel) == (o.state.state, o.signal)
  {
    assert [s][1..] == [] && MarkAll([s], 0) == Mark(s, 0) + [] == Mark(s, 0);
    RunMark(LiveMachine(p, tagOf, depth, fuel), s, 0, Live(Frame(x, [], false), c), fuel);
    RunSingle(PlainMachine(p, depth, fuel), s, Frame(x, [], false), fuel);
  }

  /** What a statement does may depend on it. */
  lemma StaleStatementIsSeen<S(!new)>(p: Program<S>, tagOf: nat -> C.Data, depth: nat, data: C.Data, text: string, x: S,
                                      fuel: nat)
    requires var clean, stale := p.step(text, Frame(x, [], false)), p.step(text, Frame(x, data, false));
             clean.Local? && stale.Local? && clean != stale
    ensures Differs(p, tagOf, depth, data, [Simple(text)], x, fuel)
  {
    hide LiveCallee, PlainCallee;
    forall hits {
      OneStatement(p, tagOf, depth, C.State(hits, data), Simple(text), x, fuel);
    }
  }

  /** So may a condition: in a loop that is left after one round, every verdict shows. */
  lemma StaleConditionIsSeen<S(!new)>(p: Program<S>, tagOf: nat -> C.Data, depth: nat, data: C.Data, text: string, x: S)
    requires var clean, stale := p.test(text, Frame(x, [], false)), p.test(text, Frame(x, data, false));
             clean.Local? && stale.Local? && clean != stale
    ensures Differs(p, tagOf, depth, data, [While(text, Sequence("", [], ""))], x, 1)
  {
    hide LiveCallee, PlainCallee;
    var s := While(text, Sequence("", [], ""));
    forall hits
      ensures var live, plain := Some(LiveMachine(p, tagOf, depth, 1)), Some(PlainMachine(p, depth, 1));
              var r := LiveCallee(live, C.State(hits, data), x, [s], 0, 1);
              (r.0, r.1) != PlainCallee(plain, x, [s], 1)
    {
      var c := C.State(hits, data);
      OneStatement(p, tagOf, depth, c, s, x, 1);
      OneRoundLive(p, tagOf, depth, text, Live(Frame(x, data, false), c.(hits := hits + {tagOf(0)})));
      OneRoundPlain(p, depth, text, Frame(x, [], false));
    }
  }

  function AfterOneRound(verdict: Verdict): Signal {
    match verdict
    case Holds => OutOfFuel
    case Fails => Normal
    case Throws => Exit
  }

  lemma OneRoundLive<S>(p: Program<S>, tagOf: nat -> C.Data, depth: nat, text: string, t: Live<S>)
    requires p.test(text, t.frame).Local?
    ensures var r := Run(LiveMachine(p, tagOf, depth, 1), MarkInside(While(text, Sequence("", [], "")), 1), t, 1);
            var d := p.test(text, t.frame);
            r.state.frame.state == d.state && r.signal == AfterOneRound(d.result)
  {
    var m := LiveMachine(p, tagOf, depth, 1);
    var t' := m.test(text, t).0;
    EmptyBlockIsHit(m, 1, t', 1);
  }

  lemma OneRoundPlain<S>(p: Program<S>, depth: nat, text: string, f: Frame<S>)
    requires p.test(text, f).Local?
    ensures var o := Run(PlainMachine(p, depth, 1), While(text, Sequence("", [], "")), f, 1);
            var d := p.test(text, f);
            o.state.state == d.state && o.signal == AfterOneRound(d.result)
  {
  }

  /** The marked form of an empty block does nothing but its hit. */
  lemma EmptyBlockIsHit<T>(m: Machine<T>, k: nat, t: T, fuel: nat)
    ensures Run(m, Brace(Sequence("", [], ""), k), t, fuel) == Outcome(m.hit(k, t), Normal, [k])
  {
    RunMark(m, Sequence("", [], ""), k, t, fuel);
    assert MarkInside(Sequence("", [], ""), k + 1) == Sequence("", [], "");
  }

  /** So may an initialisation: in a loop that is never tested, its state shows, and whether
      it succeeds. */
  lemma StaleInitialisationIsSeen<S(!new)>(p: Program<S>, tagOf: nat -> C.Data, depth: nat, data: C.Data, text: string,
                                           x: S)
    requires var clean, stale := p.init(text, Frame(x, [], false)), p.init(text, Frame(x, data, false));
             clean.Local? && stale.Local?
             && (clean.state != stale.state || clean.result.Normal? != stale.result.Normal?)
    ensures Differs(p, tagOf, depth, data, [For(text, Sequence("", [], ""))], x, 0)
  {
    hide LiveCallee, PlainCallee;
    var s := For(text, Sequence("", [], ""));
    forall hits
      ensures var live, plain := Some(LiveMachine(p, tagOf, depth, 0)), Some(PlainMachine(p, depth, 0));
              var r := LiveCallee(live, C.State(hits, data), x, [s], 0, 0);
              (r.0, r.1) != PlainCallee(plain, x, [s], 0)
    {
      var c := C.State(hits, data);
      OneStatement(p, tagOf, depth, c, s, x, 0);
      var t := Live(Frame(x, data, false), c.(hits := hits + {tagOf(0)}));
      var m := LiveMachine(p, tagOf, depth, 0);
      assert m.init(text, t).0.frame.state == p.init(text, t.frame).state;
      assert MarkInside(s, 1) == For(text, Brace(Sequence("", [], ""), 1));
    }
  }

  /** So may an update, where a first round of its loop gets to it. */
  lemma StaleUpdateIsSeen<S(!new)>(p: Program<S>, tagOf: nat -> C.Data, depth: nat, data: C.Data, text: string, x: S)
    requires forall b | b in [[], data] ::
               p.init(text, Frame(x, b, false)) == Local(x, Normal)
               && p.test(text, Frame(x, b, false)) == Local(x, Holds)
    requires var clean, stale := p.update(text, Frame(x, [], false)), p.update(text, Frame(x, data, false));
             clean.Local? && stale.Local?
             && (clean.state != stale.state || clean.result.Normal? != stale.result.Normal?)
    ensures Differs(p, tagOf, depth, data, [For(text, Sequence("", [], ""))], x, 1)
  {
    hide LiveCallee, PlainCallee;
    var s := For(text, Sequence("", [], ""));
    forall hits
      ensures var live, plain := Some(LiveMachine(p, tagOf, depth, 1)), Some(PlainMachine(p, depth, 1));
              var r := LiveCallee(live, C.State(hits, data), x, [s], 0, 1);
              (r.0, r.1) != PlainCallee(plain, x, [s], 1)
    {
      var c := C.State(hits, data);
      var m := LiveMachine(p, tagOf, depth, 1);
      OneStatement(p, tagOf, depth, c, s, x, 1);
      EmptyBlockIsHit(m, 1, Live(Frame(x, data, false), c.(hits := hits + {tagOf(0)})), 1);
    }
  }

  /** An outermost program of two calls: "call" returns `data`, and any other statement runs
      `body` from `x` and passes on how it ends. */
  function TwoCalls<S>(x: S, body: seq<Code>, data: C.Data): Program<S> {
    Program((text, f: Frame<S>) => if text == "call" then Invoke(x, [], 0, (y, signal) => Return(y, data, Normal))
                         else Invoke(x, body, 0, (y, signal) => Return(y, [], signal)),
            (text, f: Frame<S>) => Local(f.state, Fails),
            (text, f: Frame<S>) => Local(f.state, Normal),
            (text, f: Frame<S>) => Local(f.state, Normal))
  }

  /** Such a function changes whole transactions: where its caller has received `data` just
      before it calls it, the instrumented transaction ends otherwise than the original,
      although its outermost frame never looks at its buffer. */
  lemma NestedDifferenceIsSeen<S(!new)>(p: Program<S>, tagOf: nat -> C.Data, depth: nat, data: C.Data,
                                        callee: seq<Code>, x: S, k: nat, fuel: nat)
    requires Differs(p, tagOf, depth, data, callee, x, fuel)
    ensures var outer := TwoCalls(x, callee, data);
            var body := [Simple("call"), Simple("then")];
            var live := LiveOver(outer, tagOf, Some(LiveMachine(p, tagOf, depth, fuel)), fuel);
            var plain := PlainOver(outer, Some(PlainMachine(p, depth, fuel)), fuel);
            var r := RunAll(live, MarkAll(body, k), Live(Frame(x, [], false), C.FRESH), fuel);
            var o := RunAll(plain, body, Frame(x, [], false), fuel);
            (r.state.frame.state, r.signal) != (o.state.state, o.signal)
  {
    TwoCallsPlain(PlainMachine(p, depth, fuel), x, callee, data, fuel);
    TwoCallsLive(LiveMachine(p, tagOf, depth, fuel), tagOf, x, callee, data, k, fuel);
  }

  lemma TwoCallsPlain<S>(m: Machine<Frame<S>>, x: S, callee: seq<Code>, data: C.Data, fuel: nat)
    ensures var plain := PlainOver(TwoCalls(x, callee, data), Some(m), fuel);
            var o := RunAll(plain, [Simple("call"), Simple("then")], Frame(x, [], false), fuel);
            (o.state.state, o.signal) == PlainCallee(Some(m), x, callee, fuel)
  {
    var plain := PlainOver(TwoCalls(x, callee, data), Some(m), fuel);
    var a, b := Simple("call"), Simple("then");
    var f, g := Frame(x, [], false), Frame(x, data, true);
    RunSingle(m, a, f, fuel);
    PlainCalls(m, x, callee, data, fuel, f);
    PlainCalls(m, x, callee, data, fuel, g);
    hide PlainOver, PlainCallee;
    assert Run(plain, a, f, fuel) == Outcome(g, Normal, []);
    assert [a, b][1..] == [b];
    RunSingle(plain, b, g, fuel);
  }

  /** The two kinds of calls of `TwoCalls`, without the collector. */
  lemma PlainCalls<S>(m: Machine<Frame<S>>, x: S, callee: seq<Code>, data: C.Data, fuel: nat, f: Frame<S>)
    requires RunAll(m, [], Frame(x, [], false), fuel) == Outcome(Frame(x, [], false), Normal, [])
    ensures var plain := PlainOver(TwoCalls(x, callee, data), Some(m), fuel);
            && plain.step("call", f) == (Frame(x, data, true), Normal)
            && plain.step("then", f).0.state == PlainCallee(Some(m), x, callee, fuel).0
            && plain.step("then", f).1 == PlainCallee(Some(m), x, callee, fuel).1
  {
    var outer := TwoCalls(x, callee, data);
    assert "then"[0] != "call"[0];
    var call, other := outer.step("call", f), outer.step("then", f);
    assert call.Invoke? && call.body == [] && other.Invoke? && other.body == callee;
    assert PlainCallee(Some(m), x, [], fuel) == (x, Normal);
  }

  lemma TwoCallsLive<S>(l: Machine<Live<S>>, tagOf: nat -> C.Data, x: S, callee: seq<Code>, data: C.Data, k: nat,
                        fuel: nat)
    ensures var live := LiveOver(TwoCalls(x, callee, data), tagOf, Some(l), fuel);
            var r := RunAll(live, MarkAll([Simple("call"), Simple("then")], k), Live(Frame(x, [], false), C.FRESH),
                            fuel);
            var s := LiveCallee(Some(l), C.State({tagOf(k)} + {tagOf(k + 1)}, data), x, callee, 0, fuel);
            (r.state.frame.state, r.signal) == (s.0, s.1)
  {
    var live := LiveOver(TwoCalls(x, callee, data), tagOf, Some(l), fuel);
    var a, b := Simple("call"), Simple("then");
    var entry := Live(Frame(x, [], false), C.FRESH);
    assert [a, b][1..] == [b] && [b][1..] == [] && Mark(b, k + 1) + [] == Mark(b, k + 1);
    assert MarkAll([b], k + 1) == Mark(b, k + 1);
    assert MarkAll([a, b], k) == Mark(a, k) + Mark(b, k + 1);
    RunAllConcat(live, Mark(a, k), Mark(b, k + 1), entry, fuel);
    RunMark(live, a, k, entry, fuel);
    var first := Live(Frame(x, [], false), C.State({tagOf(k)}, []));
    var second := Live(Frame(x, data, true), C.State({tagOf(k)}, data));
    var third := Live(Frame(x, data, true), C.State({tagOf(k)} + {tagOf(k + 1)}, data));
    HitsOfTwoCalls(live, tagOf, entry, first, second, third, k);
    RunSingle(l, a, Live(Frame(x, [], false), first.collector), fuel);
    LiveCalls(l, tagOf, x, callee, data, fuel, first);
    RunSingle(l, a, Live(Frame(x, [], false), third.collector), fuel);
    LiveCalls(l, tagOf, x, callee, data, fuel, third);
    hide LiveOver, LiveCallee;
    assert Run(live, a, first, fuel) == Outcome(second, Normal, []);
    RunMark(live, b, k + 1, second, fuel);
  }

  lemma HitsOfTwoCalls<S>(live: Machine<Live<S>>, tagOf: nat -> C.Data, entry: Live<S>, first: Live<S>, second: Live<S>,
                          third: Live<S>, k: nat)
    requires forall i, t :: live.hit(i, t) == Hit(tagOf, i, t)
    requires entry.collector == C.FRESH && entry.frame.buffer == []
    requires first == entry.(collector := C.State({tagOf(k)}, []))
    requires second.collector.hits == {tagOf(k)} && second.frame.buffer == second.collector.previous
    requires third == second.(collector := second.collector.(hits := {tagOf(k)} + {tagOf(k + 1)}))
    ensures live.hit(k, entry) == first && live.hit(k + 1, second) == third
  {
    assert {} + {tagOf(k)} == {tagOf(k)};
  }

  /** The two kinds of calls of `TwoCalls`, under the collector. */
  lemma LiveCalls<S>(l: Machine<Live<S>>, tagOf: nat -> C.Data, x: S, callee: seq<Code>, data: C.Data, fuel: nat,
                     t: Live<S>)
    requires var entry := Live(Frame(x, [], false), t.collector);
             RunAll(l, [], entry, fuel) == Outcome(entry, Normal, [])
    ensures var live := LiveOver(TwoCalls(x, callee, data), tagOf, Some(l), fuel);
            var s := LiveCallee(Some(l), t.collector, x, callee, 0, fuel);
            && live.step("call", t) == (Live(Frame(x, data, true), t.collector.(previous := data)), Normal)
            && live.step("then", t).0.frame.state == s.0 && live.step("then", t).1 == s.1
  {
    var outer := TwoCalls(x, callee, data);
    assert "then"[0] != "call"[0];
    var call, other := outer.step("call", t.frame), outer.step("then", t.frame);
    assert call.Invoke? && call.body == [] && other.Invoke? && other.body == callee && other.first == 0;
    assert MarkAll([], 0) == [];
    assert LiveCallee(Some(l), t.collector, x, [], 0, fuel) == (x, Normal, t.collector);
  }

  /** A program whose statements record whether the buffer is empty. */
  function Reader(): Program<int> {
    Program((text, f: Frame<int>) => Local(if f.buffer == [] then 0 else 1, Normal),
            (text, f: Frame<int>) => Local(f.state, Fails),
            (text, f: Frame<int>) => Local(f.state, Normal),
            (text, f: Frame<int>) => Local(f.state, Normal))
  }

  lemma LocalStep<S>(p: Program<S>, tagOf: nat -> C.Data, depth: nat, fuel: nat, text: string, t: Live<S>, f: Frame<S>)
    requires p.step(text, t.frame).Local? && p.step(text, f).Local?
    ensures LiveMachine(p, tagOf, depth, fuel).step(text, t).0.frame.state == p.step(text, t.frame).state
    ensures PlainMachine(p, depth, fuel).step(text, f).0.state == p.step(text, f).state
  {
  }

  /** For instance: a transaction calls a function that returns 7 and then one that looks at
      its (in truth empty) buffer. */
  lemma NestedReadIsSeen(tagOf: nat -> C.Data, k: nat, fuel: nat)
    ensures var outer := TwoCalls(0, [Simple("read")], [7]);
            var body := [Simple("call"), Simple("then")];
            var live := LiveOver(outer, tagOf, Some(LiveMachine(Reader(), tagOf, 0, fuel)), fuel);
            var plain := PlainOver(outer, Some(PlainMachine(Reader(), 0, fuel)), fuel);
            && RunAll(live, MarkAll(body, k), Live(Frame(0, [], false), C.FRESH), fuel).state.frame.state == 1
            && RunAll(plain, body, Frame(0, [], false), fuel).state.state == 0
  {
    var p, hits := Reader(), {tagOf(k)} + {tagOf(k + 1)};
    var l, m := LiveMachine(p, tagOf, 0, fuel), PlainMachine(p, 0, fuel);
    var t := Live(Frame(0, [7], false), C.State(hits + {tagOf(0)}, [7]));
    assert p.step("read", t.frame) == Local(1, Normal) && p.step("read", Frame(0, [], false)) == Local(0, Normal);
    LocalStep(p, tagOf, 0, fuel, "read", t, Frame(0, [], false));
    hide LiveCallee, PlainCallee, LiveOver, PlainOver, LiveMachine, PlainMachine, TwoCalls;
    TwoCallsPlain(m, 0, [Simple("read")], [7], fuel);
    TwoCallsLive(l, tagOf, 0, [Simple("read")], [7], k, fuel);
    OneStatement(p, tagOf, 0, C.State(hits, [7]), Simple("read"), 0, fuel);
    assert MarkInside(Simple("read"), 1) == Simple("read");
  }
}
