/** What instrumentation does to the meaning of a program: the statement
    language, its semantics over an abstract machine, the instrumented program,
    and the proof that the printed text is that program and that it behaves like
    the original plus one hit per executed statement. */
module Meaning {
  import opened Prelude
  import opened SyntaxTree
  import opened Instrument

  /** Statements. `head`, `mid` and `tail` are the source texts around the bodies
      (`if (c)`, `else`, `while (c);` ...); the abstract machine gives them their
      meaning. `HitCall` occurs only in instrumented programs. */
  datatype Code =
    | Simple(text: string)
    | Sequence(open: string, body: seq<Code>, close: string)
    | If(head: string, thn: Code)
    | IfElse(head: string, thn: Code, mid: string, els: Code)
    | While(head: string, loop: Code)
    | For(head: string, loop: Code)
    | DoWhile(head: string, loop: Code, tail: string)
    | HitCall(index: nat)

  /** The number of statements of a program, itself included. */
  function Size(c: Code): nat {
    match c
    case Sequence(_, body, _) => 1 + SizeAll(body)
    case If(_, thn) => 1 + Size(thn)
    case IfElse(_, thn, _, els) => 1 + Size(thn) + Size(els)
    case While(_, loop) => 1 + Size(loop)
    case For(_, loop) => 1 + Size(loop)
    case DoWhile(_, loop, _) => 1 + Size(loop)
    case _ => 1
  }

  function SizeAll(cs: seq<Code>): nat {
    if cs == [] then 0 else Size(cs[0]) + SizeAll(cs[1..])
  }

  predicate Plain(c: Code) {
    match c
    case HitCall(_) => false
    case Sequence(_, body, _) => PlainAll(body)
    case If(_, thn) => Plain(thn)
    case IfElse(_, thn, _, els) => Plain(thn) && Plain(els)
    case While(_, loop) => Plain(loop)
    case For(_, loop) => Plain(loop)
    case DoWhile(_, loop, _) => Plain(loop)
    case Simple(_) => true
  }

  predicate PlainAll(cs: seq<Code>) {
    cs == [] || (Plain(cs[0]) && PlainAll(cs[1..]))
  }

  // ----- the instrumented program -----

  /** What stands for statement `c`, numbered `k`, in a statement list. */
  function Mark(c: Code, k: nat): seq<Code>
    decreases c, 1
  {
    [HitCall(k), MarkInside(c, k + 1)]
  }

  function MarkAll(cs: seq<Code>, k: nat): seq<Code>
    decreases cs, 2
  {
    if cs == [] then [] else Mark(cs[0], k) + MarkAll(cs[1..], k + Size(cs[0]))
  }

  /** What stands for `c` as the lone body of a branch or loop. */
  function Brace(c: Code, k: nat): Code
    decreases c, 2
  {
    Sequence("{", Mark(c, k), "}")
  }

  function MarkInside(c: Code, k: nat): Code
    decreases c, 0
  {
    match c
    case Sequence(open, body, close) => Sequence(open, MarkAll(body, k), close)
    case If(head, thn) => If(head, Brace(thn, k))
    case IfElse(head, thn, mid, els) => IfElse(head, Brace(thn, k), mid, Brace(els, k + Size(thn)))
    case While(head, loop) => While(head, Brace(loop, k))
    case For(head, loop) => For(head, Brace(loop, k))
    case DoWhile(head, loop, tail) => DoWhile(head, Brace(loop, k), tail)
    case _ => c
  }

  /** The numbers of the hit calls in a program, in the order of the text. */
  function HitsIn(c: Code): seq<nat> {
    match c
    case HitCall(index) => [index]
    case Sequence(_, body, _) => HitsInAll(body)
    case If(_, thn) => HitsIn(thn)
    case IfElse(_, thn, _, els) => HitsIn(thn) + HitsIn(els)
    case While(_, loop) => HitsIn(loop)
    case For(_, loop) => HitsIn(loop)
    case DoWhile(_, loop, _) => HitsIn(loop)
    case Simple(_) => []
  }

  function HitsInAll(cs: seq<Code>): seq<nat> {
    if cs == [] then [] else HitsIn(cs[0]) + HitsInAll(cs[1..])
  }

  lemma {:induction false} PlainIffNoHits(c: Code)
    ensures Plain(c) <==> HitsIn(c) == []
    decreases c, 0
  {
    match c
    case Sequence(_, body, _) => PlainAllIffNoHits(body);
    case If(_, thn) => PlainIffNoHits(thn);
    case IfElse(_, thn, _, els) =>
      PlainIffNoHits(thn);
      PlainIffNoHits(els);
    case While(_, loop) => PlainIffNoHits(loop);
    case For(_, loop) => PlainIffNoHits(loop);
    case DoWhile(_, loop, _) => PlainIffNoHits(loop);
    case _ =>
  }

  lemma {:induction false} PlainAllIffNoHits(cs: seq<Code>)
    ensures PlainAll(cs) <==> HitsInAll(cs) == []
    decreases cs, 1
  {
    if cs != [] {
      PlainIffNoHits(cs[0]);
      PlainAllIffNoHits(cs[1..]);
    }
  }

  function Numbers(k: nat, n: nat): seq<nat> {
    seq(n, i requires 0 <= i < n => k + i)
  }

  lemma NumbersConcat(k: nat, m: nat, n: nat)
    ensures Numbers(k, m) + Numbers(k + m, n) == Numbers(k, m + n)
  {
  }

  lemma {:induction false} HitsInAllConcat(a: seq<Code>, b: seq<Code>)
    ensures HitsInAll(a + b) == HitsInAll(a) + HitsInAll(b)
  {
    if a == [] {
      assert a + b == b;
    } else {
      assert (a + b)[1..] == a[1..] + b;
      HitsInAllConcat(a[1..], b);
    }
  }

  lemma {:induction false} MarkedHits(c: Code, k: nat)
    requires Plain(c)
    ensures HitsInAll(Mark(c, k)) == Numbers(k, Size(c))
    decreases c, 1
  {
    hide MarkInside, HitsIn, Size;
    MarkedInsideHits(c, k + 1);
    var inside := MarkInside(c, k + 1);
    assert Mark(c, k)[1..] == [inside] && [inside][1..] == [] && HitsInAll([inside]) == HitsIn(inside);
    HitCallIsHit(k);
    NumbersConcat(k, 1, Size(c) - 1);
  }

  lemma HitCallIsHit(k: nat)
    ensures HitsIn(HitCall(k)) == Numbers(k, 1)
  {
  }

  lemma {:induction false} MarkedInsideHits(c: Code, k: nat)
    requires Plain(c)
    ensures Size(c) > 0 && HitsIn(MarkInside(c, k)) == Numbers(k, Size(c) - 1)
    decreases c, 0
  {
    hide Mark, Numbers;
    match c
    case Sequence(_, body, _) => MarkedAllHits(body, k);
    case If(_, thn) => MarkedHits(thn, k);
    case IfElse(_, thn, _, els) =>
      MarkedHits(thn, k);
      MarkedHits(els, k + Size(thn));
      NumbersConcat(k, Size(thn), Size(els));
    case While(_, loop) => MarkedHits(loop, k);
    case For(_, loop) => MarkedHits(loop, k);
    case DoWhile(_, loop, _) => MarkedHits(loop, k);
    case Simple(_) => NoNumbers(k);
  }

  lemma NoNumbers(k: nat)
    ensures Numbers(k, 0) == []
  {
  }

  /** The instrumented program contains a hit call for each of its statements, numbered in the
      order of the text, and no other. */
  lemma {:induction false} MarkedAllHits(cs: seq<Code>, k: nat)
    requires PlainAll(cs)
    ensures HitsInAll(MarkAll(cs, k)) == Numbers(k, SizeAll(cs))
    decreases cs, 2
  {
    hide Mark, Numbers, Size, Plain;
    NoNumbers(k);
    if cs != [] {
      MarkedHits(cs[0], k);
      MarkedAllHits(cs[1..], k + Size(cs[0]));
      HitsInAllConcat(Mark(cs[0], k), MarkAll(cs[1..], k + Size(cs[0])));
      NumbersConcat(k, Size(cs[0]), SizeAll(cs[1..]));
    }
  }

  // ----- semantics -----

  datatype Signal = Normal | BreakLoop | ContinueLoop | Exit | OutOfFuel

  datatype Verdict = Holds | Fails | Throws

  /** The effects of the parts that are not modelled: simple statements, the conditions,
      initialisations and updates of branches and loops, and hit calls. */
  datatype Machine<!S> = Machine(
    step: (string, S) -> (S, Signal),
    test: (string, S) -> (S, Verdict),
    init: (string, S) -> (S, Signal),
    update: (string, S) -> (S, Signal),
    hit: (nat, S) -> S)

  /** `trace` lists the hits performed, in order. */
  datatype Outcome<S> = Outcome(state: S, signal: Signal, trace: seq<nat>)

  function Before<S>(trace: seq<nat>, r: Outcome<S>): Outcome<S> {
    Outcome(r.state, r.signal, trace + r.trace)
  }

  function Erased<S>(r: Outcome<S>): Outcome<S> {
    Outcome(r.state, r.signal, [])
  }

  /** Running a program; `fuel` bounds the iterations of every loop. */
  function Run<S>(m: Machine<S>, c: Code, s: S, fuel: nat): Outcome<S>
    decreases fuel, c, 0
  {
    match c
    case Simple(text) => var (s', signal) := m.step(text, s); Outcome(s', signal, [])
    case HitCall(index) => Outcome(m.hit(index, s), Normal, [index])
    case Sequence(_, body, _) => RunAll(m, body, s, fuel)
    case If(head, thn) =>
      var (s', verdict) := m.test(head, s);
      if verdict.Holds? then Run(m, thn, s', fuel) else Outcome(s', if verdict.Fails? then Normal else Exit, [])
    case IfElse(head, thn, _, els) =>
      var (s', verdict) := m.test(head, s);
      if verdict.Holds? then Run(m, thn, s', fuel)
      else if verdict.Fails? then Run(m, els, s', fuel)
      else Outcome(s', Exit, [])
    case While(head, loop) => RunLoop(m, head, loop, false, s, fuel)
    case For(head, loop) =>
      var (s', signal) := m.init(head, s);
      if signal.Normal? then RunLoop(m, head, loop, true, s', fuel) else Outcome(s', Exit, [])
    case DoWhile(_, loop, tail) =>
      var r := Run(m, loop, s, fuel);
      if r.signal.BreakLoop? then Outcome(r.state, Normal, r.trace)
      else if r.signal.Normal? || r.signal.ContinueLoop? then
        Before(r.trace, RunLoop(m, tail, loop, false, r.state, fuel))
      else r
  }

  function RunAll<S>(m: Machine<S>, cs: seq<Code>, s: S, fuel: nat): Outcome<S>
    decreases fuel, cs, 0
  {
    if cs == [] then
      Outcome(s, Normal, [])
    else
      var r := Run(m, cs[0], s, fuel);
      if r.signal.Normal? then Before(r.trace, RunAll(m, cs[1..], r.state, fuel)) else r
  }

  function RunLoop<S>(m: Machine<S>, head: string, loop: Code, updates: bool, s: S, fuel: nat): Outcome<S>
    decreases fuel, loop, 1
  {
    if fuel == 0 then
      Outcome(s, OutOfFuel, [])
    else
      var (s', verdict) := m.test(head, s);
      match verdict
      case Fails => Outcome(s', Normal, [])
      case Throws => Outcome(s', Exit, [])
      case Holds =>
        var r := Run(m, loop, s', fuel);
        match r.signal
        case BreakLoop => Outcome(r.state, Normal, r.trace)
        case Exit => r
        case OutOfFuel => r
        case _ =>
          var (s'', signal) := if updates then m.update(head, r.state) else (r.state, Normal);
          if signal.Normal? then Before(r.trace, RunLoop(m, head, loop, updates, s'', fuel - 1))
          else Outcome(s'', Exit, r.trace)
  }

  // ----- the original, observed -----

  /** The same semantics, where statement `c` numbered `k` reports its number when
      it starts and its substatements are numbered in source order. */
  function Watch<S>(m: Machine<S>, c: Code, k: nat, s: S, fuel: nat): Outcome<S>
    decreases fuel, c, 1
  {
    Before([k], WatchInside(m, c, k + 1, s, fuel))
  }

  function WatchInside<S>(m: Machine<S>, c: Code, k: nat, s: S, fuel: nat): Outcome<S>
    decreases fuel, c, 0
  {
    match c
    case Simple(text) => var (s', signal) := m.step(text, s); Outcome(s', signal, [])
    case HitCall(index) => Outcome(m.hit(index, s), Normal, [index])
    case Sequence(_, body, _) => WatchAll(m, body, k, s, fuel)
    case If(head, thn) =>
      var (s', verdict) := m.test(head, s);
      if verdict.Holds? then Watch(m, thn, k, s', fuel) else Outcome(s', if verdict.Fails? then Normal else Exit, [])
    case IfElse(head, thn, _, els) =>
      var (s', verdict) := m.test(head, s);
      if verdict.Holds? then Watch(m, thn, k, s', fuel)
      else if verdict.Fails? then Watch(m, els, k + Size(thn), s', fuel)
      else Outcome(s', Exit, [])
    case While(head, loop) => WatchLoop(m, head, loop, k, false, s, fuel)
    case For(head, loop) =>
      var (s', signal) := m.init(head, s);
      if signal.Normal? then WatchLoop(m, head, loop, k, true, s', fuel) else Outcome(s', Exit, [])
    case DoWhile(_, loop, tail) =>
      var r := Watch(m, loop, k, s, fuel);
      if r.signal.BreakLoop? then Outcome(r.state, Normal, r.trace)
      else if r.signal.Normal? || r.signal.ContinueLoop? then
        Before(r.trace, WatchLoop(m, tail, loop, k, false, r.state, fuel))
      else r
  }

  function WatchAll<S>(m: Machine<S>, cs: seq<Code>, k: nat, s: S, fuel: nat): Outcome<S>
    decreases fuel, cs, 0
  {
    if cs == [] then
      Outcome(s, Normal, [])
    else
      var r := Watch(m, cs[0], k, s, fuel);
      if r.signal.Normal? then Before(r.trace, WatchAll(m, cs[1..], k + Size(cs[0]), r.state, fuel)) else r
  }

  function WatchLoop<S>(m: Machine<S>, head: string, loop: Code, k: nat, updates: bool, s: S, fuel: nat): Outcome<S>
    decreases fuel, loop, 2
  {
    if fuel == 0 then
      Outcome(s, OutOfFuel, [])
    else
      var (s', verdict) := m.test(head, s);
      match verdict
      case Fails => Outcome(s', Normal, [])
      case Throws => Outcome(s', Exit, [])
      case Holds =>
        var r := Watch(m, loop, k, s', fuel);
        match r.signal
        case BreakLoop => Outcome(r.state, Normal, r.trace)
        case Exit => r
        case OutOfFuel => r
        case _ =>
          var (s'', signal) := if updates then m.update(head, r.state) else (r.state, Normal);
          if signal.Normal? then Before(r.trace, WatchLoop(m, head, loop, k, updates, s'', fuel - 1))
          else Outcome(s'', Exit, r.trace)
  }

  /** Observing changes nothing: without the reports, the observed run is the run. */
  lemma {:induction false} WatchingIsHarmless<S>(m: Machine<S>, c: Code, k: nat, s: S, fuel: nat)
    requires Plain(c)
    ensures Run(m, c, s, fuel) == Erased(WatchInside(m, c, k, s, fuel))
    decreases fuel, c, 0
  {
    match c
    case Simple(_) =>
    case Sequence(_, body, _) => WatchingAllIsHarmless(m, body, k, s, fuel);
    case If(head, thn) => WatchingIsHarmless(m, thn, k + 1, m.test(head, s).0, fuel);
    case IfElse(head, thn, _, els) =>
      WatchingIsHarmless(m, thn, k + 1, m.test(head, s).0, fuel);
      WatchingIsHarmless(m, els, k + Size(thn) + 1, m.test(head, s).0, fuel);
    case While(head, loop) => WatchingLoopIsHarmless(m, head, loop, k, false, s, fuel);
    case For(head, loop) => WatchingLoopIsHarmless(m, head, loop, k, true, m.init(head, s).0, fuel);
    case DoWhile(_, loop, tail) =>
      WatchingIsHarmless(m, loop, k + 1, s, fuel);
      WatchingLoopIsHarmless(m, tail, loop, k, false, Watch(m, loop, k, s, fuel).state, fuel);
  }

  lemma {:induction false} WatchingAllIsHarmless<S>(m: Machine<S>, cs: seq<Code>, k: nat, s: S, fuel: nat)
    requires PlainAll(cs)
    ensures RunAll(m, cs, s, fuel) == Erased(WatchAll(m, cs, k, s, fuel))
    decreases fuel, cs, 0
  {
    if cs != [] {
      WatchingIsHarmless(m, cs[0], k + 1, s, fuel);
      WatchingAllIsHarmless(m, cs[1..], k + Size(cs[0]), Watch(m, cs[0], k, s, fuel).state, fuel);
    }
  }

  lemma {:induction false} WatchingLoopIsHarmless<S>(m: Machine<S>, head: string, loop: Code, k: nat, updates: bool,
                                                     s: S, fuel: nat)
    requires Plain(loop)
    ensures RunLoop(m, head, loop, updates, s, fuel) == Erased(WatchLoop(m, head, loop, k, updates, s, fuel))
    decreases fuel, loop, 1
  {
    if fuel > 0 {
      var s' := m.test(head, s).0;
      WatchingIsHarmless(m, loop, k + 1, s', fuel);
      var r := Watch(m, loop, k, s', fuel);
      var s'' := if updates then m.update(head, r.state).0 else r.state;
      WatchingLoopIsHarmless(m, head, loop, k, updates, s'', fuel - 1);
    }
  }

  // ----- the instrumented program, on a machine of its own -----

  /** From related states, `live` does what `m` does, and a hit call keeps its state related
      to the state `m` is in. */
  ghost predicate Simulates<T(!new), S(!new)>(live: Machine<T>, m: Machine<S>, rel: (T, S) -> bool) {
    && (forall text, t, s | rel(t, s) :: rel(live.step(text, t).0, m.step(text, s).0)
                                        && live.step(text, t).1 == m.step(text, s).1)
    && (forall text, t, s | rel(t, s) :: rel(live.test(text, t).0, m.test(text, s).0)
                                        && live.test(text, t).1 == m.test(text, s).1)
    && (forall text, t, s | rel(t, s) :: rel(live.init(text, t).0, m.init(text, s).0)
                                        && live.init(text, t).1 == m.init(text, s).1)
    && (forall text, t, s | rel(t, s) ::
          rel(live.update(text, t).0, m.update(text, s).0) && live.update(text, t).1 == m.update(text, s).1)
    && (forall k, t, s | rel(t, s) :: rel(live.hit(k, t), s))
  }

  predicate Related<T, S>(rel: (T, S) -> bool, r: Outcome<T>, o: Outcome<S>) {
    rel(r.state, o.state) && r.signal == o.signal && r.trace == o.trace
  }

  /** Running the instrumented statement is the observed run of the original: related state,
      same control flow, one hit per statement started, in order. */
  lemma {:induction false} MarkedRunIsWatched<T(!new), S(!new)>(live: Machine<T>, m: Machine<S>, rel: (T, S) -> bool,
                                                                c: Code, k: nat, t: T, s: S, fuel: nat)
    requires Plain(c) && Simulates(live, m, rel) && rel(t, s)
    ensures Related(rel, RunAll(live, Mark(c, k), t, fuel), Watch(m, c, k, s, fuel))
    decreases fuel, c, 1
  {
    var inside := MarkInside(c, k + 1);
    var t' := live.hit(k, t);
    MarkedInsideIsWatched(live, m, rel, c, k + 1, t', s, fuel);
    RunMark(live, c, k, t, fuel);
    hide *;
    WatchStep(m, c, k, s, fuel);
    RelatedBefore(rel, Run(live, inside, t', fuel), WatchInside(m, c, k + 1, s, fuel), [k]);
  }

  lemma RelatedBefore<T, S>(rel: (T, S) -> bool, r: Outcome<T>, o: Outcome<S>, trace: seq<nat>)
    requires Related(rel, r, o)
    ensures Related(rel, Before(trace, r), Before(trace, o))
  {
  }

  lemma WatchStep<S>(m: Machine<S>, c: Code, k: nat, s: S, fuel: nat)
    ensures Watch(m, c, k, s, fuel) == Before([k], WatchInside(m, c, k + 1, s, fuel))
  {
  }

  lemma RunMark<T>(live: Machine<T>, c: Code, k: nat, t: T, fuel: nat)
    ensures RunAll(live, Mark(c, k), t, fuel) == Before([k], Run(live, MarkInside(c, k + 1), live.hit(k, t), fuel))
  {
    var inside := MarkInside(c, k + 1);
    assert Mark(c, k)[1..] == [inside] && [inside][1..] == [];
    var t' := live.hit(k, t);
    var r := Run(live, inside, t', fuel);
    assert RunAll(live, [], r.state, fuel) == Outcome(r.state, Normal, []);
    assert RunAll(live, [inside], t', fuel) == r;
    assert Run(live, HitCall(k), t, fuel) == Outcome(t', Normal, [k]);
  }

  lemma {:induction false} MarkedInsideIsWatched<T(!new), S(!new)>(live: Machine<T>, m: Machine<S>, rel: (T, S) -> bool,
                                                                   c: Code, k: nat, t: T, s: S, fuel: nat)
    requires Plain(c) && Simulates(live, m, rel) && rel(t, s)
    ensures Related(rel, Run(live, MarkInside(c, k), t, fuel), WatchInside(m, c, k, s, fuel))
    decreases fuel, c, 0
  {
    match c
    case Simple(_) =>
    case Sequence(_, body, _) => MarkedAllIsWatched(live, m, rel, body, k, t, s, fuel);
    case If(head, thn) =>
      if live.test(head, t).1.Holds? {
        BracedRunIsWatched(live, m, rel, thn, k, live.test(head, t).0, m.test(head, s).0, fuel);
      }
    case IfElse(head, thn, _, els) =>
      if live.test(head, t).1.Holds? {
        BracedRunIsWatched(live, m, rel, thn, k, live.test(head, t).0, m.test(head, s).0, fuel);
      } else if live.test(head, t).1.Fails? {
        BracedRunIsWatched(live, m, rel, els, k + Size(thn), live.test(head, t).0, m.test(head, s).0, fuel);
      }
    case While(head, loop) => MarkedLoopIsWatched(live, m, rel, head, loop, k, false, t, s, fuel);
    case For(head, loop) =>
      if live.init(head, t).1.Normal? {
        MarkedLoopIsWatched(live, m, rel, head, loop, k, true, live.init(head, t).0, m.init(head, s).0, fuel);
      }
    case DoWhile(_, loop, tail) =>
      BracedRunIsWatched(live, m, rel, loop, k, t, s, fuel);
      var r, o := Run(live, Brace(loop, k), t, fuel), Watch(m, loop, k, s, fuel);
      if r.signal.Normal? || r.signal.ContinueLoop? {
        MarkedLoopIsWatched(live, m, rel, tail, loop, k, false, r.state, o.state, fuel);
      }
  }

  lemma {:induction false} BracedRunIsWatched<T(!new), S(!new)>(live: Machine<T>, m: Machine<S>, rel: (T, S) -> bool,
                                                                c: Code, k: nat, t: T, s: S, fuel: nat)
    requires Plain(c) && Simulates(live, m, rel) && rel(t, s)
    ensures Related(rel, Run(live, Brace(c, k), t, fuel), Watch(m, c, k, s, fuel))
    decreases fuel, c, 2
  {
    MarkedRunIsWatched(live, m, rel, c, k, t, s, fuel);
  }

  lemma {:induction false} MarkedLoopIsWatched<T(!new), S(!new)>(live: Machine<T>, m: Machine<S>, rel: (T, S) -> bool,
                                                                 head: string,
                                                     loop: Code, k: nat, updates: bool, t: T, s: S, fuel: nat)
    requires Plain(loop) && Simulates(live, m, rel) && rel(t, s)
    ensures Related(rel, RunLoop(live, head, Brace(loop, k), updates, t, fuel),
                    WatchLoop(m, head, loop, k, updates, s, fuel))
    decreases fuel, loop, 3
  {
    if fuel > 0 && live.test(head, t).1.Holds? {
      var t', s' := live.test(head, t).0, m.test(head, s).0;
      BracedRunIsWatched(live, m, rel, loop, k, t', s', fuel);
      var r, o := Run(live, Brace(loop, k), t', fuel), Watch(m, loop, k, s', fuel);
      var t'' := if updates then live.update(head, r.state).0 else r.state;
      var s'' := if updates then m.update(head, o.state).0 else o.state;
      MarkedLoopIsWatched(live, m, rel, head, loop, k, updates, t'', s'', fuel - 1);
    }
  }

  lemma {:induction false} RunAllConcat<S>(m: Machine<S>, a: seq<Code>, b: seq<Code>, s: S, fuel: nat)
    ensures var r := RunAll(m, a, s, fuel);
            RunAll(m, a + b, s, fuel) == if r.signal.Normal? then Before(r.trace, RunAll(m, b, r.state, fuel)) else r
    decreases |a|
  {
    if a == [] {
      assert a + b == b;
    } else {
      assert (a + b)[1..] == a[1..] + b;
      var r := Run(m, a[0], s, fuel);
      RunAllConcat(m, a[1..], b, r.state, fuel);
    }
  }

  lemma {:induction false} MarkedAllIsWatched<T(!new), S(!new)>(live: Machine<T>, m: Machine<S>, rel: (T, S) -> bool,
                                                                cs: seq<Code>, k: nat, t: T, s: S, fuel: nat)
    requires PlainAll(cs) && Simulates(live, m, rel) && rel(t, s)
    ensures Related(rel, RunAll(live, MarkAll(cs, k), t, fuel), WatchAll(m, cs, k, s, fuel))
    decreases fuel, cs, 4
  {
    if cs != [] {
      MarkedRunIsWatched(live, m, rel, cs[0], k, t, s, fuel);
      RunAllConcat(live, Mark(cs[0], k), MarkAll(cs[1..], k + Size(cs[0])), t, fuel);
      var r, o := RunAll(live, Mark(cs[0], k), t, fuel), Watch(m, cs[0], k, s, fuel);
      if r.signal.Normal? {
        MarkedAllIsWatched(live, m, rel, cs[1..], k + Size(cs[0]), r.state, o.state, fuel);
      }
    }
  }

  /** Meaning preservation: for every body, bound and related states, on any machine that
      simulates the original's, the instrumented body ends in a related state with the same
      signal, and its hits are exactly the numbers of the statements the original starts,
      in order. */
  lemma InstrumentationSimulates<T(!new), S(!new)>(live: Machine<T>, m: Machine<S>, rel: (T, S) -> bool,
                                                   body: seq<Code>, k: nat, t: T, s: S, fuel: nat)
    requires PlainAll(body) && Simulates(live, m, rel) && rel(t, s)
    ensures var r, o := RunAll(live, MarkAll(body, k), t, fuel), RunAll(m, body, s, fuel);
            rel(r.state, o.state) && r.signal == o.signal && r.trace == WatchAll(m, body, k, s, fuel).trace
  {
    MarkedAllIsWatched(live, m, rel, body, k, t, s, fuel);
    WatchingAllIsHarmless(m, body, k, s, fuel);
  }

  /** In particular, on a machine that hits leave alone the state is the same. */
  lemma InstrumentationPreservesMeaning<S(!new)>(m: Machine<S>, body: seq<Code>, k: nat, s: S, fuel: nat)
    requires PlainAll(body) && forall i, x :: m.hit(i, x) == x
    ensures Erased(RunAll(m, MarkAll(body, k), s, fuel)) == RunAll(m, body, s, fuel)
    ensures RunAll(m, MarkAll(body, k), s, fuel).trace == WatchAll(m, body, k, s, fuel).trace
  {
    var same := (x: S, y: S) => x == y;
    InstrumentationSimulates(m, m, same, body, k, s, s, fuel);
    WatchingAllIsHarmless(m, body, k, s, fuel);
  }

  // ----- the printed text is that program -----

  /** The syntax tree the parser gives a statement. */
  function StatementNode(c: Code): Node
    requires Plain(c)
    decreases c, 1
  {
    Nonterminal(Statement, [Inner(c)])
  }

  function StatementNodes(cs: seq<Code>): seq<Node>
    requires PlainAll(cs)
    decreases cs, 2
  {
    if cs == [] then [] else [StatementNode(cs[0])] + StatementNodes(cs[1..])
  }

  function BlockNode(open: string, body: seq<Code>, close: string): Node
    requires PlainAll(body)
    decreases body, 3
  {
    Nonterminal(Block, [Terminal(open), Nonterminal(Statements, StatementNodes(body)), Terminal(close)])
  }

  function Inner(c: Code): Node
    requires Plain(c)
    decreases c, 0
  {
    match c
    case Simple(text) => Nonterminal(OtherKind("ExpressionStatement"), [Terminal(text)])
    case Sequence(open, body, close) => BlockNode(open, body, close)
    case If(head, thn) => Nonterminal(IfStatement, [Terminal(head), StatementNode(thn)])
    case IfElse(head, thn, mid, els) =>
      Nonterminal(IfStatement, [Terminal(head), StatementNode(thn),
                                Nonterminal(ElseBranch, [Terminal(mid), StatementNode(els)])])
    case While(head, loop) => Nonterminal(WhileStatement, [Terminal(head), StatementNode(loop)])
    case For(head, loop) => Nonterminal(ForStatement, [Terminal(head), StatementNode(loop)])
    case DoWhile(head, loop, tail) =>
      Nonterminal(DoWhileStatement, [Terminal(head), StatementNode(loop), Terminal(tail)])
  }

  /** Source text of a program, where the i-th hit is a call carrying tag i. */
  function Print(c: Code, tagOf: nat -> Tag): string {
    match c
    case Simple(text) => text
    case HitCall(index) => HitText(tagOf(index))
    case Sequence(open, body, close) => open + PrintAll(body, tagOf) + close
    case If(head, thn) => head + Print(thn, tagOf)
    case IfElse(head, thn, mid, els) => head + Print(thn, tagOf) + mid + Print(els, tagOf)
    case While(head, loop) => head + Print(loop, tagOf)
    case For(head, loop) => head + Print(loop, tagOf)
    case DoWhile(head, loop, tail) => head + Print(loop, tagOf) + tail
  }

  function PrintAll(cs: seq<Code>, tagOf: nat -> Tag): string {
    if cs == [] then "" else Print(cs[0], tagOf) + PrintAll(cs[1..], tagOf)
  }

  lemma {:induction false} PrintAllConcat(a: seq<Code>, b: seq<Code>, tagOf: nat -> Tag)
    ensures PrintAll(a + b, tagOf) == PrintAll(a, tagOf) + PrintAll(b, tagOf)
  {
    if a == [] {
      assert a + b == b;
    } else {
      assert (a + b)[1..] == a[1..] + b;
      PrintAllConcat(a[1..], b, tagOf);
    }
  }

  /** Text of a forest of up to three nodes. */
  lemma {:induction false} EmitOne(a: Node, p: Option<Kind>, k: nat, tagOf: nat -> Tag)
    ensures StatementCount([a]) == NodeStatementCount(a)
    ensures Flatten(Emit([a], p, k), tagOf) == Flatten(EmitNode(a, p, k), tagOf)
  {
    EmitSingle(a, p, k);
    MeasuresOfCons(a, [], p);
  }

  lemma {:induction false} EmitMore(a: Node, rest: seq<Node>, p: Option<Kind>, k: nat, tagOf: nat -> Tag)
    ensures StatementCount([a] + rest) == NodeStatementCount(a) + StatementCount(rest)
    ensures Flatten(Emit([a] + rest, p, k), tagOf)
         == Flatten(EmitNode(a, p, k), tagOf) + Flatten(Emit(rest, p, k + NodeStatementCount(a)), tagOf)
  {
    hide *;
    EmitOfCons(a, rest, p, k);
    MeasuresOfCons(a, rest, p);
    FlattenConcat(EmitNode(a, p, k), Emit(rest, p, k + NodeStatementCount(a)), tagOf);
  }

  lemma EmitOfCons(a: Node, rest: seq<Node>, p: Option<Kind>, k: nat)
    ensures Emit([a] + rest, p, k) == EmitNode(a, p, k) + Emit(rest, p, k + NodeStatementCount(a))
  {
    hide EmitNode, NodeStatementCount;
    assert ([a] + rest)[1..] == rest;
  }

  lemma TerminalText(text: string, p: Option<Kind>, k: nat, tagOf: nat -> Tag)
    ensures NodeStatementCount(Terminal(text)) == 0
    ensures Flatten(EmitNode(Terminal(text), p, k), tagOf) == text
  {
    FlattenSingle(Source(text), tagOf);
  }

  lemma {:induction false} EmitTwo(text: string, b: Node, p: Option<Kind>, k: nat, tagOf: nat -> Tag)
    ensures StatementCount([Terminal(text), b]) == NodeStatementCount(b)
    ensures Flatten(Emit([Terminal(text), b], p, k), tagOf) == text + Flatten(EmitNode(b, p, k), tagOf)
  {
    hide *;
    assert [Terminal(text), b] == [Terminal(text)] + [b];
    EmitMore(Terminal(text), [b], p, k, tagOf);
    EmitOne(b, p, k, tagOf);
    TerminalText(text, p, k, tagOf);
  }

  lemma {:induction false} EmitThree(text: string, b: Node, c: Node, p: Option<Kind>, k: nat, tagOf: nat -> Tag)
    ensures StatementCount([Terminal(text), b, c]) == NodeStatementCount(b) + NodeStatementCount(c)
    ensures Flatten(Emit([Terminal(text), b, c], p, k), tagOf)
         == text + Flatten(EmitNode(b, p, k), tagOf) + Flatten(EmitNode(c, p, k + NodeStatementCount(b)), tagOf)
  {
    hide *;
    assert [Terminal(text), b, c] == [Terminal(text)] + [b, c] && [b, c] == [b] + [c];
    EmitMore(Terminal(text), [b, c], p, k, tagOf);
    EmitMore(b, [c], p, k, tagOf);
    EmitOne(c, p, k + NodeStatementCount(b), tagOf);
    TerminalText(text, p, k, tagOf);
  }

  /** The printed text of a statement is the text of its instrumented form. */
  lemma {:induction false} StatementText(c: Code, p: Option<Kind>, k: nat, tagOf: nat -> Tag)
    requires Plain(c)
    ensures NodeStatementCount(StatementNode(c)) == Size(c)
    ensures Flatten(EmitNode(StatementNode(c), p, k), tagOf)
         == if Wraps(p) then Print(Brace(c, k), tagOf) else PrintAll(Mark(c, k), tagOf)
    decreases c, 1
  {
    hide Flatten, Print, Inner, Emit, MarkInside;
    InnerText(c, k + 1, tagOf);
    EmitOne(Inner(c), Some(Statement), k + 1, tagOf);
    var inner := Emit([Inner(c)], Some(Statement), k + 1);
    FlattenConcat([Hit(k)], inner, tagOf);
    FlattenSingle(Hit(k), tagOf);
    FlattenBraced([Hit(k)] + inner, tagOf);
    MarkText(c, k, tagOf);
  }

  lemma {:induction false} FlattenBraced(marked: seq<Piece>, tagOf: nat -> Tag)
    ensures Flatten([OpenBrace] + marked + [CloseBrace], tagOf) == "{" + Flatten(marked, tagOf) + "}"
  {
    FlattenConcat([OpenBrace] + marked, [CloseBrace], tagOf);
    FlattenConcat([OpenBrace], marked, tagOf);
    FlattenSingle(OpenBrace, tagOf);
    FlattenSingle(CloseBrace, tagOf);
  }

  lemma MarkText(c: Code, k: nat, tagOf: nat -> Tag)
    ensures PrintAll(Mark(c, k), tagOf) == HitText(tagOf(k)) + Print(MarkInside(c, k + 1), tagOf)
    ensures Print(Brace(c, k), tagOf) == "{" + PrintAll(Mark(c, k), tagOf) + "}"
  {
    var inside := MarkInside(c, k + 1);
    assert Mark(c, k)[1..] == [inside] && [inside][1..] == [];
    assert PrintAll([inside], tagOf) == Print(inside, tagOf);
  }

  lemma {:induction false} InnerText(c: Code, k: nat, tagOf: nat -> Tag)
    requires Plain(c)
    ensures NodeStatementCount(Inner(c)) + 1 == Size(c)
    ensures Flatten(EmitNode(Inner(c), Some(Statement), k), tagOf) == Print(MarkInside(c, k), tagOf)
    decreases c, 0
  {
    hide Flatten, Emit, StatementCount, PrintAll, MarkAll, Brace, StatementNode, StatementNodes;
    match c
    case Simple(text) =>
      EmitOne(Terminal(text), Some(OtherKind("ExpressionStatement")), k, tagOf);
      TerminalText(text, Some(OtherKind("ExpressionStatement")), k, tagOf);
    case Sequence(open, body, close) => BlockText(open, body, close, Some(Statement), k, tagOf);
    case If(head, thn) => BodyText(head, thn, IfStatement, k, tagOf);
    case While(head, loop) => BodyText(head, loop, WhileStatement, k, tagOf);
    case For(head, loop) => BodyText(head, loop, ForStatement, k, tagOf);
    case IfElse(head, thn, mid, els) =>
      var branch := Nonterminal(ElseBranch, [Terminal(mid), StatementNode(els)]);
      StatementText(thn, Some(IfStatement), k, tagOf);
      EmitThree(head, StatementNode(thn), branch, Some(IfStatement), k, tagOf);
      BodyText(mid, els, ElseBranch, k + Size(thn), tagOf);
    case DoWhile(head, loop, tail) =>
      StatementText(loop, Some(DoWhileStatement), k, tagOf);
      EmitThree(head, StatementNode(loop), Terminal(tail), Some(DoWhileStatement), k, tagOf);
      TerminalText(tail, Some(DoWhileStatement), k + Size(loop), tagOf);
  }

  lemma {:induction false} BodyText(head: string, c: Code, kind: Kind, k: nat, tagOf: nat -> Tag)
    requires Plain(c) && Wraps(Some(kind))
    ensures NodeStatementCount(Nonterminal(kind, [Terminal(head), StatementNode(c)])) == Size(c)
    ensures Flatten(Emit([Terminal(head), StatementNode(c)], Some(kind), k), tagOf) == head + Print(Brace(c, k), tagOf)
    decreases c, 2
  {
    StatementText(c, Some(kind), k, tagOf);
    EmitTwo(head, StatementNode(c), Some(kind), k, tagOf);
  }

  lemma UnfoldStatements(cs: seq<Code>, k: nat)
    requires cs != [] && PlainAll(cs)
    ensures Plain(cs[0]) && PlainAll(cs[1..]) && !Wraps(Some(Statements))
    ensures StatementNodes(cs) == [StatementNode(cs[0])] + StatementNodes(cs[1..])
    ensures MarkAll(cs, k) == Mark(cs[0], k) + MarkAll(cs[1..], k + Size(cs[0]))
    ensures SizeAll(cs) == Size(cs[0]) + SizeAll(cs[1..])
  {
  }

  lemma {:induction false} StatementsTextStep(cs: seq<Code>, k: nat, tagOf: nat -> Tag)
    requires cs != [] && PlainAll(cs) && PlainAll(cs[1..])
    requires NodeStatementCount(StatementNode(cs[0])) == Size(cs[0])
    requires Flatten(EmitNode(StatementNode(cs[0]), Some(Statements), k), tagOf) == PrintAll(Mark(cs[0], k), tagOf)
    requires StatementCount(StatementNodes(cs[1..])) == SizeAll(cs[1..])
    requires var k' := k + Size(cs[0]);
             Flatten(Emit(StatementNodes(cs[1..]), Some(Statements), k'), tagOf)
             == PrintAll(MarkAll(cs[1..], k'), tagOf)
    ensures StatementCount(StatementNodes(cs)) == SizeAll(cs)
    ensures Flatten(Emit(StatementNodes(cs), Some(Statements), k), tagOf) == PrintAll(MarkAll(cs, k), tagOf)
  {
    hide *;
    UnfoldStatements(cs, k);
    EmitMore(StatementNode(cs[0]), StatementNodes(cs[1..]), Some(Statements), k, tagOf);
    PrintAllConcat(Mark(cs[0], k), MarkAll(cs[1..], k + Size(cs[0])), tagOf);
  }

  lemma {:induction false} StatementsText(cs: seq<Code>, k: nat, tagOf: nat -> Tag)
    requires PlainAll(cs)
    ensures StatementCount(StatementNodes(cs)) == SizeAll(cs)
    ensures Flatten(Emit(StatementNodes(cs), Some(Statements), k), tagOf) == PrintAll(MarkAll(cs, k), tagOf)
    decreases cs, 2
  {
    hide NodeStatementCount, StatementNode, Mark, EmitNode, Print, Size;
    if cs != [] {
      UnfoldStatements(cs, k);
      StatementText(cs[0], Some(Statements), k, tagOf);
      StatementsText(cs[1..], k + Size(cs[0]), tagOf);
      StatementsTextStep(cs, k, tagOf);
    }
  }

  lemma {:induction false} BlockText(open: string, body: seq<Code>, close: string, p: Option<Kind>, k: nat,
                                     tagOf: nat -> Tag)
    requires PlainAll(body)
    ensures NodeStatementCount(BlockNode(open, body, close)) == SizeAll(body)
    ensures Flatten(EmitNode(BlockNode(open, body, close), p, k), tagOf)
         == open + PrintAll(MarkAll(body, k), tagOf) + close
    decreases body, 3
  {
    hide Flatten, Emit, StatementCount, StatementNodes, PrintAll, MarkAll;
    StatementsText(body, k, tagOf);
    var inner := Nonterminal(Statements, StatementNodes(body));
    EmitThree(open, inner, Terminal(close), Some(Block), k, tagOf);
    TerminalText(close, Some(Block), k + SizeAll(body), tagOf);
  }

  // ----- whole files -----

  /** A source file: function bodies and the text between them. */
  datatype Part = Raw(text: string) | Body(open: string, body: seq<Code>, close: string)

  predicate PlainPart(part: Part) {
    part.Body? ==> PlainAll(part.body)
  }

  predicate PlainParts(parts: seq<Part>) {
    forall i :: 0 <= i < |parts| ==> PlainPart(parts[i])
  }

  function PartNode(part: Part): Node
    requires PlainPart(part)
  {
    if part.Raw? then Terminal(part.text) else BlockNode(part.open, part.body, part.close)
  }

  function PartNodes(parts: seq<Part>): seq<Node>
    requires PlainParts(parts)
  {
    if parts == [] then [] else [PartNode(parts[0])] + PartNodes(parts[1..])
  }

  function FileNode(parts: seq<Part>): Node
    requires PlainParts(parts)
  {
    Nonterminal(OtherKind("SourceUnit"), PartNodes(parts))
  }

  function PartSize(part: Part): nat {
    if part.Raw? then 0 else SizeAll(part.body)
  }

  function MarkPart(part: Part, k: nat): Part {
    if part.Raw? then part else Body(part.open, MarkAll(part.body, k), part.close)
  }

  /** The instrumented file, numbering statements from `k`. */
  function MarkParts(parts: seq<Part>, k: nat): seq<Part> {
    if parts == [] then [] else [MarkPart(parts[0], k)] + MarkParts(parts[1..], k + PartSize(parts[0]))
  }

  function PrintPart(part: Part, tagOf: nat -> Tag): string {
    if part.Raw? then part.text else part.open + PrintAll(part.body, tagOf) + part.close
  }

  function PrintParts(parts: seq<Part>, tagOf: nat -> Tag): string {
    if parts == [] then "" else PrintPart(parts[0], tagOf) + PrintParts(parts[1..], tagOf)
  }

  lemma PartText(part: Part, p: Option<Kind>, k: nat, tagOf: nat -> Tag)
    requires PlainPart(part)
    ensures NodeStatementCount(PartNode(part)) == PartSize(part)
    ensures Flatten(EmitNode(PartNode(part), p, k), tagOf) == PrintPart(MarkPart(part, k), tagOf)
  {
    match part
    case Raw(text) => TerminalText(text, p, k, tagOf);
    case Body(open, body, close) => BlockText(open, body, close, p, k, tagOf);
  }

  lemma {:induction false} UnfoldParts(parts: seq<Part>, k: nat, tagOf: nat -> Tag)
    requires parts != [] && PlainParts(parts)
    ensures PlainPart(parts[0]) && PlainParts(parts[1..])
    ensures PartNodes(parts) == [PartNode(parts[0])] + PartNodes(parts[1..])
    ensures PrintParts(MarkParts(parts, k), tagOf)
         == PrintPart(MarkPart(parts[0], k), tagOf) + PrintParts(MarkParts(parts[1..], k + PartSize(parts[0])), tagOf)
  {
    assert MarkParts(parts, k)[1..] == MarkParts(parts[1..], k + PartSize(parts[0]));
  }

  lemma {:induction false} PartsTextStep(parts: seq<Part>, p: Option<Kind>, k: nat, tagOf: nat -> Tag)
    requires parts != [] && PlainParts(parts) && PlainParts(parts[1..])
    requires var k' := k + PartSize(parts[0]);
             Flatten(Emit(PartNodes(parts[1..]), p, k'), tagOf) == PrintParts(MarkParts(parts[1..], k'), tagOf)
    ensures Flatten(Emit(PartNodes(parts), p, k), tagOf) == PrintParts(MarkParts(parts, k), tagOf)
  {
    hide *;
    UnfoldParts(parts, k, tagOf);
    PartText(parts[0], p, k, tagOf);
    EmitMore(PartNode(parts[0]), PartNodes(parts[1..]), p, k, tagOf);
  }

  lemma {:induction false} PartsText(parts: seq<Part>, p: Option<Kind>, k: nat, tagOf: nat -> Tag)
    requires PlainParts(parts)
    ensures Flatten(Emit(PartNodes(parts), p, k), tagOf) == PrintParts(MarkParts(parts, k), tagOf)
  {
    if parts != [] {
      PartsText(parts[1..], p, k + PartSize(parts[0]), tagOf);
      PartsTextStep(parts, p, k, tagOf);
    }
  }

  /** What the instrumentation prints for a file is the text of the file whose
      bodies are the marked programs (to which `InstrumentationPreservesMeaning`
      applies). */
  lemma InstrumentedFileIsMarkedProgram(parts: seq<Part>, tagOf: nat -> Tag)
    requires PlainParts(parts)
    ensures Flatten(EmitNode(FileNode(parts), None, 0), tagOf) == PrintParts(MarkParts(parts, 0), tagOf)
  {
    PartsText(parts, Some(OtherKind("SourceUnit")), 0, tagOf);
  }
}
