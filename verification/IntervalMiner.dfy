/**
  * The interval miner as a state machine. Background tasks and request handlers share
  * the data lock; `evm_setIntervalMining` replaces the miner and joins the old task
  * while it holds that lock.
  *
  * Every atomic step is an `Event`; `Apply` is the only way the state changes. The
  * parameter `checksWhileLocking` tells whether the task also watches for cancellation
  * while it waits for the lock: the code does (`true`), and `WithoutInnerCheckItDeadlocks`
  * shows what that second check is for.
  */
module IntervalMiner {
  import opened Prelude

  type Interval = i: (nat, nat) | i.0 <= i.1 witness (0, 0)

  /** Where a background task stands; `Ended` has dropped its end of the channel. */
  datatype Place = Sleeping | Locking | Mining | Ended

  datatype Task = Task(place: Place, interval: Interval, now: nat, deadline: nat, cancelled: bool)

  /** What the request handler is doing. `Replacing` has built the new miner and not yet
      dropped the old one; `Joining` has sent the cancellation and waits for the task. */
  datatype Handler =
    | Idle
    | Serving
    | Replacing(next: Option<nat>)
    | Joining(previous: nat, next: Option<nat>)

  datatype Lock = Free | ByHandler | ByTask(task: nat)

  datatype Block = Requested | Mined(task: nat, started: nat, interval: Interval)

  datatype State = State(clock: nat, lock: Lock, handler: Handler, tasks: seq<Task>, miner: Option<nat>,
                         blocks: seq<Block>)

  datatype Event =
    | Tick
    // handler
    | Acquire | Serve(mines: bool) | Spawn(config: Option<Interval>, firstDelay: nat) | Replace | Join | Release
    // task
    | Expire(task: nat) | Cancel(task: nat) | TakeLock(task: nat) | Mine(task: nat, ok: bool, delay: nat)

  function NewTask(interval: Interval, now: nat, delay: nat): Task {
    Task(Sleeping, interval, now, now + delay, false)
  }

  predicate InInterval(interval: Interval, delay: nat) {
    interval.0 <= delay <= interval.1
  }

  function Start(config: Option<Interval>, firstDelay: nat): State {
    match config
    case None => State(0, Free, Idle, [], None, [])
    case Some(interval) => State(0, Free, Idle, [NewTask(interval, 0, firstDelay)], Some(0), [])
  }

  /** `*interval_miner = config.map(IntervalMiner::new)`: the new task exists before the
      old miner is dropped. */
  function SpawnNext(s: State, config: Option<Interval>, firstDelay: nat): State {
    match config
    case None => s.(handler := Replacing(None))
    case Some(interval) =>
      s.(handler := Replacing(Some(|s.tasks|)), tasks := s.tasks + [NewTask(interval, s.clock, firstDelay)])
  }

  /** Dropping the old miner: a failed send means the task is gone and nothing is joined. */
  function DropPrevious(s: State): State
    requires s.handler.Replacing? && (s.miner.Some? ==> s.miner.value < |s.tasks|)
  {
    var next := s.handler.next;
    if s.miner.None? || s.tasks[s.miner.value].place.Ended? then
      s.(handler := Serving, miner := next)
    else
      var previous := s.miner.value;
      s.(handler := Joining(previous, next),
         tasks := s.tasks[previous := s.tasks[previous].(cancelled := true)])
  }

  function ApplyHandler(s: State, e: Event): Option<State> {
    match e
    case Acquire => if s.handler.Idle? && s.lock.Free? then Some(s.(handler := Serving, lock := ByHandler)) else None
    case Serve(mines) =>
      if !s.handler.Serving? then None
      else Some(if mines then s.(blocks := s.blocks + [Requested]) else s)
    case Spawn(config, firstDelay) =>
      if s.handler.Serving? && (config.Some? ==> InInterval(config.value, firstDelay))
      then Some(SpawnNext(s, config, firstDelay)) else None
    case Replace =>
      if s.handler.Replacing? && (s.miner.Some? ==> s.miner.value < |s.tasks|) then Some(DropPrevious(s)) else None
    case Join =>
      if s.handler.Joining? && s.handler.previous < |s.tasks| && s.tasks[s.handler.previous].place.Ended?
      then Some(s.(handler := Serving, miner := s.handler.next)) else None
    case Release => if s.handler.Serving? then Some(s.(handler := Idle, lock := Free)) else None
    case _ => None
  }

  function Move(s: State, i: nat, task: Task): State
    requires i < |s.tasks|
  {
    s.(tasks := s.tasks[i := task])
  }

  /** One poll of task `i` that gets somewhere. */
  function ApplyTask(checksWhileLocking: bool, s: State, i: nat, e: Event): Option<State>
    requires i < |s.tasks|
  {
    var task := s.tasks[i];
    match e
    case Expire(_) =>
      if task.place.Sleeping? && task.deadline <= s.clock then Some(Move(s, i, task.(place := Locking))) else None
    case Cancel(_) =>
      if task.cancelled && (task.place.Sleeping? || (checksWhileLocking && task.place.Locking?))
      then Some(Move(s, i, task.(place := Ended))) else None
    case TakeLock(_) =>
      if task.place.Locking? && s.lock.Free?
      then Some(Move(s.(lock := ByTask(i)), i, task.(place := Mining, now := s.clock))) else None
    case Mine(_, ok, delay) =>
      if !task.place.Mining? || !InInterval(task.interval, delay) then None
      else if ok then
        Some(Move(s.(lock := Free, blocks := s.blocks + [Mined(i, task.now, task.interval)]), i,
                  task.(place := Sleeping, deadline := task.now + delay)))
      else
        Some(Move(s.(lock := Free), i, task.(place := Ended)))
    case _ => None
  }

  predicate IsTaskEvent(e: Event) {
    e.Expire? || e.Cancel? || e.TakeLock? || e.Mine?
  }

  function Apply(checksWhileLocking: bool, s: State, e: Event): Option<State> {
    if e.Tick? then Some(s.(clock := s.clock + 1))
    else if !IsTaskEvent(e) then ApplyHandler(s, e)
    else if e.task < |s.tasks| then ApplyTask(checksWhileLocking, s, e.task, e)
    else None
  }

  function Run(checksWhileLocking: bool, s: State, events: seq<Event>): Option<State>
    decreases |events|
  {
    if events == [] then Some(s)
    else
      var next := Apply(checksWhileLocking, s, events[0]);
      if next.None? then None else Run(checksWhileLocking, next.value, events[1..])
  }

  // ----- what every step keeps -----

  /** A task that has not ended is the installed miner or the one about to be. */
  predicate IsWanted(s: State, i: nat) {
    s.miner == Some(i) || ((s.handler.Replacing? || s.handler.Joining?) && s.handler.next == Some(i))
  }

  predicate TaskSound(s: State, i: nat)
    requires i < |s.tasks|
  {
    var task := s.tasks[i];
    && (task.place.Mining? <==> s.lock == ByTask(i))
    && (!task.place.Ended? ==> IsWanted(s, i))
    && (task.cancelled ==> task.place.Ended? || (s.handler.Joining? && s.handler.previous == i))
    && (task.place.Sleeping? ==> task.now + task.interval.0 <= task.deadline <= task.now + task.interval.1)
    && (task.place.Locking? ==> task.now + task.interval.0 <= s.clock)
    && task.now <= s.clock
  }

  predicate HandlerSound(s: State) {
    && (s.lock.ByHandler? <==> !s.handler.Idle?)
    && (s.lock.ByTask? ==> s.lock.task < |s.tasks|)
    && (s.miner.Some? ==> s.miner.value < |s.tasks|)
    && (s.handler.Replacing? || s.handler.Joining? ==>
          s.handler.next.Some? ==> s.handler.next.value < |s.tasks| && s.handler.next != s.miner)
    && (s.handler.Joining? ==>
          s.miner == Some(s.handler.previous) && s.tasks[s.handler.previous].cancelled)
  }

  predicate Sound(s: State) {
    HandlerSound(s) && forall i {:trigger s.tasks[i]} :: 0 <= i < |s.tasks| ==> TaskSound(s, i)
  }

  lemma StartIsSound(config: Option<Interval>, firstDelay: nat)
    requires config.Some? ==> InInterval(config.value, firstDelay)
    ensures Sound(Start(config, firstDelay))
  {
  }

  lemma HandlerStepIsSound(s: State, e: Event)
    requires Sound(s) && ApplyHandler(s, e).Some?
    ensures Sound(ApplyHandler(s, e).value)
  {
    var t := ApplyHandler(s, e).value;
    assert HandlerSound(t);
    forall i | 0 <= i < |t.tasks| ensures TaskSound(t, i) {
      assert i < |s.tasks| ==> TaskSound(s, i);
    }
  }

  lemma TaskStepIsSound(checksWhileLocking: bool, s: State, i: nat, e: Event)
    requires Sound(s) && i < |s.tasks| && ApplyTask(checksWhileLocking, s, i, e).Some?
    ensures Sound(ApplyTask(checksWhileLocking, s, i, e).value)
  {
    var t := ApplyTask(checksWhileLocking, s, i, e).value;
    assert TaskSound(s, i);
    forall j | 0 <= j < |t.tasks| ensures TaskSound(t, j) {
      assert TaskSound(s, j);
    }
  }

  lemma StepIsSound(checksWhileLocking: bool, s: State, e: Event)
    requires Sound(s) && Apply(checksWhileLocking, s, e).Some?
    ensures Sound(Apply(checksWhileLocking, s, e).value)
  {
    hide ApplyHandler, ApplyTask;
    if e.Tick? {
      var t := Apply(checksWhileLocking, s, e).value;
      forall i | 0 <= i < |t.tasks| ensures TaskSound(t, i) {
        assert TaskSound(s, i);
      }
    } else if IsTaskEvent(e) {
      TaskStepIsSound(checksWhileLocking, s, e.task, e);
    } else {
      HandlerStepIsSound(s, e);
    }
  }

  lemma {:induction false} RunIsSound(checksWhileLocking: bool, s: State, events: seq<Event>)
    requires Sound(s) && Run(checksWhileLocking, s, events).Some?
    ensures Sound(Run(checksWhileLocking, s, events).value)
    decreases |events|
  {
    hide Sound, Apply;
    if events != [] {
      StepIsSound(checksWhileLocking, s, events[0]);
      RunIsSound(checksWhileLocking, Apply(checksWhileLocking, s, events[0]).value, events[1..]);
    }
  }

  // ----- safety -----

  /** Outside `evm_setIntervalMining` the installed miner is the only task that has not
      ended, and nobody has asked it to stop. */
  lemma OnlyTheInstalledMinerLives(config: Option<Interval>, firstDelay: nat, events: seq<Event>, i: nat)
    requires config.Some? ==> InInterval(config.value, firstDelay)
    requires Run(true, Start(config, firstDelay), events).Some?
    requires var s := Run(true, Start(config, firstDelay), events).value;
             (s.handler.Idle? || s.handler.Serving?) && i < |s.tasks| && !s.tasks[i].place.Ended?
    ensures var s := Run(true, Start(config, firstDelay), events).value;
            s.miner == Some(i) && !s.tasks[i].cancelled
  {
    hide Run;
    StartIsSound(config, firstDelay);
    RunIsSound(true, Start(config, firstDelay), events);
    assert TaskSound(Run(true, Start(config, firstDelay), events).value, i);
  }

  /** The blocks that requests mine, as the events tell. */
  function RequestedBlocks(events: seq<Event>): seq<Block> {
    if events == [] then []
    else (if events[0] == Serve(true) then [Requested] else []) + RequestedBlocks(events[1..])
  }

  lemma StepUnderTheHandlersLock(checksWhileLocking: bool, s: State, e: Event)
    requires Sound(s) && !s.handler.Idle? && e != Release && Apply(checksWhileLocking, s, e).Some?
    ensures var t := Apply(checksWhileLocking, s, e).value;
            !t.handler.Idle? && t.blocks == s.blocks + if e == Serve(true) then [Requested] else []
  {
    if IsTaskEvent(e) {
      assert TaskSound(s, e.task);
    }
  }

  lemma RequestedStep(events: seq<Event>)
    ensures RequestedBlocks(events)
         == if events == [] then []
            else (if events[0] == Serve(true) then [Requested] else []) + RequestedBlocks(events[1..])
  {
  }

  lemma Reassociate(a: seq<Block>, b: seq<Block>, c: seq<Block>)
    ensures a + b + c == a + (b + c)
  {
  }

  /** From the moment a handler holds the data lock until it releases it, the chain grows by
      the blocks of that request alone: no task mines. */
  lemma {:induction false} NoTaskMinesDuringARequest(checksWhileLocking: bool, s: State, events: seq<Event>)
    requires Sound(s) && !s.handler.Idle? && Release !in events
    requires Run(checksWhileLocking, s, events).Some?
    ensures var t := Run(checksWhileLocking, s, events).value;
            !t.handler.Idle? && t.blocks == s.blocks + RequestedBlocks(events)
    decreases |events|
  {
    hide Sound, Apply, RequestedBlocks;
    RequestedStep(events);
    if events != [] {
      var e := events[0];
      var next := Apply(checksWhileLocking, s, e).value;
      StepIsSound(checksWhileLocking, s, e);
      StepUnderTheHandlersLock(checksWhileLocking, s, e);
      NoTaskMinesDuringARequest(checksWhileLocking, next, events[1..]);
      Reassociate(s.blocks, if e == Serve(true) then [Requested] else [], RequestedBlocks(events[1..]));
    }
  }

  // ----- cancelling and joining -----

  /** How many more steps the cancelled task can take while the handler holds the lock. */
  function StepsLeft(place: Place): nat {
    match place
    case Sleeping => 2
    case Locking => 1
    case Mining => 3
    case Ended => 0
  }

  /** The number of events of task `i`. */
  function StepsOf(events: seq<Event>, i: nat): nat {
    if events == [] then 0
    else StepsOf(events[1..], i) + if IsTaskEvent(events[0]) && events[0].task == i then 1 else 0
  }

  /** Each further event of the task counts once. */
  lemma {:induction false} StepsOfAppend(events: seq<Event>, e: Event, i: nat)
    ensures StepsOf(events + [e], i) == StepsOf(events, i) + if IsTaskEvent(e) && e.task == i then 1 else 0
    ensures StepsOf([], i) == 0
  {
    if events == [] {
      assert [e][1..] == [] && events + [e] == [e];
    } else {
      assert (events + [e])[1..] == events[1..] + [e];
      StepsOfAppend(events[1..], e, i);
    }
  }

  predicate JoinsTask(s: State, i: nat) {
    s.handler.Joining? && s.handler.previous == i
  }

  /** While the handler joins, it and the chain stand still; each step of the joined task
      brings that task strictly closer to its end and no other step affects it. */
  lemma StepWhileJoining(s: State, e: Event, i: nat)
    requires Sound(s) && JoinsTask(s, i) && e != Join && Apply(true, s, e).Some?
    ensures var t := Apply(true, s, e).value;
            && t.handler == s.handler && t.blocks == s.blocks && i < |t.tasks| == |s.tasks|
            && StepsLeft(t.tasks[i].place) + StepsOf([e], i) <= StepsLeft(s.tasks[i].place)
  {
    assert [e][1..] == [];
    assert TaskSound(s, i);
    if IsTaskEvent(e) {
      assert TaskSound(s, e.task);
    }
  }

  lemma StepsOfFirst(events: seq<Event>, i: nat)
    requires events != []
    ensures StepsOf(events, i) == StepsOf([events[0]], i) + StepsOf(events[1..], i)
  {
    assert [events[0]][1..] == [];
  }

  /**
    * Between the cancellation and the join, in every interleaving: no block is mined by
    * anyone, the cancelled task takes at most two more steps, and at every point either
    * the task has ended and the join can happen, or the task can take a step that ends
    * it. So the handler cannot be left waiting.
    */
  lemma {:induction false} CancellationCompletes(s: State, events: seq<Event>, i: nat)
    requires Sound(s) && JoinsTask(s, i) && Join !in events && Run(true, s, events).Some?
    ensures var t := Run(true, s, events).value;
            && t.handler == s.handler && t.blocks == s.blocks && i < |t.tasks|
            && StepsOf(events, i) <= 2
            && StepsOf(events, i) + StepsLeft(t.tasks[i].place) <= StepsLeft(s.tasks[i].place)
            && (t.tasks[i].place.Ended? ==> Apply(true, t, Join).Some?)
            && (!t.tasks[i].place.Ended? ==>
                  var stopped := Apply(true, t, Cancel(i));
                  stopped.Some? && stopped.value.tasks[i].place.Ended? && Apply(true, stopped.value, Join).Some?)
    decreases |events|
  {
    assert TaskSound(s, i);
    hide Sound, StepsOf, TaskSound;
    if events == [] {
      StepsOfAppend([], Tick, i);
      StopEnabled(s, i);
    } else {
      StepIsSound(true, s, events[0]);
      StepWhileJoining(s, events[0], i);
      StepsOfFirst(events, i);
      hide Apply;
      CancellationCompletes(Apply(true, s, events[0]).value, events[1..], i);
    }
  }

  /** The same for every run of the provider: whatever led to the join, it completes. */
  lemma ReplacingTheMinerNeverDeadlocks(config: Option<Interval>, firstDelay: nat, before: seq<Event>,
                                        after: seq<Event>)
    requires config.Some? ==> InInterval(config.value, firstDelay)
    requires Run(true, Start(config, firstDelay), before).Some?
    requires var s := Run(true, Start(config, firstDelay), before).value;
             s.handler.Joining? && Join !in after && Run(true, s, after).Some?
    ensures var s := Run(true, Start(config, firstDelay), before).value;
            var t := Run(true, s, after).value;
            var i := s.handler.previous;
            && t.blocks == s.blocks && StepsOf(after, i) <= 2
            && (Apply(true, t, Join).Some?
                || (Apply(true, t, Cancel(i)).Some? && Apply(true, Apply(true, t, Cancel(i)).value, Join).Some?))
  {
    hide Run, Apply, Sound;
    StartIsSound(config, firstDelay);
    RunIsSound(true, Start(config, firstDelay), before);
    var s := Run(true, Start(config, firstDelay), before).value;
    CancellationCompletes(s, after, s.handler.previous);
  }

  lemma StopEnabled(s: State, i: nat)
    requires Sound(s) && JoinsTask(s, i)
    ensures i < |s.tasks| && !s.tasks[i].place.Mining?
    ensures s.tasks[i].place.Ended? ==> Apply(true, s, Join).Some?
    ensures !s.tasks[i].place.Ended? ==>
              var stopped := Apply(true, s, Cancel(i));
              stopped.Some? && stopped.value.tasks[i].place.Ended? && Apply(true, stopped.value, Join).Some?
  {
    assert TaskSound(s, i);
  }

  // ----- a task that has ended stays out -----

  function BlocksOf(blocks: seq<Block>, i: nat): nat {
    if blocks == [] then 0
    else
      var last := blocks[|blocks| - 1];
      BlocksOf(blocks[..|blocks| - 1], i) + if last.Mined? && last.task == i then 1 else 0
  }

  lemma BlocksOfAppend(blocks: seq<Block>, b: Block, i: nat)
    ensures BlocksOf(blocks + [b], i) == BlocksOf(blocks, i) + if b.Mined? && b.task == i then 1 else 0
  {
    assert (blocks + [b])[..|blocks|] == blocks;
  }

  lemma EndedStaysEnded(s: State, e: Event, i: nat)
    requires i < |s.tasks| && s.tasks[i].place.Ended? && Apply(true, s, e).Some?
    ensures var t := Apply(true, s, e).value;
            i < |t.tasks| && t.tasks[i].place.Ended? && BlocksOf(t.blocks, i) == BlocksOf(s.blocks, i)
  {
    hide BlocksOf;
    forall b: Block {
      BlocksOfAppend(s.blocks, b, i);
    }
  }

  /** Once a miner has been replaced (or has failed), it never adds a block again. */
  lemma {:induction false} ReplacedMinerNeverMines(s: State, events: seq<Event>, i: nat)
    requires i < |s.tasks| && s.tasks[i].place.Ended? && Run(true, s, events).Some?
    ensures BlocksOf(Run(true, s, events).value.blocks, i) == BlocksOf(s.blocks, i)
    decreases |events|
  {
    hide Apply, BlocksOf;
    if events != [] {
      EndedStaysEnded(s, events[0], i);
      ReplacedMinerNeverMines(Apply(true, s, events[0]).value, events[1..], i);
    }
  }

  // ----- the interval -----

  /** When task `i` last started mining, if it has mined. */
  function LatestStart(blocks: seq<Block>, i: nat): Option<nat> {
    if blocks == [] then None
    else
      var last := blocks[|blocks| - 1];
      if last.Mined? && last.task == i then Some(last.started) else LatestStart(blocks[..|blocks| - 1], i)
  }

  /** Each mined block starts at least the minimum interval after its task's previous one. */
  predicate Spaced(blocks: seq<Block>) {
    blocks == [] ||
    var last := blocks[|blocks| - 1];
    var earlier := blocks[..|blocks| - 1];
    && Spaced(earlier)
    && (last.Mined? && LatestStart(earlier, last.task).Some? ==>
          LatestStart(earlier, last.task).value + last.interval.0 <= last.started)
  }

  /** What task `i`'s clock owes to the block it mined last. */
  predicate Paced(s: State, i: nat)
    requires i < |s.tasks|
  {
    var latest := LatestStart(s.blocks, i);
    var task := s.tasks[i];
    latest.Some? ==> latest.value + (if task.place.Mining? then task.interval.0 else 0) <= task.now
  }

  ghost predicate AllPaced(s: State) {
    && Spaced(s.blocks)
    && (forall i: nat {:trigger LatestStart(s.blocks, i)} :: |s.tasks| <= i ==> LatestStart(s.blocks, i).None?)
    && (forall i {:trigger s.tasks[i]} :: 0 <= i < |s.tasks| ==> Paced(s, i))
  }

  lemma LatestStartAppend(blocks: seq<Block>, b: Block, i: nat)
    ensures LatestStart(blocks + [b], i)
         == if b.Mined? && b.task == i then Some(b.started) else LatestStart(blocks, i)
  {
    assert (blocks + [b])[..|blocks|] == blocks;
  }

  lemma SpacedAppend(blocks: seq<Block>, b: Block)
    requires Spaced(blocks)
    requires b.Mined? && LatestStart(blocks, b.task).Some? ==>
               LatestStart(blocks, b.task).value + b.interval.0 <= b.started
    ensures Spaced(blocks + [b])
  {
    assert (blocks + [b])[..|blocks|] == blocks;
  }

  lemma HandlerStepIsPaced(s: State, e: Event)
    requires Sound(s) && AllPaced(s) && ApplyHandler(s, e).Some?
    ensures AllPaced(ApplyHandler(s, e).value)
  {
    hide LatestStart, Spaced;
    var t := ApplyHandler(s, e).value;
    forall i: nat {
      LatestStartAppend(s.blocks, Requested, i);
    }
    SpacedAppend(s.blocks, Requested);
    forall i | 0 <= i < |t.tasks| ensures Paced(t, i) {
      assert i < |s.tasks| ==> Paced(s, i);
    }
  }

  lemma TaskStepIsPaced(s: State, i: nat, e: Event)
    requires Sound(s) && AllPaced(s) && i < |s.tasks| && ApplyTask(true, s, i, e).Some?
    ensures AllPaced(ApplyTask(true, s, i, e).value)
  {
    hide LatestStart, Spaced;
    var t := ApplyTask(true, s, i, e).value;
    var task := s.tasks[i];
    assert TaskSound(s, i) && Paced(s, i);
    var b := Mined(i, task.now, task.interval);
    forall j: nat {
      LatestStartAppend(s.blocks, b, j);
    }
    if e.Mine? && e.ok {
      SpacedAppend(s.blocks, b);
    }
    forall j | 0 <= j < |t.tasks| ensures Paced(t, j) {
      assert Paced(s, j);
    }
  }

  lemma StepIsPaced(s: State, e: Event)
    requires Sound(s) && AllPaced(s) && Apply(true, s, e).Some?
    ensures AllPaced(Apply(true, s, e).value)
  {
    hide ApplyHandler, ApplyTask;
    if e.Tick? {
      var t := Apply(true, s, e).value;
      forall i | 0 <= i < |t.tasks| ensures Paced(t, i) {
        assert Paced(s, i);
      }
    } else if IsTaskEvent(e) {
      TaskStepIsPaced(s, e.task, e);
    } else {
      HandlerStepIsPaced(s, e);
    }
  }

  lemma {:induction false} RunIsPaced(s: State, events: seq<Event>)
    requires Sound(s) && AllPaced(s) && Run(true, s, events).Some?
    ensures AllPaced(Run(true, s, events).value)
    decreases |events|
  {
    hide Sound, AllPaced, Apply;
    if events != [] {
      StepIsSound(true, s, events[0]);
      StepIsPaced(s, events[0]);
      RunIsPaced(Apply(true, s, events[0]).value, events[1..]);
    }
  }

  lemma StartIsPaced(config: Option<Interval>, firstDelay: nat)
    ensures AllPaced(Start(config, firstDelay))
  {
    var s := Start(config, firstDelay);
    assert s.blocks == [] && Spaced([]);
    forall i: nat
      ensures LatestStart(s.blocks, i).None?
    {
      assert LatestStart([], i).None?;
    }
    forall i | 0 <= i < |s.tasks| ensures Paced(s, i) {
    }
  }

  /** The same for any two blocks of a task, whatever lies between them. */
  lemma {:induction false} SpacedPairs(blocks: seq<Block>, j: nat, k: nat)
    requires Spaced(blocks) && j < k < |blocks|
    requires blocks[j].Mined? && blocks[k].Mined? && blocks[j].task == blocks[k].task
    ensures blocks[j].started + blocks[k].interval.0 <= blocks[k].started
  {
    if k < |blocks| - 1 {
      SpacedPairs(blocks[..|blocks| - 1], j, k);
    } else {
      LatestIsLate(blocks[..k], j);
    }
  }

  lemma {:induction false} LatestIsLate(blocks: seq<Block>, j: nat)
    requires Spaced(blocks) && j < |blocks| && blocks[j].Mined?
    ensures var latest := LatestStart(blocks, blocks[j].task);
            latest.Some? && blocks[j].started <= latest.value
  {
    if j < |blocks| - 1 {
      LatestIsLate(blocks[..|blocks| - 1], j);
    }
  }

  /** In every run, any two blocks of one miner start at least its minimum interval apart. */
  lemma BlocksAreSpaced(config: Option<Interval>, firstDelay: nat, events: seq<Event>)
    requires config.Some? ==> InInterval(config.value, firstDelay)
    requires Run(true, Start(config, firstDelay), events).Some?
    ensures var blocks := Run(true, Start(config, firstDelay), events).value.blocks;
            forall j, k :: 0 <= j < k < |blocks| && blocks[j].Mined? && blocks[k].Mined?
                           && blocks[j].task == blocks[k].task ==>
              blocks[j].started + blocks[k].interval.0 <= blocks[k].started
  {
    hide Run, Spaced;
    StartIsSound(config, firstDelay);
    StartIsPaced(config, firstDelay);
    RunIsPaced(Start(config, firstDelay), events);
    var blocks := Run(true, Start(config, firstDelay), events).value.blocks;
    forall j, k | 0 <= j < k < |blocks| && blocks[j].Mined? && blocks[k].Mined? && blocks[j].task == blocks[k].task
      ensures blocks[j].started + blocks[k].interval.0 <= blocks[k].started
    {
      SpacedPairs(blocks, j, k);
    }
  }

  // ----- what is mined -----

  function IntervalsOf(tasks: seq<Task>): seq<Interval> {
    seq(|tasks|, i requires 0 <= i < |tasks| => tasks[i].interval)
  }

  /** The block an event tells of. `starts` are the times at which tasks last took the lock,
      `intervals` their intervals. */
  function Told(e: Event, starts: map<nat, nat>, intervals: seq<Interval>): seq<Block> {
    match e
    case Serve(true) => [Requested]
    case Mine(i, true, _) => if i in starts && i < |intervals| then [Mined(i, starts[i], intervals[i])] else []
    case _ => []
  }

  /** The blocks of a run as its events tell them: one for every request that mines and one
      for every successful mining step of a task, which started when that task last took the
      lock. */
  function Chronicle(clock: nat, starts: map<nat, nat>, intervals: seq<Interval>, events: seq<Event>): seq<Block>
    decreases |events|
  {
    if events == [] then []
    else
      var e := events[0];
      Told(e, starts, intervals)
      + Chronicle(if e.Tick? then clock + 1 else clock,
                  if e.TakeLock? then starts[e.task := clock] else starts,
                  if e.Spawn? && e.config.Some? then intervals + [e.config.value] else intervals,
                  events[1..])
  }

  /** `starts` has the time at which a task that is mining took the lock. */
  predicate KnowsStarts(tasks: seq<Task>, starts: map<nat, nat>) {
    forall i :: 0 <= i < |tasks| && tasks[i].place.Mining? ==> i in starts && starts[i] == tasks[i].now
  }

  lemma HandlerStepIsChronicled(s: State, e: Event, starts: map<nat, nat>)
    requires KnowsStarts(s.tasks, starts) && ApplyHandler(s, e).Some?
    ensures var t := ApplyHandler(s, e).value;
            && KnowsStarts(t.tasks, starts) && t.clock == s.clock
            && t.blocks == s.blocks + Told(e, starts, IntervalsOf(s.tasks))
            && IntervalsOf(t.tasks)
               == (if e.Spawn? && e.config.Some? then IntervalsOf(s.tasks) + [e.config.value] else IntervalsOf(s.tasks))
  {
  }

  lemma TaskStepIsChronicled(s: State, e: Event, starts: map<nat, nat>)
    requires KnowsStarts(s.tasks, starts) && IsTaskEvent(e) && Apply(true, s, e).Some?
    ensures var t := Apply(true, s, e).value;
            && KnowsStarts(t.tasks, if e.TakeLock? then starts[e.task := s.clock] else starts)
            && t.clock == s.clock && IntervalsOf(t.tasks) == IntervalsOf(s.tasks)
            && t.blocks == s.blocks + Told(e, starts, IntervalsOf(s.tasks))
  {
  }

  lemma StepIsChronicled(s: State, e: Event, starts: map<nat, nat>)
    requires KnowsStarts(s.tasks, starts) && Apply(true, s, e).Some?
    ensures var t := Apply(true, s, e).value;
            && KnowsStarts(t.tasks, if e.TakeLock? then starts[e.task := s.clock] else starts)
            && t.clock == (if e.Tick? then s.clock + 1 else s.clock)
            && IntervalsOf(t.tasks)
               == (if e.Spawn? && e.config.Some? then IntervalsOf(s.tasks) + [e.config.value] else IntervalsOf(s.tasks))
            && t.blocks == s.blocks + Told(e, starts, IntervalsOf(s.tasks))
  {
    hide ApplyHandler, KnowsStarts, IntervalsOf;
    if IsTaskEvent(e) {
      TaskStepIsChronicled(s, e, starts);
    } else if !e.Tick? {
      HandlerStepIsChronicled(s, e, starts);
    }
  }

  /** The blocks of every run are exactly the ones its events tell. */
  lemma {:induction false} RunIsChronicled(s: State, starts: map<nat, nat>, events: seq<Event>)
    requires KnowsStarts(s.tasks, starts) && Run(true, s, events).Some?
    ensures Run(true, s, events).value.blocks == s.blocks + Chronicle(s.clock, starts, IntervalsOf(s.tasks), events)
    decreases |events|
  {
    hide Apply, KnowsStarts, IntervalsOf, Told;
    if events != [] {
      var e := events[0];
      StepIsChronicled(s, e, starts);
      RunIsChronicled(Apply(true, s, e).value, if e.TakeLock? then starts[e.task := s.clock] else starts, events[1..]);
    }
  }

  lemma BlocksAreChronicled(config: Option<Interval>, firstDelay: nat, events: seq<Event>)
    requires Run(true, Start(config, firstDelay), events).Some?
    ensures Run(true, Start(config, firstDelay), events).value.blocks
         == Chronicle(0, map[], if config.Some? then [config.value] else [], events)
  {
    hide Run, Chronicle;
    RunIsChronicled(Start(config, firstDelay), map[], events);
    assert IntervalsOf(Start(config, firstDelay).tasks) == if config.Some? then [config.value] else [];
  }

  // ----- progress -----

  function Ticks(n: nat): seq<Event> {
    if n == 0 then [] else [Tick] + Ticks(n - 1)
  }

  lemma {:induction false} TicksPass(s: State, n: nat, rest: seq<Event>)
    ensures Run(true, s, Ticks(n) + rest) == Run(true, s.(clock := s.clock + n), rest)
    decreases n
  {
    if n == 0 {
      assert Ticks(n) + rest == rest;
    } else {
      assert (Ticks(n) + rest)[1..] == Ticks(n - 1) + rest;
      TicksPass(s.(clock := s.clock + 1), n - 1, rest);
    }
  }

  /** When task `i` starts its next block, if nobody gets in its way. */
  function NextStart(s: State, i: nat): nat
    requires i < |s.tasks|
  {
    var task := s.tasks[i];
    match task.place
    case Sleeping => if task.deadline <= s.clock then s.clock else task.deadline
    case Mining => task.now
    case _ => s.clock
  }

  /** The ticks it still has to sleep, and its steps up to the end of that block. */
  function Round(s: State, i: nat, delay: nat): seq<Event>
    requires i < |s.tasks|
  {
    match s.tasks[i].place
    case Sleeping => Ticks(NextStart(s, i) - s.clock) + [Expire(i), TakeLock(i), Mine(i, true, delay)]
    case Locking => [TakeLock(i), Mine(i, true, delay)]
    case Mining => [Mine(i, true, delay)]
    case Ended => []
  }

  /** The miner after it has mined a block that started at `start`. */
  function AfterRound(s: State, i: nat, delay: nat): State
    requires i < |s.tasks|
  {
    var task, start := s.tasks[i], NextStart(s, i);
    s.(clock := if task.place.Sleeping? then start else s.clock,
       lock := Free,
       blocks := s.blocks + [Mined(i, start, task.interval)],
       tasks := s.tasks[i := task.(place := Sleeping, now := start, deadline := start + delay)])
  }

  lemma MiningEnds(s: State, i: nat, delay: nat, rest: seq<Event>)
    requires i < |s.tasks| && s.tasks[i].place.Mining? && InInterval(s.tasks[i].interval, delay)
    ensures Run(true, s, [Mine(i, true, delay)] + rest) == Run(true, AfterRound(s, i, delay), rest)
  {
    assert ([Mine(i, true, delay)] + rest)[1..] == rest;
  }

  lemma LockingEnds(s: State, i: nat, delay: nat, rest: seq<Event>)
    requires i < |s.tasks| && s.tasks[i].place.Locking? && s.lock.Free? && InInterval(s.tasks[i].interval, delay)
    ensures Run(true, s, [TakeLock(i), Mine(i, true, delay)] + rest) == Run(true, AfterRound(s, i, delay), rest)
  {
    var next := Apply(true, s, TakeLock(i)).value;
    var events := [TakeLock(i), Mine(i, true, delay)] + rest;
    assert events[1..] == [Mine(i, true, delay)] + rest;
    MiningEnds(next, i, delay, rest);
    assert AfterRound(next, i, delay) == AfterRound(s, i, delay);
  }

  lemma SleepEnds(s: State, i: nat, delay: nat, rest: seq<Event>)
    requires i < |s.tasks| && s.tasks[i].place.Sleeping? && s.lock.Free? && InInterval(s.tasks[i].interval, delay)
    ensures Run(true, s, Round(s, i, delay) + rest) == Run(true, AfterRound(s, i, delay), rest)
  {
    var n := NextStart(s, i) - s.clock;
    var steps := [Expire(i), TakeLock(i), Mine(i, true, delay)];
    var woken := s.(clock := s.clock + n);
    assert Ticks(n) + steps + rest == Ticks(n) + (steps + rest);
    TicksPass(s, n, steps + rest);
    var locking := Apply(true, woken, Expire(i)).value;
    assert (steps + rest)[1..] == [TakeLock(i), Mine(i, true, delay)] + rest;
    LockingEnds(locking, i, delay, rest);
    assert AfterRound(locking, i, delay) == AfterRound(s, i, delay);
  }

  /** While no request is being handled, the miner can always go on, by its own steps and the
      passing of time alone, to mine its next block, wherever it stands. */
  lemma MinerProgresses(s: State, i: nat, delay: nat, rest: seq<Event>)
    requires Sound(s) && s.handler.Idle? && i < |s.tasks| && !s.tasks[i].place.Ended?
    requires InInterval(s.tasks[i].interval, delay)
    ensures Run(true, s, Round(s, i, delay) + rest) == Run(true, AfterRound(s, i, delay), rest)
    ensures NextStart(s, i) <= s.clock || NextStart(s, i) <= s.tasks[i].now + s.tasks[i].interval.1
  {
    assert TaskSound(s, i);
    if s.lock.ByTask? {
      assert TaskSound(s, s.lock.task);
      assert s.lock.task == i;
    }
    match s.tasks[i].place
    case Sleeping => SleepEnds(s, i, delay, rest);
    case Locking => LockingEnds(s, i, delay, rest);
    case Mining => MiningEnds(s, i, delay, rest);
  }

  /** Blocks that start one delay after the other. */
  function Series(i: nat, interval: Interval, start: nat, delays: seq<nat>): seq<Block>
    decreases |delays|
  {
    if delays == [] then []
    else [Mined(i, start, interval)] + Series(i, interval, start + delays[0], delays[1..])
  }

  function Rounds(s: State, i: nat, delays: seq<nat>): seq<Event>
    requires i < |s.tasks|
    decreases |delays|
  {
    if delays == [] then [] else Round(s, i, delays[0]) + Rounds(AfterRound(s, i, delays[0]), i, delays[1..])
  }

  lemma AfterRoundIsSound(s: State, i: nat, delay: nat)
    requires Sound(s) && s.lock.Free? && i < |s.tasks| && !s.tasks[i].place.Ended?
    requires InInterval(s.tasks[i].interval, delay)
    ensures var t := AfterRound(s, i, delay);
            Sound(t) && t.lock.Free? && t.tasks[i].interval == s.tasks[i].interval
            && t.tasks[i].place.Sleeping? && NextStart(t, i) == NextStart(s, i) + delay
  {
    var t := AfterRound(s, i, delay);
    assert TaskSound(s, i);
    forall j | 0 <= j < |t.tasks| ensures TaskSound(t, j) {
      assert TaskSound(s, j);
    }
  }

  /** From every point of every run at which nobody holds the lock, whatever delays are drawn,
      the installed miner can mine block after block, each exactly one delay after the
      start of the one before. */
  lemma {:induction false} MinerKeepsItsPace(s: State, i: nat, delays: seq<nat>)
    requires Sound(s) && s.lock.Free? && i < |s.tasks| && !s.tasks[i].place.Ended?
    requires forall k :: 0 <= k < |delays| ==> InInterval(s.tasks[i].interval, delays[k])
    ensures var t := Run(true, s, Rounds(s, i, delays));
            t.Some? && t.value.blocks == s.blocks + Series(i, s.tasks[i].interval, NextStart(s, i), delays)
    decreases |delays|
  {
    hide Run, Sound, InInterval, Round;
    if delays == [] {
      RunOfNothing(s);
    } else {
      var next := AfterRound(s, i, delays[0]);
      LockIsFreeWhileIdle(s);
      MinerProgresses(s, i, delays[0], Rounds(next, i, delays[1..]));
      AfterRoundIsSound(s, i, delays[0]);
      MinerKeepsItsPace(next, i, delays[1..]);
    }
  }

  lemma LockIsFreeWhileIdle(s: State)
    requires Sound(s) && s.lock.Free?
    ensures s.handler.Idle?
  {
  }

  lemma RunOfNothing(s: State)
    ensures Run(true, s, []) == Some(s)
  {
  }

  function Even(i: nat, interval: Interval, start: nat, step: nat, n: nat): seq<Block> {
    seq(n, k requires 0 <= k < n => Mined(i, start + k * step, interval))
  }

  lemma {:induction false} SeriesIsEven(i: nat, interval: Interval, start: nat, step: nat, n: nat)
    ensures Series(i, interval, start, seq(n, _ => step)) == Even(i, interval, start, step, n)
    decreases n
  {
    if n > 0 {
      var delays := seq(n, _ => step);
      assert delays[1..] == seq(n - 1, _ => step);
      SeriesIsEven(i, interval, start + step, step, n - 1);
      var even := Even(i, interval, start, step, n);
      assert even == [even[0]] + even[1..];
      var rest := Even(i, interval, start + step, step, n - 1);
      forall k | 0 <= k < |rest|
        ensures rest[k] == even[1..][k]
      {
        assert start + step + k * step == start + (k + 1) * step;
      }
      assert even[1..] == rest;
    }
  }

  /** A provider that is left alone with a fixed interval mines a block at each multiple of it. */
  lemma FixedIntervalMinesEvenly(interval: nat, n: nat)
    ensures var s := Start(Some((interval, interval)), interval);
            var t := Run(true, s, Rounds(s, 0, seq(n, _ => interval)));
            t.Some? && t.value.blocks == Even(0, (interval, interval), interval, interval, n)
  {
    var s := Start(Some((interval, interval)), interval);
    StartIsSound(Some((interval, interval)), interval);
    hide Run, Rounds, Sound;
    MinerKeepsItsPace(s, 0, seq(n, _ => interval));
    SeriesIsEven(0, (interval, interval), interval, interval, n);
  }

  /** Whenever nobody holds the lock, a request gets it, is served, and leaves everything but
      the block it may have mined as it was. */
  lemma RequestIsServed(s: State, mines: bool)
    requires Sound(s) && s.lock.Free?
    ensures Run(true, s, [Acquire, Serve(mines), Release])
         == Some(if mines then s.(blocks := s.blocks + [Requested]) else s)
  {
    var s1 := Apply(true, s, Acquire).value;
    var s2 := Apply(true, s1, Serve(mines)).value;
    assert [Release][1..] == [] && [Serve(mines), Release][1..] == [Release];
    assert Run(true, s2, [Release]) == Apply(true, s2, Release);
    assert [Acquire, Serve(mines), Release][1..] == [Serve(mines), Release];
    assert Run(true, s1, [Serve(mines), Release]) == Run(true, s2, [Release]);
  }

  // ----- what ends and what replaces a miner -----

  lemma StepThatEnds(s: State, e: Event, i: nat)
    requires i < |s.tasks| && !s.tasks[i].place.Ended? && Apply(true, s, e).Some?
    ensures var t := Apply(true, s, e).value;
            && i < |t.tasks|
            && (t.tasks[i].place.Ended? <==> e == Cancel(i) || (e.Mine? && e.task == i && !e.ok))
            && (e == Cancel(i) ==> s.tasks[i].cancelled)
            && (t.tasks[i].cancelled && !s.tasks[i].cancelled ==> e == Replace && s.miner == Some(i))
  {
  }

  /** A miner that fails to mine ends without a block and gives the lock back, so that the
      next request is served. */
  lemma FailedMinerGivesWay(s: State, i: nat, delay: nat, mines: bool)
    requires Sound(s) && i < |s.tasks| && s.tasks[i].place.Mining? && InInterval(s.tasks[i].interval, delay)
    ensures var t := Apply(true, s, Mine(i, false, delay));
            && t.Some? && t.value.tasks[i].place.Ended? && t.value.blocks == s.blocks
            && Run(true, t.value, [Acquire, Serve(mines), Release]).Some?
  {
    StepIsSound(true, s, Mine(i, false, delay));
    RequestIsServed(Apply(true, s, Mine(i, false, delay)).value, mines);
  }

  /** A miner that nobody replaces and that does not fail goes on. */
  lemma {:induction false} MinerSurvives(s: State, events: seq<Event>, i: nat)
    requires i < |s.tasks| && !s.tasks[i].place.Ended? && !s.tasks[i].cancelled && Run(true, s, events).Some?
    requires Replace !in events && forall delay :: Mine(i, false, delay) !in events
    ensures var t := Run(true, s, events).value;
            i < |t.tasks| && !t.tasks[i].place.Ended? && !t.tasks[i].cancelled
    decreases |events|
  {
    hide Apply;
    if events != [] {
      StepThatEnds(s, events[0], i);
      MinerSurvives(Apply(true, s, events[0]).value, events[1..], i);
    }
  }

  /** The miner that a configuration asks for when it is the next to be spawned. */
  function Configured(s: State, config: Option<Interval>): Option<nat> {
    if config.Some? then Some(|s.tasks|) else None
  }

  /** Replacing the miner starts a task with the new interval, asleep until its first delay
      has passed, and installs it, at once if there is no task to stop, and otherwise by the
      join, whatever happens in between. */
  lemma ReplacingInstallsConfig(s: State, config: Option<Interval>, firstDelay: nat, between: seq<Event>)
    requires Sound(s) && s.handler.Serving? && (config.Some? ==> InInterval(config.value, firstDelay))
    ensures var spawned := Apply(true, s, Spawn(config, firstDelay));
            spawned.Some? && Apply(true, spawned.value, Replace).Some?
    ensures var t := Apply(true, Apply(true, s, Spawn(config, firstDelay)).value, Replace).value;
            && (config.Some? ==>
                  t.tasks[|s.tasks|..] == [Task(Sleeping, config.value, s.clock, s.clock + firstDelay, false)])
            && (t.handler.Serving? ==> t.miner == Configured(s, config))
            && (t.handler.Serving? <==> s.miner.None? || s.tasks[s.miner.value].place.Ended?)
            && (!t.handler.Serving? && Join !in between && Run(true, t, between).Some? ==>
                  var joined := Apply(true, Run(true, t, between).value, Join);
                  joined.Some? ==> joined.value.handler.Serving? && joined.value.miner == Configured(s, config))
  {
    var spawned := Apply(true, s, Spawn(config, firstDelay)).value;
    StepIsSound(true, s, Spawn(config, firstDelay));
    var t := Apply(true, spawned, Replace).value;
    StepIsSound(true, spawned, Replace);
    if !t.handler.Serving? && Join !in between && Run(true, t, between).Some? {
      CancellationCompletes(t, between, t.handler.previous);
    }
  }

  // ----- why the task checks twice -----

  /** A task that waits for the lock, cancelled, while the handler that holds it joins it. */
  function Stuck(): State {
    State(1, ByHandler, Joining(0, None), [Task(Locking, (1, 1), 0, 1, true)], Some(0), [])
  }

  lemma {:induction false} StuckForever(s: State, events: seq<Event>)
    requires s == Stuck().(clock := s.clock) && Run(false, s, events).Some?
    ensures Run(false, s, events).value.handler == Joining(0, None)
    decreases |events|
  {
    if events != [] {
      StuckForever(Apply(false, s, events[0]).value, events[1..]);
    }
  }

  /** A task that watched for cancellation only while sleeping would deadlock: replacing
      the miner just after its timer expired leads to a state from which no run ever
      completes the join. */
  lemma WithoutInnerCheckItDeadlocks(events: seq<Event>)
    ensures Run(false, Start(Some((1, 1)), 1), [Tick, Expire(0), Acquire, Spawn(None, 0), Replace]) == Some(Stuck())
    ensures Run(false, Stuck(), events).Some? ==>
              Run(false, Stuck(), events).value.handler == Joining(0, None)
  {
    var s0 := Start(Some((1, 1)), 1);
    var s1 := Apply(false, s0, Tick).value;
    var s2 := Apply(false, s1, Expire(0)).value;
    var s3 := Apply(false, s2, Acquire).value;
    var s4 := Apply(false, s3, Spawn(None, 0)).value;
    assert s4.tasks == [Task(Locking, (1, 1), 0, 1, false)];
    assert Apply(false, s4, Replace).value.tasks == Stuck().tasks;
    assert Run(false, s4, [Replace]) == Some(Stuck());
    assert [Spawn(None, 0), Replace][1..] == [Replace];
    assert Run(false, s3, [Spawn(None, 0), Replace]) == Some(Stuck());
    assert [Acquire, Spawn(None, 0), Replace][1..] == [Spawn(None, 0), Replace];
    assert Run(false, s2, [Acquire, Spawn(None, 0), Replace]) == Some(Stuck());
    assert [Expire(0), Acquire, Spawn(None, 0), Replace][1..] == [Acquire, Spawn(None, 0), Replace];
    assert Run(false, s1, [Expire(0), Acquire, Spawn(None, 0), Replace]) == Some(Stuck());
    var all := [Tick, Expire(0), Acquire, Spawn(None, 0), Replace];
    assert all[1..] == [Expire(0), Acquire, Spawn(None, 0), Replace];
    if Run(false, Stuck(), events).Some? {
      StuckForever(Stuck(), events);
    }
  }
}
