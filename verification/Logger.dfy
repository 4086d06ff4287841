/**
  * The provider's console logger: lines are collected while a request is handled and
  * printed when it ends; runs of empty blocks and repeated methods are collapsed into
  * the line printed before. Colours, indentation and wording are not modelled. A call
  * that panics is modelled as `None`.
  */
module Logger {
  import opened Prelude

  datatype Line =
    | Text(text: string) | Blank | MethodLine(rpc: string, count: nat) | ErrorLine(rpc: string)
    | EmptyBlock(number: nat) | EmptyRange(first: nat, last: nat) | MinedBlock(number: nat)

  datatype Block = Empty(number: nat) | Full(number: nat, details: seq<Line>)

  datatype LoggingState =
    | Collapsing(rpc: string, count: nat)
    | HardhatMining(start: Option<nat>)
    | IntervalMining(start: Option<nat>)
    | Nothing

  /** `logs` are the lines still to be printed, `printed` the console. */
  datatype Log = Log(enabled: bool, state: LoggingState, logs: seq<Line>, printed: seq<Line>)

  // ----- printing -----

  function Print(s: Log, line: Line, replace: bool): Log {
    if !s.enabled then s
    else s.(printed := (if replace && s.printed != [] then s.printed[..|s.printed| - 1] else s.printed) + [line])
  }

  function PrintAll(s: Log, lines: seq<Line>): Log {
    if s.enabled then s.(printed := s.printed + lines) else s
  }

  /** All pending lines are taken, whether or not anything reaches the console. */
  function PrintLogs(s: Log): Log {
    PrintAll(s, s.logs).(logs := [])
  }

  // ----- mining on request -----

  function HardhatStart(state: LoggingState): Option<nat> {
    if state.HardhatMining? then state.start else None
  }

  function IntervalStart(state: LoggingState): Option<nat> {
    if state.IntervalMining? then state.start else None
  }

  function StartOr(start: Option<nat>, number: nat): nat {
    if start.Some? then start.value else number
  }

  function BlockLines(block: Block, isLast: bool): seq<Line>
    requires block.Full?
  {
    [MinedBlock(block.number)] + block.details + if isLast then [] else [Blank]
  }

  function LogMinedBlock(s: Log, block: Block, isLast: bool): Option<Log> {
    var start := HardhatStart(s.state);
    match block
    case Empty(number) =>
      if start.Some? && s.logs == [] then None
      else
        var logs := if start.Some? then s.logs[..|s.logs| - 1] + [EmptyRange(start.value, number)]
                    else s.logs + [EmptyBlock(number)];
        Some(s.(logs := logs, state := HardhatMining(Some(StartOr(start, number)))))
    case Full(_, _) => Some(s.(logs := s.logs + BlockLines(block, isLast), state := Nothing))
  }

  function LogMinedBlocks(s: Log, blocks: seq<Block>): Option<Log>
    decreases |blocks|
  {
    if blocks == [] then Some(s)
    else
      var next := LogMinedBlock(s, blocks[0], |blocks| == 1);
      if next.None? then None else LogMinedBlocks(next.value, blocks[1..])
  }

  // ----- interval mining -----

  function LogIntervalMined(s: Log, block: Block): Log {
    match block
    case Empty(number) =>
      var start := IntervalStart(s.state);
      var line := if start.Some? then EmptyRange(start.value, number) else EmptyBlock(number);
      Print(s, line, start.Some?).(state := IntervalMining(Some(StartOr(start, number))))
    case Full(number, details) =>
      var collected := Print(s.(logs := s.logs + details), MinedBlock(number), false);
      if collected.logs == [] then collected else Print(PrintLogs(collected), Blank, false)
  }

  // ----- a request -----

  datatype Error = Unsupported | TransactionFailed | Other(message: seq<Line>)

  datatype Outcome = Succeeded | Failed(error: Error)

  function PrintMethod(s: Log, rpc: string): Log {
    if s.state.Collapsing? && s.state.rpc == rpc then
      Print(s, MethodLine(rpc, s.state.count + 1), true).(state := Collapsing(rpc, s.state.count + 1))
    else
      Print(s, MethodLine(rpc, 1), false).(state := Collapsing(rpc, 1))
  }

  function PrintError(s: Log, rpc: string, error: Error): Log {
    var named := Print(s.(state := Nothing), ErrorLine(rpc), false);
    match error
    case Unsupported => named
    case TransactionFailed => Print(PrintLogs(named), Blank, false)
    case Other(message) => Print(PrintAll(PrintLogs(named), [Blank] + message), Blank, false)
  }

  function PrintMethodLogs(s: Log, rpc: string, outcome: Outcome): Log {
    match outcome
    case Succeeded =>
      var named := PrintMethod(s, rpc);
      if named.logs == [] then named else Print(PrintLogs(named), Blank, false)
    case Failed(error) => PrintError(s, rpc, error)
  }

  /** What a request does to the logger while it is handled. `Collect` stands for the
      calls that report a call, an estimate or a sent transaction. */
  datatype Action = Silent | Collect(lines: seq<Line>) | Mine(blocks: seq<Block>) | SetEnabled(enabled: bool)

  datatype Event =
    | Request(rpc: string, action: Action, outcome: Outcome)
    | IntervalMined(block: Block)
    | Undeserializable(rpc: string, error: Error)

  function Act(s: Log, action: Action): Option<Log> {
    match action
    case Silent => Some(s)
    case Collect(lines) => Some(s.(state := Nothing, logs := s.logs + lines))
    case Mine(blocks) => LogMinedBlocks(s, blocks)
    case SetEnabled(enabled) => Some(s.(enabled := enabled))
  }

  /** Only `hardhat_setLoggingEnabled` is private; whether a method is printed is decided
      before it runs. A request that cannot be read is reported without asking whether
      logging is enabled. */
  function Step(s: Log, e: Event): Option<Log> {
    match e
    case IntervalMined(block) => Some(LogIntervalMined(s, block))
    case Undeserializable(rpc, error) => Some(PrintMethodLogs(s, rpc, Failed(error)))
    case Request(rpc, action, outcome) =>
      var acted := Act(s, action);
      if acted.None? then None
      else Some(if s.enabled && !action.SetEnabled? then PrintMethodLogs(acted.value, rpc, outcome) else acted.value)
  }

  function Run(s: Log, events: seq<Event>): Option<Log>
    decreases |events|
  {
    if events == [] then Some(s)
    else
      var next := Step(s, events[0]);
      if next.None? then None else Run(next.value, events[1..])
  }

  const INITIAL := Log(true, Nothing, [], [])

  // ----- the collector, as the code updates it -----

  class LogCollector {
    var enabled: bool
    var state: LoggingState
    var logs: seq<Line>
    var printed: seq<Line>

    function View(): Log
      reads this
    {
      Log(enabled, state, logs, printed)
    }

    constructor (enabled: bool)
      ensures View() == INITIAL.(enabled := enabled)
    {
      this.enabled := enabled;
      state := Nothing;
      logs := [];
      printed := [];
    }

    method PrintLine(line: Line, replace: bool)
      modifies this
      ensures View() == Print(old(View()), line, replace)
    {
      if !enabled {
        return;
      }
      if replace && printed != [] {
        printed := printed[..|printed| - 1] + [line];
      } else {
        printed := printed + [line];
      }
    }

    method PrintPending() returns (any: bool)
      modifies this
      ensures View() == PrintLogs(old(View()))
      ensures any <==> old(logs) != []
    {
      var taken := logs;
      logs := [];
      if taken == [] {
        return false;
      }
      var i := 0;
      while i < |taken|
        invariant 0 <= i <= |taken|
        invariant View() == PrintAll(old(View()), taken[..i]).(logs := [])
      {
        PrintLine(taken[i], false);
        i := i + 1;
      }
      assert taken[..i] == taken;
      return true;
    }

    /** `false` where the code panics for want of a line. */
    method ReplaceLastLogLine(line: Line) returns (ok: bool)
      modifies this`logs
      ensures ok <==> old(logs) != []
      ensures logs == if ok then old(logs[..|logs| - 1]) + [line] else old(logs)
    {
      if logs == [] {
        return false;
      }
      logs := logs[|logs| - 1 := line];
      return true;
    }

    method MinedBlocks(blocks: seq<Block>) returns (ok: bool)
      modifies this
      ensures ok <==> LogMinedBlocks(old(View()), blocks).Some?
      ensures ok ==> View() == LogMinedBlocks(old(View()), blocks).value
    {
      hide LogMinedBlocks;
      var i := 0;
      assert blocks[0..] == blocks;
      while i < |blocks|
        invariant 0 <= i <= |blocks|
        invariant LogMinedBlocks(old(View()), blocks) == LogMinedBlocks(View(), blocks[i..])
      {
        ghost var before := View();
        assert blocks[i..][1..] == blocks[i + 1..];
        MinedStep(before, blocks[i..]);
        var start := HardhatStart(state);
        state := Nothing;
        match blocks[i] {
          case Empty(number) =>
            if start.Some? {
              var replaced := ReplaceLastLogLine(EmptyRange(start.value, number));
              if !replaced {
                return false;
              }
            } else {
              logs := logs + [EmptyBlock(number)];
            }
            state := HardhatMining(Some(StartOr(start, number)));
          case Full(number, details) =>
            logs := logs + [MinedBlock(number)] + details;
            if i < |blocks| - 1 {
              logs := logs + [Blank];
            }
            assert logs == before.logs + BlockLines(blocks[i], |blocks[i..]| == 1);
        }
        assert LogMinedBlock(before, blocks[i], |blocks[i..]| == 1) == Some(View());
        i := i + 1;
      }
      assert blocks[i..] == [];
      NoBlocks(View());
      return true;
    }

    method IntervalMinedBlock(block: Block)
      modifies this
      ensures View() == LogIntervalMined(old(View()), block)
    {
      match block
      case Empty(number) =>
        var start := IntervalStart(state);
        state := Nothing;
        if start.Some? {
          PrintLine(EmptyRange(start.value, number), true);
        } else {
          PrintLine(EmptyBlock(number), false);
        }
        state := IntervalMining(Some(StartOr(start, number)));
      case Full(number, details) =>
        logs := logs + details;
        PrintLine(MinedBlock(number), false);
        var any := PrintPending();
        if any {
          PrintLine(Blank, false);
        }
    }

    method PrintMethodName(rpc: string)
      modifies this
      ensures View() == PrintMethod(old(View()), rpc)
    {
      if state.Collapsing? && state.rpc == rpc {
        state := Collapsing(rpc, state.count + 1);
        PrintLine(MethodLine(rpc, state.count), true);
      } else {
        state := Collapsing(rpc, 1);
        PrintLine(MethodLine(rpc, 1), false);
      }
    }
  }

  // ----- what is announced -----

  function LeadingEmpties(blocks: seq<Block>): (n: nat)
    ensures n <= |blocks|
    ensures blocks != [] && blocks[0].Empty? ==> n > 0
  {
    if blocks == [] || blocks[0].Full? then 0 else 1 + LeadingEmpties(blocks[1..])
  }

  /** The one line for a run of `n` empty blocks. */
  function RunLine(blocks: seq<Block>, n: nat): Line
    requires 0 < n <= |blocks|
  {
    if n == 1 then EmptyBlock(blocks[0].number) else EmptyRange(blocks[0].number, blocks[n - 1].number)
  }

  /** One line per maximal run of empty blocks, and every other block in full. */
  function Announcement(blocks: seq<Block>): seq<Line>
    decreases |blocks|
  {
    if blocks == [] then []
    else if blocks[0].Full? then
      [MinedBlock(blocks[0].number)] + blocks[0].details + (if |blocks| > 1 then [Blank] else [])
      + Announcement(blocks[1..])
    else
      var n := LeadingEmpties(blocks);
      [RunLine(blocks, n)] + Announcement(blocks[n..])
  }

  lemma MinedStep(s: Log, blocks: seq<Block>)
    requires blocks != []
    ensures LogMinedBlocks(s, blocks)
         == match LogMinedBlock(s, blocks[0], |blocks| == 1)
            case None => None
            case Some(next) => LogMinedBlocks(next, blocks[1..])
  {
  }

  lemma AnnouncementOfFull(blocks: seq<Block>)
    requires blocks != [] && blocks[0].Full?
    ensures LeadingEmpties(blocks) == 0
    ensures Announcement(blocks) == BlockLines(blocks[0], |blocks| == 1) + Announcement(blocks[1..])
  {
  }

  lemma NoBlocks(s: Log)
    ensures LogMinedBlocks(s, []) == Some(s) && LeadingEmpties([]) == 0 && Announcement([]) == []
  {
  }

  lemma FullStep(s: Log, blocks: seq<Block>)
    requires blocks != [] && blocks[0].Full?
    ensures LogMinedBlock(s, blocks[0], |blocks| == 1).Some?
    ensures var next := LogMinedBlock(s, blocks[0], |blocks| == 1).value;
            next.state == Nothing && s.logs + Announcement(blocks) == next.logs + Announcement(blocks[1..])
  {
    hide Announcement, BlockLines;
    AnnouncementOfFull(blocks);
    Reassociate(s.logs, BlockLines(blocks[0], |blocks| == 1), Announcement(blocks[1..]));
  }

  lemma Reassociate(a: seq<Line>, b: seq<Line>, c: seq<Line>)
    ensures a + b + c == a + (b + c)
  {
  }

  lemma ExtendRun(s: Log, done: seq<Block>, block: Block, kept: seq<Line>, isLast: bool)
    requires done != [] && AllEmpty(done) && block.Empty?
    requires s.state == HardhatMining(Some(done[0].number)) && s.logs == kept + [RunLine(done, |done|)]
    ensures var more := done + [block];
            LogMinedBlock(s, block, isLast)
            == Some(s.(logs := kept + [RunLine(more, |more|)], state := HardhatMining(Some(more[0].number))))
            && AllEmpty(more)
  {
  }

  lemma RunStep(blocks: seq<Block>)
    requires blocks != [] && blocks[0].Empty?
    ensures var n := LeadingEmpties(blocks);
            && LeadingEmpties(blocks[1..]) == n - 1
            && blocks[1..][n - 1..] == blocks[n..]
            && Announcement(blocks) == [RunLine(blocks, n)] + Announcement(blocks[n..])
  {
    hide RunLine;
  }

  /** A run that is already open and whose line is the last one so far: the next blocks
      extend that line and no other. */
  lemma {:induction false} OpenRun(s: Log, done: seq<Block>, blocks: seq<Block>, kept: seq<Line>)
    requires done != [] && AllEmpty(done)
    requires s.state == HardhatMining(Some(done[0].number)) && s.logs == kept + [RunLine(done, |done|)]
    ensures var n := LeadingEmpties(blocks);
            LogMinedBlocks(s, blocks).Some?
            && LogMinedBlocks(s, blocks).value.logs
               == kept + [RunLine(done + blocks[..n], |done| + n)] + Announcement(blocks[n..])
    decreases |blocks|
  {
    hide LogMinedBlocks, LogMinedBlock, Announcement, LeadingEmpties, RunLine, BlockLines;
    NoBlocks(s);
    var n := LeadingEmpties(blocks);
    if blocks == [] {
      assert done + blocks[..n] == done;
    } else if blocks[0].Empty? {
      RunStep(blocks);
      ExtendRun(s, done, blocks[0], kept, |blocks| == 1);
      MinedStep(s, blocks);
      var more := done + [blocks[0]];
      OpenRun(LogMinedBlock(s, blocks[0], |blocks| == 1).value, more, blocks[1..], kept);
      assert more + blocks[1..][..n - 1] == done + blocks[..n];
    } else {
      AnnouncementOfFull(blocks);
      FullStep(s, blocks);
      MinedStep(s, blocks);
      assert done + blocks[..n] == done && blocks[n..] == blocks;
      AnnouncesMaximalRuns(LogMinedBlock(s, blocks[0], |blocks| == 1).value, blocks[1..]);
    }
  }

  /** From any state in which no run is open, mining on request never panics and collects
      exactly one line per maximal run of empty blocks. */
  lemma {:induction false} AnnouncesMaximalRuns(s: Log, blocks: seq<Block>)
    requires HardhatStart(s.state).None?
    ensures LogMinedBlocks(s, blocks).Some?
    ensures LogMinedBlocks(s, blocks).value.logs == s.logs + Announcement(blocks)
    decreases |blocks|
  {
    if blocks != [] {
      hide LogMinedBlocks, Announcement, LeadingEmpties;
      var next := LogMinedBlock(s, blocks[0], |blocks| == 1).value;
      MinedStep(s, blocks);
      if blocks[0].Full? {
        FullStep(s, blocks);
        AnnouncesMaximalRuns(next, blocks[1..]);
      } else {
        RunStep(blocks);
        OpenRun(next, blocks[..1], blocks[1..], s.logs);
        FirstOfRun(blocks, LeadingEmpties(blocks));
        var n := LeadingEmpties(blocks);
        Reassociate(s.logs, [RunLine(blocks, n)], Announcement(blocks[n..]));
      }
    }
  }

  lemma FirstOfRun(blocks: seq<Block>, n: nat)
    requires 0 < n <= |blocks|
    ensures blocks[..1] + blocks[1..][..n - 1] == blocks[..n]
    ensures RunLine(blocks[..n], n) == RunLine(blocks, n)
  {
  }

  // ----- a line to replace -----

  /** An open run has its line among those still to be printed. */
  predicate HasLine(s: Log) {
    HardhatStart(s.state).Some? ==> s.logs != []
  }

  /** Exactly when mining on request panics. */
  lemma {:induction false} MiningPanicsIff(s: Log, blocks: seq<Block>)
    ensures LogMinedBlocks(s, blocks).None? <==> !HasLine(s) && blocks != [] && blocks[0].Empty?
    ensures HasLine(s) ==> HasLine(LogMinedBlocks(s, blocks).value)
    decreases |blocks|
  {
    if blocks != [] {
      var next := LogMinedBlock(s, blocks[0], |blocks| == 1);
      if next.Some? {
        MiningPanicsIff(next.value, blocks[1..]);
      }
    }
  }

  /** The one event that takes an open run's line away: a non-empty interval block. */
  predicate TakesLine(s: Log, e: Event) {
    HardhatStart(s.state).Some? && e.IntervalMined? && e.block.Full?
  }

  lemma StepKeepsLine(s: Log, e: Event)
    requires HasLine(s)
    ensures Step(s, e).Some?
    ensures HasLine(Step(s, e).value) || TakesLine(s, e)
  {
    if e.Request? && e.action.Mine? {
      MiningPanicsIff(s, e.action.blocks);
      hide LogMinedBlocks;
    }
  }

  /** No event of the run takes away the line of a run that is open at that point. */
  predicate NeverTakesLine(s: Log, events: seq<Event>)
    decreases |events|
  {
    events == [] ||
    (!TakesLine(s, events[0])
     && (Step(s, events[0]).Some? ==> NeverTakesLine(Step(s, events[0]).value, events[1..])))
  }

  /** Whatever is switched on or off, a run panics only if a non-empty interval block fell
      into an open run of requested empty blocks. */
  lemma {:induction false} PanicsOnlyAfterIntervalBlock(s: Log, events: seq<Event>)
    requires HasLine(s) && NeverTakesLine(s, events)
    ensures Run(s, events).Some?
    decreases |events|
  {
    hide Step, TakesLine, HasLine;
    if events != [] {
      StepKeepsLine(s, events[0]);
      PanicsOnlyAfterIntervalBlock(Step(s, events[0]).value, events[1..]);
    }
  }

  predicate StaysEnabled(events: seq<Event>) {
    forall e | e in events :: e.Request? && e.action.SetEnabled? ==> e.action.enabled
  }

  /** Between requests, an enabled logger has no open run of requested blocks. */
  lemma EnabledStepClosesRun(s: Log, e: Event)
    requires s.enabled && HardhatStart(s.state).None?
    requires e.Request? && e.action.SetEnabled? ==> e.action.enabled
    ensures Step(s, e).Some?
    ensures Step(s, e).value.enabled && HardhatStart(Step(s, e).value.state).None?
  {
    if e.Request? && e.action.Mine? {
      MiningPanicsIff(s, e.action.blocks);
      MiningKeepsEnabled(s, e.action.blocks);
      hide LogMinedBlocks;
    }
  }

  lemma {:induction false} MiningKeepsEnabled(s: Log, blocks: seq<Block>)
    requires LogMinedBlocks(s, blocks).Some?
    ensures LogMinedBlocks(s, blocks).value.enabled == s.enabled
    decreases |blocks|
  {
    if blocks != [] {
      MiningKeepsEnabled(LogMinedBlock(s, blocks[0], |blocks| == 1).value, blocks[1..]);
    }
  }

  /** With logging enabled throughout, no run of requests and interval blocks panics. */
  lemma {:induction false} EnabledRunNeverPanics(s: Log, events: seq<Event>)
    requires s.enabled && HardhatStart(s.state).None? && StaysEnabled(events)
    ensures Run(s, events).Some?
    ensures Run(s, events).value.enabled && HardhatStart(Run(s, events).value.state).None?
    decreases |events|
  {
    hide Step, HardhatStart;
    if events != [] {
      EnabledStepClosesRun(s, events[0]);
      EnabledRunNeverPanics(Step(s, events[0]).value, events[1..]);
    }
  }

  /** With logging disabled one can: an empty block is mined on request, the interval miner
      mines a non-empty one, and the next requested empty block finds no line. */
  lemma DisabledRunCanPanic()
    ensures Run(INITIAL, [Request("hardhat_setLoggingEnabled", SetEnabled(false), Succeeded),
                          Request("evm_mine", Mine([Empty(1)]), Succeeded),
                          IntervalMined(Full(2, [])),
                          Request("evm_mine", Mine([Empty(3)]), Succeeded)]).None?
  {
    var r0 := Request("hardhat_setLoggingEnabled", SetEnabled(false), Succeeded);
    var r1 := Request("evm_mine", Mine([Empty(1)]), Succeeded);
    var r2 := IntervalMined(Full(2, []));
    var r3 := Request("evm_mine", Mine([Empty(3)]), Succeeded);
    var s1 := Step(INITIAL, r0).value;
    assert [Empty(1)][1..] == [];
    var s2 := Step(s1, r1).value;
    assert s2 == Log(false, HardhatMining(Some(1)), [EmptyBlock(1)], []);
    var s3 := Step(s2, r2).value;
    assert s3.logs == [] && s3.state == HardhatMining(Some(1));
    MiningPanicsIff(s3, [Empty(3)]);
    assert Run(s3, [r3]).None?;
    assert [r2, r3][1..] == [r3];
    assert Run(s2, [r2, r3]).None?;
    assert [r1, r2, r3][1..] == [r2, r3];
    assert Run(s1, [r1, r2, r3]).None?;
    assert [r0, r1, r2, r3][1..] == [r1, r2, r3];
  }

  /** What reaches the console for a non-empty interval block: its line, then whatever was
      still to be printed with the block's own details last, closed by a blank line if there
      was anything; a range of empty blocks stays open. With logging disabled the details are
      dropped. */
  lemma IntervalBlockIsAnnounced(s: Log, number: nat, details: seq<Line>)
    ensures var t := LogIntervalMined(s, Full(number, details));
            && t.state == s.state && t.enabled == s.enabled && t.logs == []
            && t.printed == s.printed + if !s.enabled then []
                                        else if s.logs + details == [] then [MinedBlock(number)]
                                        else [MinedBlock(number)] + s.logs + details + [Blank]
  {
  }

  // ----- nothing that is reported is lost -----

  /** The lines of text among `lines`, that is, everything but headings and blank lines. */
  function Texts(lines: seq<Line>): seq<Line> {
    if lines == [] then []
    else
      var last := lines[|lines| - 1];
      Texts(lines[..|lines| - 1]) + if last.Text? then [last] else []
  }

  lemma {:induction false} TextsConcat(a: seq<Line>, b: seq<Line>)
    ensures Texts(a + b) == Texts(a) + Texts(b)
  {
    if b == [] {
      assert a + b == a;
    } else {
      TextsConcat(a, b[..|b| - 1]);
      assert (a + b)[..|a + b| - 1] == a + b[..|b| - 1];
    }
  }

  lemma TextsOfOne(line: Line)
    ensures Texts([line]) == if line.Text? then [line] else []
  {
    assert [line][..0] == [] && Texts([]) == [];
  }

  function TextsOfBlocks(blocks: seq<Block>): seq<Line>
    decreases |blocks|
  {
    if blocks == [] then []
    else (if blocks[0].Full? then Texts(blocks[0].details) else []) + TextsOfBlocks(blocks[1..])
  }

  lemma {:induction false} TextsOfEmptyRun(blocks: seq<Block>)
    ensures TextsOfBlocks(blocks) == TextsOfBlocks(blocks[LeadingEmpties(blocks)..])
    decreases |blocks|
  {
    if blocks != [] && blocks[0].Empty? {
      TextsOfEmptyRun(blocks[1..]);
      assert blocks[LeadingEmpties(blocks)..] == blocks[1..][LeadingEmpties(blocks[1..])..];
    }
  }

  lemma TextsOfBlockLines(block: Block, isLast: bool)
    requires block.Full?
    ensures Texts(BlockLines(block, isLast)) == Texts(block.details)
  {
    var heading, separator := [MinedBlock(block.number)], if isLast then [] else [Blank];
    TextsOfOne(heading[0]);
    TextsOfOne(Blank);
    NoTexts();
    hide Texts;
    TextsConcat(heading + block.details, separator);
    TextsConcat(heading, block.details);
  }

  lemma {:induction false} TextsOfAnnouncement(blocks: seq<Block>)
    ensures Texts(Announcement(blocks)) == TextsOfBlocks(blocks)
    decreases |blocks|
  {
    hide Texts, Announcement, BlockLines, LeadingEmpties, RunLine;
    NoTexts();
    NoBlocks(INITIAL);
    if blocks != [] {
      if blocks[0].Full? {
        TextsOfAnnouncement(blocks[1..]);
        AnnouncementOfFull(blocks);
        TextsOfBlockLines(blocks[0], |blocks| == 1);
        TextsConcat(BlockLines(blocks[0], |blocks| == 1), Announcement(blocks[1..]));
      } else {
        var n := LeadingEmpties(blocks);
        RunStep(blocks);
        TextsOfEmptyRun(blocks);
        TextsOfAnnouncement(blocks[n..]);
        TextsOfRunLine(blocks, n);
        TextsConcat([RunLine(blocks, n)], Announcement(blocks[n..]));
      }
    }
  }

  lemma TextsOfRunLine(blocks: seq<Block>, n: nat)
    requires 0 < n <= |blocks|
    ensures Texts([RunLine(blocks, n)]) == []
  {
    TextsOfOne(RunLine(blocks, n));
  }

  lemma NoTexts()
    ensures Texts([]) == []
  {
  }

  function ErrorTexts(error: Error): seq<Line> {
    if error.Other? then Texts(error.message) else []
  }

  /** The text an event reports. The outcome of `hardhat_setLoggingEnabled` is not. */
  function Reported(e: Event): seq<Line> {
    match e
    case Request(_, Silent, Failed(error)) => ErrorTexts(error)
    case Request(_, Collect(lines), outcome) =>
      Texts(lines) + if outcome.Failed? then ErrorTexts(outcome.error) else []
    case Request(_, Mine(blocks), outcome) =>
      TextsOfBlocks(blocks) + if outcome.Failed? then ErrorTexts(outcome.error) else []
    case IntervalMined(Full(_, details)) => Texts(details)
    case Undeserializable(_, error) => ErrorTexts(error)
    case _ => []
  }

  /** The text on the console and still to be printed. */
  function Shown(s: Log): seq<Line> {
    Texts(s.printed) + Texts(s.logs)
  }

  /** An enabled logger between events: no run of requested blocks is open, and the line that
      may be replaced is not one of text. */
  predicate Tidy(s: Log) {
    s.enabled && HardhatStart(s.state).None? && (s.printed != [] ==> !s.printed[|s.printed| - 1].Text?)
  }

  lemma HeadingIsNoText(s: Log, line: Line, replace: bool)
    requires s.enabled && !line.Text?
    requires replace && s.printed != [] ==> !s.printed[|s.printed| - 1].Text?
    ensures var t := Print(s, line, replace);
            && Texts(t.printed) == Texts(s.printed) && t.logs == s.logs && t.state == s.state && t.enabled
            && t.printed != [] && !t.printed[|t.printed| - 1].Text?
  {
    var t := Print(s, line, replace);
    assert t.printed[..|t.printed| - 1]
        == if replace && s.printed != [] then s.printed[..|s.printed| - 1] else s.printed;
  }

  lemma PrintedLogsAreShown(s: Log)
    requires s.enabled
    ensures var t := PrintLogs(s);
            Texts(t.printed) == Texts(s.printed) + Texts(s.logs) && t.logs == [] && t.state == s.state && t.enabled
  {
    TextsConcat(s.printed, s.logs);
  }

  lemma MethodLogsAreShown(s: Log, rpc: string, outcome: Outcome)
    requires s.enabled && (s.printed != [] ==> !s.printed[|s.printed| - 1].Text?)
    ensures var t := PrintMethodLogs(s, rpc, outcome);
            Tidy(t) && Shown(t) == Shown(s) + if outcome.Failed? then ErrorTexts(outcome.error) else []
  {
    hide Texts, Print, PrintLogs;
    NoTexts();
    if outcome.Succeeded? {
      var repeated := s.state.Collapsing? && s.state.rpc == rpc;
      var count := if repeated then s.state.count + 1 else 1;
      HeadingIsNoText(s, MethodLine(rpc, count), repeated);
      var named := PrintMethod(s, rpc);
      PrintedLogsAreShown(named);
      HeadingIsNoText(PrintLogs(named), Blank, false);
    } else {
      HeadingIsNoText(s.(state := Nothing), ErrorLine(rpc), false);
      var named := Print(s.(state := Nothing), ErrorLine(rpc), false);
      PrintedLogsAreShown(named);
      HeadingIsNoText(PrintLogs(named), Blank, false);
      if outcome.error.Other? {
        MessageIsShown(PrintLogs(named), outcome.error.message);
      }
    }
  }

  lemma MessageIsShown(s: Log, message: seq<Line>)
    requires s.enabled
    ensures var t := Print(PrintAll(s, [Blank] + message), Blank, false);
            && Texts(t.printed) == Texts(s.printed) + Texts(message) && t.logs == s.logs && t.state == s.state
            && t.enabled && t.printed != [] && t.printed[|t.printed| - 1] == Blank
  {
    HeadingIsNoText(PrintAll(s, [Blank] + message), Blank, false);
    TextsConcat(s.printed, [Blank] + message);
    TextsConcat([Blank], message);
    TextsOfOne(Blank);
  }

  lemma ActionIsShown(s: Log, action: Action)
    requires Tidy(s) && !action.SetEnabled?
    ensures var t := Act(s, action);
            && t.Some? && t.value.enabled && t.value.printed == s.printed
            && Shown(t.value) == Shown(s) + (match action
                                             case Silent => []
                                             case Collect(lines) => Texts(lines)
                                             case Mine(blocks) => TextsOfBlocks(blocks))
  {
    hide Texts, LogMinedBlocks, Announcement, TextsOfBlocks;
    match action
    case Silent =>
    case Collect(lines) => TextsConcat(s.logs, lines);
    case Mine(blocks) =>
      AnnouncesMaximalRuns(s, blocks);
      MiningKeepsConsole(s, blocks);
      TextsOfAnnouncement(blocks);
      TextsConcat(s.logs, Announcement(blocks));
  }

  lemma {:induction false} MiningKeepsConsole(s: Log, blocks: seq<Block>)
    requires LogMinedBlocks(s, blocks).Some?
    ensures var t := LogMinedBlocks(s, blocks).value; t.enabled == s.enabled && t.printed == s.printed
    decreases |blocks|
  {
    if blocks != [] {
      MiningKeepsConsole(LogMinedBlock(s, blocks[0], |blocks| == 1).value, blocks[1..]);
    }
  }

  lemma StepIsShown(s: Log, e: Event)
    requires Tidy(s) && (e.Request? && e.action.SetEnabled? ==> e.action.enabled)
    ensures Step(s, e).Some? && Tidy(Step(s, e).value) && Shown(Step(s, e).value) == Shown(s) + Reported(e)
  {
    hide Texts, LogMinedBlocks, TextsOfBlocks, PrintMethodLogs;
    match e
    case Request(rpc, action, outcome) =>
      if !action.SetEnabled? {
        ActionIsShown(s, action);
        MethodLogsAreShown(Act(s, action).value, rpc, outcome);
      }
    case Undeserializable(rpc, error) => MethodLogsAreShown(s, rpc, Failed(error));
    case IntervalMined(block) => IntervalBlockIsShown(s, block);
  }

  lemma IntervalBlockIsShown(s: Log, block: Block)
    requires Tidy(s)
    ensures var t := LogIntervalMined(s, block);
            Tidy(t) && Shown(t) == Shown(s) + if block.Full? then Texts(block.details) else []
  {
    hide Texts, Print, PrintLogs;
    NoTexts();
    match block
    case Empty(number) =>
      var start := IntervalStart(s.state);
      HeadingIsNoText(s, if start.Some? then EmptyRange(start.value, number) else EmptyBlock(number), start.Some?);
    case Full(number, details) =>
      var collected := s.(logs := s.logs + details);
      HeadingIsNoText(collected, MinedBlock(number), false);
      var named := Print(collected, MinedBlock(number), false);
      PrintedLogsAreShown(named);
      HeadingIsNoText(PrintLogs(named), Blank, false);
      TextsConcat(s.logs, details);
  }

  /** The text that the events of a run report, in order. */
  function AllReported(events: seq<Event>): seq<Line>
    decreases |events|
  {
    if events == [] then [] else Reported(events[0]) + AllReported(events[1..])
  }

  /** With logging enabled throughout, what is on the console and still to be printed after any
      run is exactly the text its events reported: nothing is lost, doubled or reordered by
      the lines that are replaced. */
  lemma {:induction false} NothingReportedIsLost(s: Log, events: seq<Event>)
    requires Tidy(s) && StaysEnabled(events)
    ensures Run(s, events).Some?
    ensures Tidy(Run(s, events).value) && Shown(Run(s, events).value) == Shown(s) + AllReported(events)
    decreases |events|
  {
    hide Step, Tidy, Shown, Reported;
    if events != [] {
      StepIsShown(s, events[0]);
      NothingReportedIsLost(Step(s, events[0]).value, events[1..]);
    }
  }

  lemma ConsoleFromTheStart(events: seq<Event>)
    requires StaysEnabled(events)
    ensures Run(INITIAL, events).Some? && Shown(Run(INITIAL, events).value) == AllReported(events)
  {
    NoTexts();
    hide Run, AllReported;
    NothingReportedIsLost(INITIAL, events);
  }

  /** A request that collected anything is never collapsed with the one before. */
  lemma CollectingRequestStartsAfresh(s: Log, rpc: string, lines: seq<Line>)
    requires s.enabled && s.logs + lines != []
    ensures Step(s, Request(rpc, Collect(lines), Succeeded))
         == Some(Log(true, Collapsing(rpc, 1), [], s.printed + [MethodLine(rpc, 1)] + s.logs + lines + [Blank]))
  {
    Reassociate(s.printed + [MethodLine(rpc, 1)], s.logs, lines);
    assert Act(s, Collect(lines)) == Some(s.(state := Nothing, logs := s.logs + lines));
  }

  /** A request that failed shows its heading, what it had collected, and its error. */
  lemma FailedRequestIsShown(s: Log, rpc: string, error: Error)
    requires s.enabled
    ensures var t := Step(s, Request(rpc, Silent, Failed(error)));
            && t.Some? && t.value.state == Nothing
            && t.value.printed == s.printed + [ErrorLine(rpc)] + (match error
                                                                  case Unsupported => []
                                                                  case TransactionFailed => s.logs + [Blank]
                                                                  case Other(message) =>
                                                                    s.logs + [Blank] + message + [Blank])
            && t.value.logs == if error.Unsupported? then s.logs else []
  {
  }

  // ----- interval ranges -----

  function LogInterval(s: Log, blocks: seq<Block>): Log {
    if blocks == [] then s
    else LogIntervalMined(LogInterval(s, blocks[..|blocks| - 1]), blocks[|blocks| - 1])
  }

  predicate AllEmpty(blocks: seq<Block>) {
    forall k {:trigger blocks[k]} | 0 <= k < |blocks| :: blocks[k].Empty?
  }

  /** The position of the first empty block, if there is one. */
  function FirstEmpty(blocks: seq<Block>): (k: nat)
    ensures k <= |blocks|
    ensures forall j | 0 <= j < k :: blocks[j].Full?
    ensures k < |blocks| ==> blocks[k].Empty?
  {
    if blocks == [] || blocks[0].Empty? then 0 else 1 + FirstEmpty(blocks[1..])
  }

  lemma FirstEmptyAppend(blocks: seq<Block>, b: Block)
    ensures FirstEmpty(blocks) < |blocks| ==> FirstEmpty(blocks + [b]) == FirstEmpty(blocks)
    ensures FirstEmpty(blocks) == |blocks| ==>
              FirstEmpty(blocks + [b]) == if b.Empty? then |blocks| else |blocks| + 1
  {
    var k, k' := FirstEmpty(blocks), FirstEmpty(blocks + [b]);
    assert forall j | 0 <= j < |blocks| :: (blocks + [b])[j] == blocks[j];
    assert (blocks + [b])[|blocks|] == b;
  }

  lemma IntervalBlockMovesRange(s: Log, block: Block)
    ensures var t := LogIntervalMined(s, block);
            && t.enabled == s.enabled
            && IntervalStart(t.state) == if IntervalStart(s.state).None? && block.Empty? then Some(block.number)
                                         else IntervalStart(s.state)
  {
  }

  /** Interval mining never closes a range: it still starts at the first empty block. */
  lemma {:induction false} RangeStartsAtFirstEmpty(s: Log, blocks: seq<Block>)
    requires IntervalStart(s.state).None?
    ensures IntervalStart(LogInterval(s, blocks).state)
         == if FirstEmpty(blocks) < |blocks| then Some(blocks[FirstEmpty(blocks)].number) else None
    ensures LogInterval(s, blocks).enabled == s.enabled
  {
    if blocks != [] {
      var init, last := blocks[..|blocks| - 1], blocks[|blocks| - 1];
      hide FirstEmpty, Print, PrintLogs, LogIntervalMined;
      RangeStartsAtFirstEmpty(s, init);
      FirstEmptyAppend(init, last);
      assert init + [last] == blocks;
      IntervalBlockMovesRange(LogInterval(s, init), last);
    }
  }

  /** A run of empty interval blocks leaves exactly one line on the console. */
  lemma {:induction false} EmptyIntervalRunIsOneLine(s: Log, blocks: seq<Block>)
    requires s.enabled && IntervalStart(s.state).None? && blocks != [] && AllEmpty(blocks)
    ensures LogInterval(s, blocks).printed == s.printed + [RunLine(blocks, |blocks|)]
    ensures LogInterval(s, blocks).state == IntervalMining(Some(blocks[0].number))
    ensures LogInterval(s, blocks).enabled
  {
    if |blocks| > 1 {
      EmptyIntervalRunIsOneLine(s, blocks[..|blocks| - 1]);
    } else {
      assert blocks[..0] == [];
    }
  }

  /** How many empty blocks stand at the end. */
  function TrailingEmpties(blocks: seq<Block>): (n: nat)
    ensures n <= |blocks|
    ensures forall k | |blocks| - n <= k < |blocks| :: blocks[k].Empty?
    ensures n < |blocks| ==> blocks[|blocks| - n - 1].Full?
  {
    if blocks == [] || blocks[|blocks| - 1].Full? then 0 else 1 + TrailingEmpties(blocks[..|blocks| - 1])
  }

  /** The blocks before block `number`, numbered one by one. */
  predicate LeadUpTo(blocks: seq<Block>, number: nat) {
    |blocks| <= number && forall k {:trigger blocks[k]} | 0 <= k < |blocks| :: blocks[k].number == number - |blocks| + k
  }

  /** The line for the maximal run of empty blocks that ends with the empty block `number`. */
  function MaximalRunLine(blocks: seq<Block>, number: nat): Line {
    var n := TrailingEmpties(blocks);
    RunLine(blocks[|blocks| - n..] + [Empty(number)], n + 1)
  }

  /** After any interval blocks, the line printed for the next empty one names the maximal
      run that block belongs to exactly when no non-empty block has followed the first
      empty one; otherwise the range it prints spans a non-empty block. */
  lemma RangeLineIsTruthfulIff(s: Log, blocks: seq<Block>, number: nat)
    requires s.enabled && IntervalStart(s.state).None? && LeadUpTo(blocks, number)
    ensures var printed := LogIntervalMined(LogInterval(s, blocks), Empty(number)).printed;
            printed != []
            && (printed[|printed| - 1] == MaximalRunLine(blocks, number) <==> AllEmpty(blocks[FirstEmpty(blocks)..]))
  {
    RangeStartsAtFirstEmpty(s, blocks);
    hide LogInterval;
    MaximalRunLineIff(blocks, number);
  }

  lemma MaximalRunLineIff(blocks: seq<Block>, number: nat)
    requires LeadUpTo(blocks, number)
    ensures (if FirstEmpty(blocks) == |blocks| then EmptyBlock(number)
             else EmptyRange(blocks[FirstEmpty(blocks)].number, number))
            == MaximalRunLine(blocks, number)
       <==> AllEmpty(blocks[FirstEmpty(blocks)..])
  {
    hide TrailingEmpties, FirstEmpty;
    var k, n := FirstEmpty(blocks), TrailingEmpties(blocks);
    if |blocks| - n > k {
      assert blocks[k..][|blocks| - n - 1 - k].Full?;
    }
  }

  // ----- collapsed methods -----

  function Repeat(rpc: string, n: nat): seq<Event> {
    if n == 0 then [] else [Request(rpc, Silent, Succeeded)] + Repeat(rpc, n - 1)
  }

  /** A silent request prints its method and nothing else. */
  lemma RepeatStep(s: Log, rpc: string, n: nat)
    requires s.enabled && s.logs == [] && n > 0
    ensures Run(s, Repeat(rpc, n)) == Run(PrintMethod(s, rpc), Repeat(rpc, n - 1))
  {
    hide PrintMethod, Print;
    assert PrintMethod(s, rpc).logs == [] by { PrintMethodKeepsLogs(s, rpc); }
    assert Repeat(rpc, n)[1..] == Repeat(rpc, n - 1);
    assert Step(s, Request(rpc, Silent, Succeeded)) == Some(PrintMethod(s, rpc));
  }

  lemma PrintMethodKeepsLogs(s: Log, rpc: string)
    ensures PrintMethod(s, rpc).logs == s.logs
  {
  }

  lemma {:induction false} RepeatsExtendOneLine(s: Log, rpc: string, n: nat, kept: seq<Line>, count: nat)
    requires s.enabled && s.logs == []
    requires s.state == Collapsing(rpc, count) && s.printed == kept + [MethodLine(rpc, count)]
    ensures Run(s, Repeat(rpc, n))
         == Some(s.(state := Collapsing(rpc, count + n), printed := kept + [MethodLine(rpc, count + n)]))
    decreases n
  {
    if n > 0 {
      RepeatStep(s, rpc, n);
      var next := PrintMethod(s, rpc);
      assert next.printed == kept + [MethodLine(rpc, count + 1)];
      hide Run, Repeat;
      RepeatsExtendOneLine(next, rpc, n - 1, kept, count + 1);
    }
  }

  /** A run of n silent requests of one method shows as one line with the count n. */
  lemma RepeatedMethodIsOneLine(s: Log, rpc: string, n: nat)
    requires s.enabled && s.logs == [] && n > 0 && !(s.state.Collapsing? && s.state.rpc == rpc)
    ensures Run(s, Repeat(rpc, n))
         == Some(s.(state := Collapsing(rpc, n), printed := s.printed + [MethodLine(rpc, n)]))
  {
    hide Run, Repeat;
    RepeatStep(s, rpc, n);
    RepeatsExtendOneLine(PrintMethod(s, rpc), rpc, n - 1, s.printed, 1);
  }

  /** A repetition overwrites the method's own line exactly when the previous request of
      that method had nothing else to print; otherwise it overwrites the blank line that
      closes those lines. */
  lemma RepeatReplacesOwnLineIff(s: Log, rpc: string)
    requires s.enabled
    ensures var t := PrintMethodLogs(s, rpc, Succeeded);
            var again := PrintMethodLogs(t, rpc, Succeeded);
            && t.state.Collapsing? && t.printed != []
            && again.printed == t.printed[..|t.printed| - 1] + [MethodLine(rpc, t.state.count + 1)]
            && (t.printed[|t.printed| - 1] == MethodLine(rpc, t.state.count) <==> s.logs == [])
            && (s.logs != [] ==> t.printed[|t.printed| - 1] == Blank)
  {
  }
}
