/**
 The launch script as a machine of statements. Its traps run between any two of them, inside one
 another too, so above the main program stands a stack of handlers: the two traps and finish. It
 starts where both traps are set. What a command, the network or the clock answers is part of the
 event that runs a statement.
 */
module Launch {
  import opened Text
  import opened ExitLine
  import opened Faults

  const TRIES := 7
  const KILLED := 137
  const TERMINATED := 143

  /** A time by the clock of the machine, in unix seconds. */
  type Seconds = t: int | IsInt64(t)

  datatype Pc = Setup | Fetch | Failed | Probe | Bump | Sleep | Lengthen | Checkout
              | Spawn | KeepPid | Reset | Wait | Test | Translate | Finished
  datatype FinishPc = KillTimer | PrintLine | ExitNow
  datatype StopPc = IgnoreTerm | TestPid | MarkInterrupted | PassTerm | StartTimer
  datatype OverduePc = IgnoreAlarm | SayOverdue | PrintKilled | KillGroup

  /** The main program: its statement and variables, and what it has done so far. */
  datatype Program = Program(pc: Pc, try: nat, pause: nat, code: int, spawned: bool, fetches: nat, slept: nat)

  datatype Handler =
    | Finish(code: int, finish: FinishPc)
    | Stop(stop: StopPc)
    | Overdue(overdue: OverduePc)

  /** What a log holds: text of the command's or the script's own, and the script's exit lines. */
  datatype Chunk = Printed(text: string) | Line(x: Exit)

  datatype Script = Script(started: Seconds, program: Program, handlers: seq<Handler>, termIgnored: bool,
                           alarmIgnored: bool, pid: bool, interrupted: bool, timer: bool, log: seq<Chunk>,
                           ended: Option<int>)

  function Begin(started: Seconds): Script {
    Script(started, Program(Setup, 1, 5, 0, false, 0, 0), [], false, false, false, false, false, [], None)
  }

  /** What the world answers one statement: whether a command succeeded, the status wait returns (a
      byte), and what the clock says. */
  datatype Answer = Answer(ok: bool, status: nat, now: Seconds)

  datatype Event =
    | Term
    | Alarm
    | Print(text: string)
    | Do(answer: Answer)

  function Call(s: Script, h: Handler): Script { s.(handlers := s.handlers + [h]) }

  /** The running handler moves on to another statement. */
  function GoTo(s: Script, h: Handler): Script
    requires |s.handlers| > 0
  {
    s.(handlers := s.handlers[..|s.handlers| - 1] + [h])
  }

  function PauseAfter(pause: nat): nat { if pause * 2 > 60 then 60 else pause * 2 }

  /** The code the main program's statement calls finish with, if it does. */
  function Finishes(p: Program, a: Answer): Option<int> {
    match p.pc
    case Setup => if a.ok then None else Some(1)
    case Probe => Some(if a.ok then 1 else EXIT_CODE_UNREACHABLE)
    case Checkout => if a.ok then None else Some(1)
    case Finished => Some(p.code)
    case _ => None
  }

  function Moves(p: Program, interrupted: bool, a: Answer): Program {
    match p.pc
    case Setup => p.(pc := Fetch)
    case Fetch => p.(pc := if a.ok then Checkout else Failed, fetches := p.fetches + 1)
    case Failed => p.(pc := if p.try >= TRIES then Probe else Bump)
    case Bump => p.(pc := Sleep, try := p.try + 1)
    case Sleep => p.(pc := Lengthen, slept := p.slept + p.pause)
    case Lengthen => p.(pc := Fetch, pause := PauseAfter(p.pause))
    case Checkout => p.(pc := Spawn)
    case Spawn => p.(pc := KeepPid, spawned := true)
    case KeepPid => p.(pc := Reset)
    case Reset => p.(pc := Wait)
    case Wait => p.(pc := Test, code := a.status % 256)
    case Test => p.(pc := if interrupted then Reset else Translate)
    case Translate => p.(pc := Finished, code := if p.code == EXIT_CODE_UNREACHABLE then 1 else p.code)
    case _ => p
  }

  function DoMain(s: Script, a: Answer): Script {
    match Finishes(s.program, a)
    case Some(code) => Call(s, Finish(code, KillTimer))
    case None => s.(program := Moves(s.program, s.interrupted, a),
                    pid := s.pid || s.program.pc.KeepPid?,
                    interrupted := s.interrupted && !s.program.pc.Reset?)
  }

  function DoFinish(s: Script, code: int, pc: FinishPc, a: Answer): Script
    requires |s.handlers| > 0
  {
    match pc
    case KillTimer => GoTo(s, Finish(code, PrintLine)).(timer := false)
    case PrintLine => GoTo(s, Finish(code, ExitNow)).(log := s.log + [Line(Exit(code, s.started, a.now))])
    case ExitNow => s.(ended := Some(code))
  }

  function DoStop(s: Script, pc: StopPc): Script
    requires |s.handlers| > 0
  {
    match pc
    case IgnoreTerm => GoTo(s, Stop(TestPid)).(termIgnored := true)
    case TestPid => if s.pid then GoTo(s, Stop(MarkInterrupted)) else Call(s, Finish(TERMINATED, KillTimer))
    case MarkInterrupted => GoTo(s, Stop(PassTerm)).(interrupted := true)
    case PassTerm => GoTo(s, Stop(StartTimer))
    case StartTimer => s.(handlers := s.handlers[..|s.handlers| - 1], timer := true)
  }

  function DoOverdue(s: Script, pc: OverduePc, a: Answer): Script
    requires |s.handlers| > 0
  {
    match pc
    case IgnoreAlarm => GoTo(s, Overdue(SayOverdue)).(alarmIgnored := true)
    case SayOverdue => GoTo(s, Overdue(PrintKilled))
    case PrintKilled => GoTo(s, Overdue(KillGroup)).(log := s.log + [Line(Exit(KILLED, s.started, a.now))])
    case KillGroup => s.(ended := Some(KILLED))
  }

  function Next(s: Script, event: Event): Script {
    if s.ended.Some? then s else
    match event
    case Term => if s.termIgnored then s else Call(s, Stop(IgnoreTerm))
    case Alarm => if s.alarmIgnored then s else Call(s, Overdue(IgnoreAlarm))
    case Print(text) => s.(log := s.log + [Printed(text)])
    case Do(a) =>
      if |s.handlers| == 0 then DoMain(s, a) else
      match s.handlers[|s.handlers| - 1]
      case Finish(code, pc) => DoFinish(s, code, pc, a)
      case Stop(pc) => DoStop(s, pc)
      case Overdue(pc) => DoOverdue(s, pc, a)
  }

  function After(s: Script, events: seq<Event>): Script {
    if |events| == 0 then s else Next(After(s, events[..|events| - 1]), events[|events| - 1])
  }

  // ----- the main program -----------------------------------------------------------------------

  /** The pause after try t, and what was slept before it. */
  function PauseOf(t: nat): nat
    requires t >= 1
  {
    if t == 1 then 5 else PauseAfter(PauseOf(t - 1))
  }

  function SleptBefore(t: nat): nat
    requires t >= 1
  {
    if t == 1 then 0 else SleptBefore(t - 1) + PauseOf(t - 1)
  }

  lemma SevenTries()
    ensures SleptBefore(TRIES) == 195
  {
    assert PauseOf(2) == 10 && PauseOf(3) == 20 && PauseOf(4) == 40 && PauseOf(5) == 60 && PauseOf(6) == 60;
    assert SleptBefore(2) == 5 && SleptBefore(3) == 15 && SleptBefore(4) == 35 && SleptBefore(5) == 75;
    assert SleptBefore(6) == 135;
  }

  lemma {:induction false} SleptRises(t: nat, u: nat)
    requires 1 <= t <= u
    ensures SleptBefore(t) <= SleptBefore(u)
    decreases u - t
  {
    if t < u { SleptRises(t, u - 1); }
  }

  predicate IsCode(n: int) { 0 <= n < 256 }

  /** What has been fetched, slept and started when the program is about to run each statement. */
  ghost predicate ProgramInv(p: Program) {
    && 1 <= p.try <= TRIES && IsCode(p.code)
    && (p.spawned <==> p.pc in {KeepPid, Reset, Wait, Test, Translate, Finished})
    && (p.pc.Finished? ==> p.code != EXIT_CODE_UNREACHABLE)
    && match p.pc
       case Setup => p.fetches == 0 && p.try == 1 && p.pause == 5 && p.slept == 0
       case Fetch => p.fetches == p.try - 1 && p.pause == PauseOf(p.try) && p.slept == SleptBefore(p.try)
       case Failed => p.fetches == p.try && p.pause == PauseOf(p.try) && p.slept == SleptBefore(p.try)
       case Probe => p.fetches == p.try == TRIES && p.slept == SleptBefore(p.try)
       case Bump => p.fetches == p.try < TRIES && p.pause == PauseOf(p.try) && p.slept == SleptBefore(p.try)
       case Sleep => p.fetches == p.try - 1 >= 1 && p.pause == PauseOf(p.try - 1) && p.slept == SleptBefore(p.try - 1)
       case Lengthen => p.fetches == p.try - 1 >= 1 && p.pause == PauseOf(p.try - 1) && p.slept == SleptBefore(p.try)
       case _ => p.fetches == p.try && p.slept == SleptBefore(p.try)
  }

  lemma MovesKeepsInv(p: Program, interrupted: bool, a: Answer)
    requires ProgramInv(p)
    ensures ProgramInv(Moves(p, interrupted, a))
  {
    hide PauseOf, SleptBefore;
    FirstTry();
    if p.try >= 2 { NextTry(p.try - 1); }
  }

  lemma FirstTry()
    ensures PauseOf(1) == 5 && SleptBefore(1) == 0
  {
  }

  lemma NextTry(t: nat)
    requires t >= 1
    ensures PauseOf(t + 1) == PauseAfter(PauseOf(t)) && SleptBefore(t + 1) == SleptBefore(t) + PauseOf(t)
  {
  }

  // ----- what every step keeps ------------------------------------------------------------------

  /** The code a handler has printed an exit line of, once it has. */
  function Due(h: Handler): Option<int> {
    match h
    case Finish(code, ExitNow) => Some(code)
    case Overdue(KillGroup) => Some(KILLED)
    case _ => None
  }

  /** The code of the topmost handler that has printed its line. */
  function LatestDue(handlers: seq<Handler>): Option<int> {
    if |handlers| == 0 then None
    else if Due(handlers[|handlers| - 1]).Some? then Due(handlers[|handlers| - 1])
    else LatestDue(handlers[..|handlers| - 1])
  }

  /** The last exit line of a log. */
  function LastLine(log: seq<Chunk>): Option<Exit> {
    if |log| == 0 then None
    else if log[|log| - 1].Line? then Some(log[|log| - 1].x)
    else LastLine(log[..|log| - 1])
  }

  /** Only a failed probe finishes with the code of an unreachable repository. */
  ghost predicate HandlerOk(h: Handler, pc: Pc) {
    h.Finish? ==> IsCode(h.code) && (h.code == EXIT_CODE_UNREACHABLE ==> pc.Probe?)
  }

  ghost predicate HandlersOk(handlers: seq<Handler>, pc: Pc) {
    forall i :: 0 <= i < |handlers| ==> HandlerOk(handlers[i], pc)
  }

  /** Every exit line is one the reader can read, and says when the script started. */
  ghost predicate LinesOk(log: seq<Chunk>, started: int) {
    forall i :: 0 <= i < |log| && log[i].Line? ==> log[i].x.InRange() && log[i].x.started == started
  }

  /** The topmost handler that has printed its exit line has printed the log's last one, and an ended
      script ended with its code. */
  ghost predicate DueOk(due: Option<int>, last: Option<Exit>, ended: Option<int>) {
    && (due.Some? ==> last.Some? && last.value.code == due.value)
    && (ended.Some? ==> due == ended)
  }

  ghost predicate Inv(s: Script) {
    && ProgramInv(s.program) && HandlersOk(s.handlers, s.program.pc) && LinesOk(s.log, s.started)
    && DueOk(LatestDue(s.handlers), LastLine(s.log), s.ended)
    && (s.ended == Some(EXIT_CODE_UNREACHABLE) ==> s.program.pc.Probe?)
  }

  lemma LatestAfterCall(handlers: seq<Handler>, h: Handler)
    ensures LatestDue(handlers + [h]) == if Due(h).Some? then Due(h) else LatestDue(handlers)
  {
    assert (handlers + [h])[..|handlers|] == handlers;
  }

  lemma LastAfterAppend(log: seq<Chunk>, c: Chunk)
    ensures LastLine(log + [c]) == if c.Line? then Some(c.x) else LastLine(log)
  {
    assert (log + [c])[..|log|] == log;
  }

  lemma MainKeepsInv(s: Script, a: Answer)
    requires Inv(s) && s.ended.None? && |s.handlers| == 0
    ensures Inv(DoMain(s, a))
  {
    hide LatestDue, LastLine, Moves;
    match Finishes(s.program, a)
    case Some(code) => LatestAfterCall(s.handlers, Finish(code, KillTimer));
    case None => MovesKeepsInv(s.program, s.interrupted, a);
  }

  lemma FinishKeepsInv(s: Script, code: int, pc: FinishPc, a: Answer)
    requires Inv(s) && s.ended.None? && |s.handlers| > 0 && s.handlers[|s.handlers| - 1] == Finish(code, pc)
    ensures Inv(DoFinish(s, code, pc, a))
  {
    hide LatestDue, LastLine, ProgramInv;
    var n := |s.handlers| - 1;
    assert s.handlers == s.handlers[..n] + [s.handlers[n]];
    assert HandlerOk(s.handlers[n], s.program.pc);
    LatestAfterCall(s.handlers[..n], s.handlers[n]);
    LatestAfterCall(s.handlers[..n], Finish(code, PrintLine));
    LatestAfterCall(s.handlers[..n], Finish(code, ExitNow));
    LastAfterAppend(s.log, Line(Exit(code, s.started, a.now)));
  }

  /** A handler is called that has printed nothing yet. */
  lemma CallKeepsInv(s: Script, h: Handler)
    requires Inv(s) && s.ended.None? && HandlerOk(h, s.program.pc) && Due(h).None?
    ensures Inv(Call(s, h))
  {
    hide LatestDue, LastLine, ProgramInv, LinesOk, HandlerOk;
    LatestAfterCall(s.handlers, h);
  }

  /** The running handler, which has printed nothing, moves on without printing, or returns. */
  lemma GoToKeepsInv(s: Script, h: Handler)
    requires Inv(s) && s.ended.None? && |s.handlers| > 0 && Due(s.handlers[|s.handlers| - 1]).None?
    requires HandlerOk(h, s.program.pc) && Due(h).None?
    ensures Inv(GoTo(s, h)) && Inv(s.(handlers := s.handlers[..|s.handlers| - 1]))
  {
    hide LatestDue, LastLine, ProgramInv, LinesOk, HandlerOk, Due;
    var n := |s.handlers| - 1;
    assert s.handlers == s.handlers[..n] + [s.handlers[n]];
    LatestAfterCall(s.handlers[..n], s.handlers[n]);
    LatestAfterCall(s.handlers[..n], h);
  }

  lemma StopKeepsInv(s: Script, pc: StopPc)
    requires Inv(s) && s.ended.None? && |s.handlers| > 0 && s.handlers[|s.handlers| - 1] == Stop(pc)
    ensures Inv(DoStop(s, pc))
  {
    hide LatestDue, LastLine, ProgramInv, LinesOk, DueOk, HandlersOk;
    match pc
    case IgnoreTerm => GoToKeepsInv(s, Stop(TestPid));
    case TestPid =>
      if s.pid {
        GoToKeepsInv(s, Stop(MarkInterrupted));
      } else {
        CallKeepsInv(s, Finish(TERMINATED, KillTimer));
      }
    case MarkInterrupted => GoToKeepsInv(s, Stop(PassTerm));
    case PassTerm => GoToKeepsInv(s, Stop(StartTimer));
    case StartTimer => GoToKeepsInv(s, Stop(StartTimer));
  }

  lemma OverdueKeepsInv(s: Script, pc: OverduePc, a: Answer)
    requires Inv(s) && s.ended.None? && |s.handlers| > 0 && s.handlers[|s.handlers| - 1] == Overdue(pc)
    ensures Inv(DoOverdue(s, pc, a))
  {
    hide LatestDue, LastLine, ProgramInv, LinesOk, DueOk, HandlersOk;
    match pc
    case IgnoreAlarm => GoToKeepsInv(s, Overdue(SayOverdue));
    case SayOverdue => GoToKeepsInv(s, Overdue(PrintKilled));
    case PrintKilled => KilledKeepsInv(s, a);
    case KillGroup => KilledEnds(s);
  }

  lemma KilledKeepsInv(s: Script, a: Answer)
    requires Inv(s) && s.ended.None? && |s.handlers| > 0 && s.handlers[|s.handlers| - 1] == Overdue(PrintKilled)
    ensures Inv(DoOverdue(s, PrintKilled, a))
  {
    hide LatestDue, LastLine, ProgramInv;
    var n := |s.handlers| - 1;
    LatestAfterCall(s.handlers[..n], Overdue(KillGroup));
    LastAfterAppend(s.log, Line(Exit(KILLED, s.started, a.now)));
  }

  lemma KilledEnds(s: Script)
    requires Inv(s) && s.ended.None? && |s.handlers| > 0 && s.handlers[|s.handlers| - 1] == Overdue(KillGroup)
    ensures Inv(s.(ended := Some(KILLED)))
  {
    hide LatestDue, LastLine, ProgramInv, LinesOk, HandlersOk;
    var n := |s.handlers| - 1;
    assert s.handlers == s.handlers[..n] + [s.handlers[n]];
    LatestAfterCall(s.handlers[..n], s.handlers[n]);
  }

  lemma PrintKeepsInv(s: Script, text: string)
    requires Inv(s)
    ensures Inv(s.(log := s.log + [Printed(text)]))
  {
    hide LatestDue, LastLine, ProgramInv, HandlersOk;
    LastAfterAppend(s.log, Printed(text));
  }

  lemma MainKeepsStarted(s: Script, a: Answer)
    ensures DoMain(s, a).started == s.started
  {
    hide Moves, Finishes;
  }

  lemma FinishKeepsStarted(s: Script, code: int, pc: FinishPc, a: Answer)
    requires |s.handlers| > 0
    ensures DoFinish(s, code, pc, a).started == s.started
  {
  }

  lemma StopKeepsStarted(s: Script, pc: StopPc)
    requires |s.handlers| > 0
    ensures DoStop(s, pc).started == s.started
  {
  }

  lemma OverdueKeepsStarted(s: Script, pc: OverduePc, a: Answer)
    requires |s.handlers| > 0
    ensures DoOverdue(s, pc, a).started == s.started
  {
  }

  lemma NextKeepsInv(s: Script, event: Event)
    requires Inv(s)
    ensures Inv(Next(s, event)) && Next(s, event).started == s.started
  {
    hide Inv, DoMain, DoFinish, DoStop, DoOverdue;
    if s.ended.None? {
      match event
      case Term => CallKeepsInv(s, Stop(IgnoreTerm));
      case Alarm => CallKeepsInv(s, Overdue(IgnoreAlarm));
      case Print(text) => PrintKeepsInv(s, text);
      case Do(a) =>
        if |s.handlers| == 0 {
          MainKeepsInv(s, a);
          MainKeepsStarted(s, a);
        } else {
          match s.handlers[|s.handlers| - 1]
          case Finish(code, pc) =>
            FinishKeepsInv(s, code, pc, a);
            FinishKeepsStarted(s, code, pc, a);
          case Stop(pc) =>
            StopKeepsInv(s, pc);
            StopKeepsStarted(s, pc);
          case Overdue(pc) =>
            OverdueKeepsInv(s, pc, a);
            OverdueKeepsStarted(s, pc, a);
        }
    }
  }

  /** Every state a run reaches, from whenever the script started. */
  lemma {:induction false} EveryRunKeepsInv(started: Seconds, events: seq<Event>)
    ensures Inv(After(Begin(started), events)) && After(Begin(started), events).started == started
  {
    hide Next;
    if |events| > 0 {
      EveryRunKeepsInv(started, events[..|events| - 1]);
      NextKeepsInv(After(Begin(started), events[..|events| - 1]), events[|events| - 1]);
    }
  }

  // ----- what every run promises ----------------------------------------------------------------

  lemma FetchesBounded(p: Program)
    requires ProgramInv(p)
    ensures p.fetches <= TRIES && p.slept <= 195
    ensures p.pc.Probe? ==> !p.spawned && p.fetches == TRIES && p.slept == 195
  {
    hide SleptBefore, PauseOf;
    SevenTries();
    SleptRises(p.try, TRIES);
    SleptRises(1, TRIES);
    if p.try >= 2 { SleptRises(p.try - 1, TRIES); }
  }

  /** In every run, whatever signals reach it and when: at most seven tries with at most 195 seconds
      of pauses between them, and the script ends as the environment's fault only when the command
      never started and all seven tries were made. */
  lemma EveryRunBlamesFairly(started: Seconds, events: seq<Event>, message: string)
    ensures var s := After(Begin(started), events);
            && s.program.fetches <= TRIES && s.program.slept <= 195
            && (s.ended.Some? && EndedByEnvironment(s.ended.value, message) ==>
                  !s.program.spawned && s.program.fetches == TRIES && s.program.slept == 195)
  {
    hide ProgramInv, EndedByEnvironment, After;
    EveryRunKeepsInv(started, events);
    var s := After(Begin(started), events);
    FetchesBounded(s.program);
    if s.ended.Some? { OnlyUnreachableBlamesEnvironment(s.ended.value, message); }
  }

  function RenderChunk(c: Chunk): string {
    match c
    case Printed(text) => text
    case Line(x) => "\n" + (Written(x) + "\n")
  }

  /** The log as the node's output. */
  function Render(log: seq<Chunk>): string {
    if |log| == 0 then "" else Render(log[..|log| - 1]) + RenderChunk(log[|log| - 1])
  }

  /** What was printed after the script's last exit line. */
  function Tail(log: seq<Chunk>): string {
    if |log| == 0 || log[|log| - 1].Line? then "" else Tail(log[..|log| - 1]) + RenderChunk(log[|log| - 1])
  }

  /** The output, cut at the script's last exit line. */
  lemma {:induction false} RenderSplits(log: seq<Chunk>) returns (before: string)
    requires LastLine(log).Some?
    ensures Render(log) == before + "\n" + (Written(LastLine(log).value) + "\n" + Tail(log))
  {
    hide Written;
    var n := |log| - 1;
    if log[n].Line? {
      before := Render(log[..n]);
    } else {
      before := RenderSplits(log[..n]);
    }
  }

  lemma {:induction false} LastLineIn(log: seq<Chunk>)
    requires LastLine(log).Some?
    ensures exists i :: 0 <= i < |log| && log[i] == Line(LastLine(log).value)
  {
    if !log[|log| - 1].Line? {
      LastLineIn(log[..|log| - 1]);
    }
  }

  /** Of every run that ended by itself, the reader finds the script's own code and start, whatever
      the command printed, unless something printed after the script's last line reads as an exit
      line: then, and only then, it finds that one. */
  lemma EveryRunIsReadBack(started: Seconds, events: seq<Event>)
    requires After(Begin(started), events).ended.Some?
    ensures var s := After(Begin(started), events);
            var found, forged := LastExit(Lines(Render(s.log))), LastExit(Lines(Tail(s.log)));
            if forged.Some? then found == forged
            else found.Some? && found.value.code == s.ended.value && found.value.started == started
  {
    hide LastExit, Lines, Written, Render, Tail, After, ProgramInv;
    EveryRunKeepsInv(started, events);
    var s := After(Begin(started), events);
    LastLineIn(s.log);
    var before := RenderSplits(s.log);
    ScriptsLineIsFound(before, LastLine(s.log).value, Tail(s.log));
  }

  /** Of every run that ended by itself with no exit line after the script's last, the code that is
      found blames the environment only when the command never started and all seven tries were made. */
  lemma EveryRunReadBlamesFairly(started: Seconds, events: seq<Event>, message: string)
    requires After(Begin(started), events).ended.Some?
    requires LastExit(Lines(Tail(After(Begin(started), events).log))).None?
    ensures var s := After(Begin(started), events);
            var found := LastExit(Lines(Render(s.log)));
            && found.Some?
            && (EndedByEnvironment(found.value.code, message) ==>
                  !s.program.spawned && s.program.fetches == TRIES && s.program.slept == 195)
  {
    hide After, LastExit, Lines, Render, Tail, EndedByEnvironment;
    EveryRunIsReadBack(started, events);
    EveryRunBlamesFairly(started, events, message);
  }

  lemma AfterOne(s: Script, events: seq<Event>, event: Event)
    ensures After(s, events + [event]) == Next(After(s, events), event)
  {
    assert (events + [event])[..|events|] == events;
  }

  /** Everything runs as it should up to the command, which is then told to stop and does not. */
  lemma RunToOverdue(started: Seconds, a: Answer) returns (events: seq<Event>)
    requires a.ok
    ensures var s := After(Begin(started), events);
            s.program.spawned && s.handlers == [Overdue(PrintKilled)] && s.log == [] && s.ended.None? && s.started == started
  {
    hide After;
    events := [];
    var s := Begin(started);
    assert After(s, events) == s by { AfterNothing(s); }
    var script := [Do(a), Do(a), Do(a), Do(a), Do(a), Do(a), Term, Do(a), Do(a), Do(a), Do(a), Do(a), Alarm, Do(a), Do(a)];
    for i := 0 to |script|
      invariant After(Begin(started), events) == s
      invariant s == ToOverdue(started, i)
    {
      AfterOne(Begin(started), events, script[i]);
      events, s := events + [script[i]], Next(s, script[i]);
    }
  }

  lemma AfterNothing(s: Script)
    ensures After(s, []) == s
  {
  }

  /** The states of that run. */
  function ToOverdue(started: Seconds, i: nat): Script {
    var pc := if i == 0 then Setup else if i == 1 then Fetch else if i == 2 then Checkout else if i == 3 then Spawn
              else if i == 4 then KeepPid else if i == 5 then Reset else Wait;
    var p := Program(pc, 1, 5, 0, i >= 4, if i >= 2 then 1 else 0, 0);
    var handlers := if i < 7 then [] else if i == 7 then [Stop(IgnoreTerm)] else if i == 8 then [Stop(TestPid)]
                    else if i == 9 then [Stop(MarkInterrupted)] else if i == 10 then [Stop(PassTerm)]
                    else if i == 11 then [Stop(StartTimer)] else if i == 12 then []
                    else if i == 13 then [Overdue(IgnoreAlarm)] else if i == 14 then [Overdue(SayOverdue)]
                    else [Overdue(PrintKilled)];
    Script(started, p, handlers, i >= 8, i >= 14, i >= 5, i >= 10, i >= 12, [], None)
  }

  /** A line the command printed can be the last: a command that is to be killed still runs when the
      script has printed its exit line, and the code found is then the command's to choose. */
  lemma CommandCanForgeLine(started: Seconds, x: Exit) returns (events: seq<Event>)
    requires x.InRange()
    ensures var s := After(Begin(started), events);
            && s.program.spawned && s.ended == Some(KILLED)
            && LastExit(Lines(Render(s.log))) == Some(x)
  {
    hide After, Written, Lines, LastExit;
    var a := Answer(true, 0, 0);
    var begin := Begin(started);
    events := RunToOverdue(started, a);
    AfterOne(begin, events, Do(a));
    AfterOne(begin, events + [Do(a)], Print(RenderChunk(Line(x))));
    AfterOne(begin, events + [Do(a)] + [Print(RenderChunk(Line(x)))], Do(a));
    events := events + [Do(a)] + [Print(RenderChunk(Line(x)))] + [Do(a)];
    EveryRunIsReadBack(started, events);
    var log := After(begin, events).log;
    assert log[..1][..0] == [] && log == log[..1] + [Printed(RenderChunk(Line(x)))];
    assert log[..1][0].Line?;
    assert Tail(log[..1]) == "";
    assert Tail(log) == "" + "\n" + (Written(x) + "\n" + "");
    NothingAfter();
    ScriptsLineIsFound("", x, "");
  }
}
