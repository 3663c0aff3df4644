/** What a launch ends with, by what its commands, the repository and wait answered it. */
module LaunchTold {
  import opened Text
  import opened ExitLine
  import opened Faults
  import opened Launch

  /** The answers the main program's statements were given so far, in order, whether a TERM was taken
      since the waiting loop last began, whether a handler has turned a signal off, whether the timer of
      the stop grace runs, and what the clock said at the last exit line. */
  datatype Told = Told(setup: seq<Answer>, fetch: seq<Answer>, probe: seq<Answer>, checkout: seq<Answer>,
                       wait: seq<Answer>, term: bool, noTerm: bool, noAlarm: bool, timer: bool, said: Seconds)

  function Hear(t: Told, pc: Pc, a: Answer): Told {
    match pc
    case Setup => t.(setup := t.setup + [a])
    case Fetch => t.(fetch := t.fetch + [a])
    case Probe => t.(probe := t.probe + [a])
    case Checkout => t.(checkout := t.checkout + [a])
    case Wait => t.(wait := t.wait + [a])
    case Reset => t.(term := false)
    case _ => t
  }

  /** What is told by an event in a state: the answer to the statement the main program runs, or that
      the handler of TERM marks it. */
  function Tell(t: Told, s: Script, event: Event): Told {
    if s.ended.Some? || !event.Do? then t
    else if |s.handlers| == 0 then Hear(t, s.program.pc, event.answer)
    else
      match s.handlers[|s.handlers| - 1]
      case Stop(MarkInterrupted) => t.(term := true)
      case Stop(IgnoreTerm) => t.(noTerm := true)
      case Stop(StartTimer) => t.(timer := true)
      case Overdue(IgnoreAlarm) => t.(noAlarm := true)
      case Overdue(PrintKilled) => t.(said := event.answer.now)
      case Finish(_, KillTimer) => t.(timer := false)
      case Finish(_, PrintLine) => t.(said := event.answer.now)
      case _ => t
  }

  function ToldBy(started: Seconds, events: seq<Event>): Told {
    if |events| == 0 then Told([], [], [], [], [], false, false, false, false, 0)
    else
      var n := |events| - 1;
      Tell(ToldBy(started, events[..n]), After(Begin(started), events[..n]), events[n])
  }

  predicate LastOk(answers: seq<Answer>) { |answers| > 0 && answers[|answers| - 1].ok }
  predicate LastFailed(answers: seq<Answer>) { |answers| > 0 && !answers[|answers| - 1].ok }

  predicate PastFetch(pc: Pc) { pc in {Checkout, Spawn, KeepPid, Reset, Wait, Test, Translate, Finished} }

  predicate PastCheckout(pc: Pc) { pc in {Spawn, KeepPid, Reset, Wait, Test, Translate, Finished} }

  /** The status of a command as the launch ends with it: its own code, but never that of an
      unreachable repository. */
  function Passed(status: nat): int { if status % 256 == EXIT_CODE_UNREACHABLE then 1 else status % 256 }

  ghost predicate FetchTold(pc: Pc, fetches: nat, answers: seq<Answer>) {
    && |answers| == fetches && (forall i :: 0 <= i < |answers| - 1 ==> !answers[i].ok)
    && (LastOk(answers) <==> PastFetch(pc))
  }

  ghost predicate DoneTold(p: Program, t: Told) {
    (!p.pc.Setup? ==> LastOk(t.setup)) && (PastCheckout(p.pc) ==> LastOk(t.checkout))
  }

  ghost predicate WaitTold(p: Program, t: Told) {
    && (p.pc.Test? || p.pc.Translate? ==> |t.wait| > 0 && p.code == t.wait[|t.wait| - 1].status % 256)
    && (p.pc.Finished? ==> |t.wait| > 0 && p.code == Passed(t.wait[|t.wait| - 1].status))
  }

  ghost predicate ProgramTold(p: Program, t: Told) {
    FetchTold(p.pc, p.fetches, t.fetch) && DoneTold(p, t) && WaitTold(p, t)
  }

  /** What the main program called finish with, and why. */
  ghost predicate CalledFor(p: Program, t: Told, code: int) {
    match p.pc
    case Setup => code == 1 && LastFailed(t.setup)
    case Probe => |t.probe| > 0 && code == if t.probe[|t.probe| - 1].ok then 1 else EXIT_CODE_UNREACHABLE
    case Checkout => code == 1 && LastFailed(t.checkout)
    case Finished => code == p.code
    case _ => false
  }

  predicate PidKnown(pc: Pc) { pc in {Reset, Wait, Test, Translate, Finished} }

  ghost predicate HandlersTold(handlers: seq<Handler>, p: Program, t: Told) {
    && (|handlers| > 0 && handlers[0].Finish? ==> CalledFor(p, t, handlers[0].code))
    && (forall i :: 1 <= i < |handlers| && handlers[i].Finish? ==> handlers[i].code == TERMINATED && !PidKnown(p.pc))
  }

  /** The last exit line says when it was printed. */
  ghost predicate SaidLast(log: seq<Chunk>, said: int) {
    LastLine(log).Some? ==> LastLine(log).value.ended == said
  }

  ghost predicate Agrees(s: Script, t: Told) {
    && s.interrupted == t.term && s.termIgnored == t.noTerm && s.alarmIgnored == t.noAlarm
    && s.timer == t.timer && SaidLast(s.log, t.said)
    && s.pid == PidKnown(s.program.pc) && ProgramTold(s.program, t) && HandlersTold(s.handlers, s.program, t)
    && (s.ended.Some? ==> |s.handlers| > 0 && Due(s.handlers[|s.handlers| - 1]) == s.ended)
  }

  // ----- every step -----------------------------------------------------------------------------

  lemma MovesTold(p: Program, t: Told, interrupted: bool, a: Answer)
    requires ProgramTold(p, t) && Finishes(p, a).None?
    ensures ProgramTold(Moves(p, interrupted, a), Hear(t, p.pc, a))
  {
    hide FetchTold, DoneTold, WaitTold, Moves, Hear;
    MovesFetchTold(p, t, interrupted, a);
    MovesDoneTold(p, t, interrupted, a);
    MovesWaitTold(p, t, interrupted, a);
  }

  lemma MovesDoneTold(p: Program, t: Told, interrupted: bool, a: Answer)
    requires DoneTold(p, t) && Finishes(p, a).None?
    ensures DoneTold(Moves(p, interrupted, a), Hear(t, p.pc, a))
  {
    hide PauseAfter;
  }

  lemma MovesWaitTold(p: Program, t: Told, interrupted: bool, a: Answer)
    requires WaitTold(p, t) && Finishes(p, a).None?
    ensures WaitTold(Moves(p, interrupted, a), Hear(t, p.pc, a))
  {
    hide PauseAfter;
  }

  lemma MovesFetchTold(p: Program, t: Told, interrupted: bool, a: Answer)
    requires FetchTold(p.pc, p.fetches, t.fetch) && Finishes(p, a).None?
    ensures var q := Moves(p, interrupted, a); FetchTold(q.pc, q.fetches, Hear(t, p.pc, a).fetch)
  {
    hide Moves, Hear;
    FetchMoves(p, interrupted, a);
    FetchHeard(t, p.pc, a);
  }

  lemma FetchMoves(p: Program, interrupted: bool, a: Answer)
    requires Finishes(p, a).None?
    ensures var q := Moves(p, interrupted, a);
            && q.fetches == p.fetches + (if p.pc.Fetch? then 1 else 0)
            && PastFetch(q.pc) == if p.pc.Fetch? then a.ok else PastFetch(p.pc)
  {
    hide PauseAfter;
  }

  lemma FetchHeard(t: Told, pc: Pc, a: Answer)
    ensures Hear(t, pc, a).fetch == if pc.Fetch? then t.fetch + [a] else t.fetch
  {
  }

  lemma FinishesTold(p: Program, t: Told, a: Answer)
    requires ProgramTold(p, t) && Finishes(p, a).Some?
    ensures ProgramTold(p, Hear(t, p.pc, a)) && CalledFor(p, Hear(t, p.pc, a), Finishes(p, a).value)
    ensures Hear(t, p.pc, a).term == t.term
  {
  }

  lemma HeardTerm(p: Program, t: Told, a: Answer)
    ensures Hear(t, p.pc, a).term == (t.term && !p.pc.Reset?)
    ensures var u := Hear(t, p.pc, a); u.noTerm == t.noTerm && u.noAlarm == t.noAlarm && u.timer == t.timer && u.said == t.said
  {
  }

  lemma PidMoves(p: Program, interrupted: bool, a: Answer)
    ensures Finishes(p, a).None? ==> PidKnown(Moves(p, interrupted, a).pc) == (PidKnown(p.pc) || p.pc.KeepPid?)
  {
  }

  lemma MainAgrees(s: Script, t: Told, a: Answer)
    requires Agrees(s, t) && s.ended.None? && |s.handlers| == 0
    ensures Agrees(DoMain(s, a), Hear(t, s.program.pc, a))
  {
    hide ProgramTold, CalledFor, Hear, Moves, Finishes;
    HeardTerm(s.program, t, a);
    PidMoves(s.program, s.interrupted, a);
    if Finishes(s.program, a).Some? {
      FinishesTold(s.program, t, a);
    } else {
      MovesTold(s.program, t, s.interrupted, a);
    }
  }

  lemma CallAgrees(s: Script, t: Told, h: Handler)
    requires Agrees(s, t) && s.ended.None? && (h.Finish? ==> |s.handlers| > 0 && h.code == TERMINATED && !s.pid)
    ensures Agrees(Call(s, h), t)
  {
    hide ProgramTold, CalledFor;
  }

  /** The running handler moves on, and is a finish with a code only if it was one. */
  lemma GoToAgrees(s: Script, t: Told, h: Handler)
    requires Agrees(s, t) && s.ended.None? && |s.handlers| > 0
    requires h.Finish? ==> s.handlers[|s.handlers| - 1].Finish? && s.handlers[|s.handlers| - 1].code == h.code
    ensures HandlersTold(GoTo(s, h).handlers, s.program, t)
    ensures HandlersTold(s.handlers[..|s.handlers| - 1], s.program, t)
  {
    hide ProgramTold, CalledFor;
  }

  /** What the handlers tell beside the program's answers. */
  lemma ToldAgain(p: Program, handlers: seq<Handler>, t: Told, u: Told)
    requires u == t.(term := u.term, noTerm := u.noTerm, noAlarm := u.noAlarm, timer := u.timer, said := u.said)
    ensures ProgramTold(p, t) ==> ProgramTold(p, u)
    ensures HandlersTold(handlers, p, t) ==> HandlersTold(handlers, p, u)
  {
  }

  /** A handler's statement that changes what the answers say nothing of, and tells what it changed. */
  lemma StepAgrees(s: Script, t: Told, after: Script, u: Told)
    requires Agrees(s, t) && after.program == s.program && after.pid == s.pid && after.ended.None?
    requires HandlersTold(after.handlers, s.program, t) && SaidLast(after.log, u.said)
    requires u == t.(term := after.interrupted, noTerm := after.termIgnored, noAlarm := after.alarmIgnored, timer := after.timer, said := u.said)
    ensures Agrees(after, u)
  {
    hide ProgramTold, HandlersTold, LastLine;
    ToldAgain(s.program, after.handlers, t, u);
  }

  lemma FinishTells(s: Script, t: Told, code: int, pc: FinishPc, a: Answer)
    requires s.ended.None? && |s.handlers| > 0 && s.handlers[|s.handlers| - 1] == Finish(code, pc)
    ensures Tell(t, s, Do(a)) == if pc.KillTimer? then t.(timer := false) else if pc.PrintLine? then t.(said := a.now) else t
  {
  }

  lemma FinishAgrees(s: Script, t: Told, code: int, pc: FinishPc, a: Answer)
    requires Agrees(s, t) && s.ended.None? && |s.handlers| > 0 && s.handlers[|s.handlers| - 1] == Finish(code, pc)
    ensures Agrees(DoFinish(s, code, pc, a), Tell(t, s, Do(a)))
  {
    hide ProgramTold, HandlersTold, LastLine, Tell;
    FinishTells(s, t, code, pc, a);
    if !pc.ExitNow? {
      GoToAgrees(s, t, if pc.KillTimer? then Finish(code, PrintLine) else Finish(code, ExitNow));
      LastAfterAppend(s.log, Line(Exit(code, s.started, a.now)));
      StepAgrees(s, t, DoFinish(s, code, pc, a), Tell(t, s, Do(a)));
    }
  }

  lemma StopTells(s: Script, t: Told, pc: StopPc, a: Answer)
    requires s.ended.None? && |s.handlers| > 0 && s.handlers[|s.handlers| - 1] == Stop(pc)
    ensures Tell(t, s, Do(a)) == if pc.MarkInterrupted? then t.(term := true) else if pc.IgnoreTerm? then t.(noTerm := true)
                                 else if pc.StartTimer? then t.(timer := true) else t
  {
  }

  lemma StopAgrees(s: Script, t: Told, pc: StopPc, a: Answer)
    requires Agrees(s, t) && s.ended.None? && |s.handlers| > 0 && s.handlers[|s.handlers| - 1] == Stop(pc)
    ensures Agrees(DoStop(s, pc), Tell(t, s, Do(a)))
  {
    hide ProgramTold, HandlersTold, SaidLast, Tell;
    StopTells(s, t, pc, a);
    if pc.TestPid? && !s.pid {
      CallAgrees(s, t, Finish(TERMINATED, KillTimer));
    } else {
      GoToAgrees(s, t, StopNext(pc));
      StepAgrees(s, t, DoStop(s, pc), Tell(t, s, Do(a)));
    }
  }

  /** The statement of TERM's handler after one that does not end it. */
  function StopNext(pc: StopPc): Handler {
    Stop(match pc case IgnoreTerm => TestPid case TestPid => MarkInterrupted case MarkInterrupted => PassTerm case _ => StartTimer)
  }

  lemma OverdueTells(s: Script, t: Told, pc: OverduePc, a: Answer)
    requires s.ended.None? && |s.handlers| > 0 && s.handlers[|s.handlers| - 1] == Overdue(pc)
    ensures Tell(t, s, Do(a)) == if pc.IgnoreAlarm? then t.(noAlarm := true) else if pc.PrintKilled? then t.(said := a.now) else t
  {
  }

  lemma OverdueAgrees(s: Script, t: Told, pc: OverduePc, a: Answer)
    requires Agrees(s, t) && s.ended.None? && |s.handlers| > 0 && s.handlers[|s.handlers| - 1] == Overdue(pc)
    ensures Agrees(DoOverdue(s, pc, a), Tell(t, s, Do(a)))
  {
    hide ProgramTold, HandlersTold, LastLine, Tell;
    OverdueTells(s, t, pc, a);
    if !pc.KillGroup? {
      GoToAgrees(s, t, Overdue(if pc.IgnoreAlarm? then SayOverdue else if pc.SayOverdue? then PrintKilled else KillGroup));
      LastAfterAppend(s.log, Line(Exit(KILLED, s.started, a.now)));
      StepAgrees(s, t, DoOverdue(s, pc, a), Tell(t, s, Do(a)));
    }
  }

  lemma NextAgrees(s: Script, t: Told, event: Event)
    requires Agrees(s, t)
    ensures Agrees(Next(s, event), Tell(t, s, event))
  {
    hide Agrees, DoMain, DoFinish, DoStop, DoOverdue, Hear;
    if s.ended.None? {
      match event
      case Term => CallAgrees(s, t, Stop(IgnoreTerm));
      case Alarm => CallAgrees(s, t, Overdue(IgnoreAlarm));
      case Print(text) => PrintAgrees(s, t, text);
      case Do(a) =>
        if |s.handlers| == 0 {
          MainAgrees(s, t, a);
        } else {
          match s.handlers[|s.handlers| - 1]
          case Finish(code, pc) => FinishAgrees(s, t, code, pc, a);
          case Stop(pc) => StopAgrees(s, t, pc, a);
          case Overdue(pc) => OverdueAgrees(s, t, pc, a);
        }
    }
  }

  lemma PrintAgrees(s: Script, t: Told, text: string)
    requires Agrees(s, t)
    ensures Agrees(s.(log := s.log + [Printed(text)]), t)
  {
    hide ProgramTold, HandlersTold, LastLine;
    LastAfterAppend(s.log, Printed(text));
  }

  lemma {:induction false} EveryRunAgrees(started: Seconds, events: seq<Event>)
    ensures Agrees(After(Begin(started), events), ToldBy(started, events))
  {
    hide Next, Tell;
    if |events| > 0 {
      var n := |events| - 1;
      EveryRunAgrees(started, events[..n]);
      NextAgrees(After(Begin(started), events[..n]), ToldBy(started, events[..n]), events[n]);
    }
  }

  // ----- every run ------------------------------------------------------------------------------

  /** What every run that ended by itself ended with. Overdue ended it: 137. TERM before the command's
      process was known: 143. Otherwise the main program did: 1 where its directory, or the commit's
      checkout, failed; 1 where the repository answered the probe, and 75 where it did not, after seven
      fetches that all failed; and once the command had started, the status the last wait answered, 75
      alone become 1. */
  lemma EveryRunEndsAs(started: Seconds, events: seq<Event>)
    requires After(Begin(started), events).ended.Some?
    ensures var s, t := After(Begin(started), events), ToldBy(started, events);
            var code, n := s.ended.value, |s.handlers|;
            && n > 0
            && (s.handlers[n - 1].Overdue? ==> code == KILLED)
            && (!s.handlers[n - 1].Overdue? && n > 1 ==> code == TERMINATED && !PidKnown(s.program.pc))
            && (!s.handlers[n - 1].Overdue? && n == 1 ==>
                  match s.program.pc
                  case Setup => code == 1 && LastFailed(t.setup)
                  case Probe =>
                    && |t.fetch| == TRIES && (forall i :: 0 <= i < TRIES ==> !t.fetch[i].ok)
                    && |t.probe| > 0 && code == if t.probe[|t.probe| - 1].ok then 1 else EXIT_CODE_UNREACHABLE
                  case Checkout => code == 1 && LastOk(t.fetch) && LastFailed(t.checkout)
                  case Finished => s.program.spawned && |t.wait| > 0 && code == Passed(t.wait[|t.wait| - 1].status)
                  case _ => false)
  {
    hide After, ToldBy, LatestDue, LastLine, LinesOk, HandlersOk, DueOk;
    EveryRunAgrees(started, events);
    EveryRunKeepsInv(started, events);
    var s, t := After(Begin(started), events), ToldBy(started, events);
    ProgramEnds(s.program, t);
  }

  lemma ProgramEnds(p: Program, t: Told)
    requires ProgramInv(p) && ProgramTold(p, t)
    ensures p.pc.Probe? ==> |t.fetch| == TRIES && forall i :: 0 <= i < TRIES ==> !t.fetch[i].ok
    ensures p.pc.Checkout? ==> LastOk(t.fetch)
    ensures p.pc.Finished? ==> p.spawned && |t.wait| > 0 && p.code == Passed(t.wait[|t.wait| - 1].status)
  {
    hide PauseOf, SleptBefore;
  }

  /** The exit line that is found says when the script started and when the line was printed, where
      nothing printed after it reads as one. */
  lemma EveryRunTimes(started: Seconds, events: seq<Event>)
    requires After(Begin(started), events).ended.Some?
    requires LastExit(Lines(Tail(After(Begin(started), events).log))).None?
    ensures var s := After(Begin(started), events);
            LastExit(Lines(Render(s.log))) == Some(Exit(s.ended.value, started, ToldBy(started, events).said))
  {
    hide After, ToldBy, LastExit, Lines, Render, Tail, LatestDue, ProgramInv, HandlersOk, Written;
    EveryRunAgrees(started, events);
    EveryRunKeepsInv(started, events);
    var s := After(Begin(started), events);
    LastLineIn(s.log);
    var before := RenderSplits(s.log);
    ScriptsLineIsFound(before, LastLine(s.log).value, Tail(s.log));
  }

  /** Once its handler has turned a signal off, the signal changes nothing more; until then it calls the
      handler. The timer of the stop grace runs from where TERM's handler starts it until finish kills
      it. */
  lemma SignalsTakenOnce(started: Seconds, events: seq<Event>)
    requires After(Begin(started), events).ended.None?
    ensures var s, t := After(Begin(started), events), ToldBy(started, events);
            && Next(s, Term) == (if t.noTerm then s else Call(s, Stop(IgnoreTerm)))
            && Next(s, Alarm) == (if t.noAlarm then s else Call(s, Overdue(IgnoreAlarm)))
            && s.timer == t.timer
  {
    hide After, ToldBy;
    EveryRunAgrees(started, events);
  }

  /** A run the main program ended from the probe blames the environment exactly when the repository did
      not answer it. */
  lemma ProbeBlames(started: Seconds, events: seq<Event>, message: string)
    requires var s := After(Begin(started), events); s.ended.Some? && s.program.pc.Probe? && |s.handlers| == 1 && s.handlers[0].Finish?
    ensures var s, t := After(Begin(started), events), ToldBy(started, events);
            EndedByEnvironment(s.ended.value, message) <==> LastFailed(t.probe)
  {
    hide After, ToldBy, EndedByEnvironment;
    EveryRunEndsAs(started, events);
    OnlyUnreachableBlamesEnvironment(After(Begin(started), events).ended.value, message);
  }

  /** The waiting loop is left at the first wait that is answered with no TERM taken since the loop last
      began, and begun again otherwise; and the command had started after a fetch and a checkout that
      succeeded, of which every earlier fetch failed. */
  lemma WaitingEnds(started: Seconds, events: seq<Event>, a: Answer)
    requires var s := After(Begin(started), events); s.ended.None? && |s.handlers| == 0 && s.program.pc.Test?
    ensures var t := ToldBy(started, events);
            && Next(After(Begin(started), events), Do(a)).program.pc == (if t.term then Reset else Translate)
            && LastOk(t.setup) && LastOk(t.fetch) && LastOk(t.checkout)
            && forall i :: 0 <= i < |t.fetch| - 1 ==> !t.fetch[i].ok
  {
    hide After, ToldBy;
    EveryRunAgrees(started, events);
  }
}
