/** `runToLine` over a debug session (src/runtime/providers/DapRuntimeProvider.ts): the native path through the goto
    request, and the fallback path through a temporary breakpoint. Each step is what happens between two awaits; any
    number of session events may come between steps. */
module RunToLine {
  import opened Basics
  import opened DapSessions

  datatype Position = Position(file: string, line: int, column: Option<int>)

  /** Stack-frame evidence: the path or line may be missing. */
  datatype Evidence = Evidence(file: Option<string>, line: Option<int>, column: Option<int>)

  predicate PositionMatchesTarget(position: Evidence, target: Position)
  {
    && position.file == Some(target.file) && position.line == Some(target.line)
    && (target.column.None? || position.column == target.column)
  }

  datatype Result =
    | Paused(targetReached: bool, boundary: Boundary, sequence: nat, evidence: Option<Evidence>, target: Position)
    | Terminated
    | Timeout
    | Failed

  /** How the callback of the fallback path ended. */
  datatype Callback = Observed(outcome: Outcome) | Threw

  datatype Phase =
    | TargetsPending                                               // native: awaiting gotoTargets
    | GotoPending(target: Position, boundary: Boundary)
    | InstallPending                                               // fallback: awaiting lock and install
    | ContinuePending(target: Position, boundary: Boundary)
    | WaitPending(target: Position, boundary: Boundary, id: nat, native: bool)
    | RemovePending(target: Position, boundary: Boundary, ended: Callback)
    | StackPending(target: Position, boundary: Boundary, sequence: nat)
    | Done(result: Result, at: SessionState)

  /** `captured` is the history of stops at the moment the run captured its boundary. */
  datatype World = World(session: SessionState, phase: Phase, captured: seq<Stop>)

  datatype RunEvent =
    | SessionEvent(event: Event)
    | TargetsReply(target: Option<Position>)
    | GotoReply(ok: bool)
    | InstallReply(installed: Option<Position>)
    | ContinueReply(ok: bool)
    | Resume
    | RemoveReply(ok: bool)
    | StackReply(evidence: Option<Evidence>)

  function Finish(w: World, result: Result): (r: World)
  {
    w.(phase := Done(result, w.session))
  }

  function OutcomeOf(settled: seq<Settled>, id: nat): (r: Option<Outcome>)
    ensures r.Some? ==> exists d :: d in settled && d.id == id && d.outcome == r.value
  {
    if settled == [] then None
    else if settled[0].id == id then
      assert settled[0] in settled;
      Some(settled[0].outcome)
    else
      assert forall d | d in settled[1..] :: d in settled;
      OutcomeOf(settled[1..], id)
  }

  /** `#resultFromOutcome`, up to its stack lookup. */
  function FromOutcome(w: World, target: Position, boundary: Boundary, outcome: Outcome): (r: World)
  {
    if outcome.StopAt? && !w.session.terminated then w.(phase := StackPending(target, boundary, outcome.sequence))
    else Finish(w, Terminated)
  }

  /** The debuggee is paused: mark it running and capture the boundary, with no await in between. */
  function Dispatch(w: World, next: Boundary -> Phase): (r: World)
  {
    var running := DapSessions.Step(w.session, MarkRunning);
    World(running, next(CaptureStopBoundary(running)), running.history)
  }

  function StartWait(w: World, target: Position, boundary: Boundary, native: bool): (r: World)
  {
    w.(session := OnWaitAfter(w.session, boundary), phase := WaitPending(target, boundary, w.session.nextFresh, native))
  }

  function AfterWait(w: World, target: Position, boundary: Boundary, native: bool, outcome: Outcome): (r: World)
  {
    if !native then
      w.(phase := RemovePending(target, boundary, Observed(outcome)))
    else if outcome.StopAt? || outcome.TerminalAt? then FromOutcome(w, target, boundary, outcome)
    else if w.session.terminated then Finish(w, Terminated)
    else if outcome.TimedOut? then Finish(w, Timeout)
    else Finish(w, Failed)
  }

  function AfterRemoval(w: World, target: Position, boundary: Boundary, ended: Callback, cleaned: bool): (r: World)
  {
    if !cleaned then Finish(w, Failed)
    else if ended.Observed? && (ended.outcome.StopAt? || ended.outcome.TerminalAt?) then FromOutcome(w, target, boundary, ended.outcome)
    else if w.session.terminated then Finish(w, Terminated)
    else if ended.Observed? && ended.outcome.TimedOut? then Finish(w, Timeout)
    else Finish(w, Failed)
  }

  function AfterStack(w: World, target: Position, boundary: Boundary, sequence: nat, evidence: Option<Evidence>): (r: World)
  {
    if w.session.terminated then Finish(w, Terminated)
    else Finish(w, Paused(evidence.Some? && PositionMatchesTarget(evidence.value, target), boundary, sequence, evidence, target))
  }

  function Step(w: World, event: RunEvent): (r: World)
  {
    match (event, w.phase)
    case (SessionEvent(e), _) => w.(session := DapSessions.Step(w.session, e))
    case (TargetsReply(target), TargetsPending) =>
      if target.None? || !w.session.paused then Finish(w, Failed)
      else Dispatch(w, b => GotoPending(target.value, b))
    case (GotoReply(ok), GotoPending(target, boundary)) =>
      if ok then StartWait(w, target, boundary, true)
      else Finish(w, if w.session.terminated then Terminated else Failed)
    case (InstallReply(installed), InstallPending) =>
      // The boundary is captured before the callback rechecks that the session is paused.
      if installed.None? then Finish(w, if w.session.terminated then Terminated else Failed)
      else if !w.session.paused then
        World(w.session, RemovePending(installed.value, CaptureStopBoundary(w.session), Threw), w.session.history)
      else Dispatch(w, b => ContinuePending(installed.value, b))
    case (ContinueReply(ok), ContinuePending(target, boundary)) =>
      if ok then StartWait(w, target, boundary, false) else w.(phase := RemovePending(target, boundary, Threw))
    case (Resume, WaitPending(target, boundary, id, native)) =>
      var outcome := OutcomeOf(w.session.settled, id);
      if outcome.None? then w else AfterWait(w, target, boundary, native, outcome.value)
    case (RemoveReply(ok), RemovePending(target, boundary, ended)) => AfterRemoval(w, target, boundary, ended, ok)
    case (StackReply(evidence), StackPending(target, boundary, sequence)) => AfterStack(w, target, boundary, sequence, evidence)
    case _ => w
  }

  function Run(w: World, events: seq<RunEvent>): (r: World)
  {
    if events == [] then w else Step(Run(w, events[..|events| - 1]), events[|events| - 1])
  }

  /** A run begins in any reachable session state that is paused. */
  ghost predicate Begins(w: World)
  {
    DapSessions.Inv(w.session) && w.session.paused && (w.phase == TargetsPending || w.phase == InstallPending)
  }

  ghost predicate Captured(w: World, boundary: Boundary)
  {
    boundary.stopSequence == |w.captured| && w.captured <= w.session.history
  }

  /** A stop observed after the run's boundary. */
  ghost predicate Later(w: World, sequence: nat)
  {
    |w.captured| < sequence <= |w.session.history|
  }

  ghost predicate PhaseInv(w: World)
  {
    match w.phase
    case TargetsPending => true
    case InstallPending => true
    case GotoPending(_, boundary) => Captured(w, boundary)
    case ContinuePending(_, boundary) => Captured(w, boundary)
    case WaitPending(_, boundary, id, _) =>
      Captured(w, boundary) && WaitHas(w.session, id, boundary)
    case RemovePending(_, boundary, ended) =>
      && Captured(w, boundary) && (ended.Observed? && ended.outcome.StopAt? ==> Later(w, ended.outcome.sequence))
      && (ended.Observed? && ended.outcome.TerminalAt? ==> w.session.terminated)
      && (ended.Observed? && ended.outcome.TimedOut? ==> SomeWaitTimedOut(w.session))
    case StackPending(_, boundary, sequence) => Captured(w, boundary) && Later(w, sequence)
    case Done(result, at) =>
      && (result.Terminated? ==> at.terminated)
      && (result.Timeout? ==> !at.terminated && SomeWaitTimedOut(at))
      && (result.Paused? ==>
        && result.boundary.stopSequence == |w.captured| && w.captured <= at.history
        && |w.captured| < result.sequence <= |at.history|
        && !at.terminated
        && (result.targetReached <==> result.evidence.Some? && PositionMatchesTarget(result.evidence.value, result.target)))
  }

  ghost predicate SomeWaitTimedOut(s: SessionState)
  {
    exists d :: d in s.settled && d.outcome.TimedOut?
  }

  ghost predicate Inv(w: World)
  {
    DapSessions.Inv(w.session) && PhaseInv(w)
  }

  lemma SessionEventKeepsHistory(s: SessionState, event: Event)
    ensures s.history <= DapSessions.Step(s, event).history
  {
  }

  /** Every record of the wait `id` carries the given boundary. */
  ghost predicate WaitHas(s: SessionState, id: nat, boundary: Boundary)
  {
    && id < s.nextFresh
    && (forall x | x in s.freshWaiters && x.id == id :: x.boundary == boundary)
    && (forall d | d in s.settled && d.id == id :: d.boundary == boundary)
  }

  lemma SettleKeepsBoundary(s: SessionState, outcome: Outcome, id: nat, boundary: Boundary)
    requires WaitHas(s, id, boundary)
    ensures WaitHas(Settle(s, outcome), id, boundary)
  {
    SettleSplits(s.freshWaiters, outcome);
  }

  lemma FreshTimeoutKeepsBoundary(s: SessionState, other: nat, id: nat, boundary: Boundary)
    requires DapSessions.Inv(s) && WaitHas(s, id, boundary)
    ensures WaitHas(OnFreshTimeout(s, other), id, boundary)
  {
    WithoutFreshMembers(s.freshWaiters, other);
  }

  lemma WaitAfterKeepsBoundary(s: SessionState, other: Boundary, id: nat, boundary: Boundary)
    requires WaitHas(s, id, boundary)
    ensures WaitHas(OnWaitAfter(s, other), id, boundary)
  {
  }

  /** A session event never changes the boundary of a wait. */
  lemma SessionEventKeepsBoundary(s: SessionState, event: Event, id: nat, boundary: Boundary)
    requires DapSessions.Inv(s) && WaitHas(s, id, boundary)
    ensures WaitHas(DapSessions.Step(s, event), id, boundary)
  {
    match event {
      case Stopped(body) => SettleKeepsBoundary(Observe(s, body), StopAt(s.stopSequence + 1, body), id, boundary);
      case Terminal =>
        SettleKeepsBoundary(s.(paused := false, terminated := true, terminalSequence := s.terminalSequence + 1),
                            TerminalAt(s.terminalSequence + 1), id, boundary);
      case Dispose =>
        SettleKeepsBoundary(s.(disposed := true, paused := false, stoppedWaiters := [], stoppedQueue := [], latestStopped := None),
                            SessionEnded, id, boundary);
      case FreshTimeout(other) => FreshTimeoutKeepsBoundary(s, other, id, boundary);
      case WaitAfter(other) => WaitAfterKeepsBoundary(s, other, id, boundary);
      case _ =>
    }
  }

  lemma SessionEventKeepsInv(w: World, event: Event)
    requires Inv(w)
    ensures Inv(Step(w, SessionEvent(event)))
  {
    DapSessions.StepKeepsInv(w.session, event);
    SessionEventKeepsHistory(w.session, event);
    if w.phase.WaitPending? {
      SessionEventKeepsBoundary(w.session, event, w.phase.id, w.phase.boundary);
    } else if w.phase.RemovePending? && w.phase.ended.Observed? && w.phase.ended.outcome.TimedOut? {
      TimedOutStays(w.session, event);
    }
    SessionOnlyGrows(w.session, event);
  }

  lemma TimedOutStays(s: SessionState, event: Event)
    requires SomeWaitTimedOut(s)
    ensures SomeWaitTimedOut(DapSessions.Step(s, event))
  {
    SessionOnlyGrows(s, event);
    var d :| d in s.settled && d.outcome.TimedOut?;
    assert d in DapSessions.Step(s, event).settled;
  }

  lemma StartWaitKeepsInv(w: World, target: Position, boundary: Boundary, native: bool)
    requires Inv(w) && Captured(w, boundary)
    ensures Inv(StartWait(w, target, boundary, native))
  {
    WaitAfterKeepsInv(w.session, boundary);
    assert forall x | x in w.session.freshWaiters :: x.id < w.session.nextFresh;
    assert forall d | d in w.session.settled :: d.id < w.session.nextFresh;
  }

  lemma ResumeKeepsInv(w: World)
    requires Inv(w) && w.phase.WaitPending?
    ensures Inv(Step(w, Resume))
  {
    var outcome := OutcomeOf(w.session.settled, w.phase.id);
    if outcome.Some? {
      var d :| d in w.session.settled && d.id == w.phase.id && d.outcome == outcome.value;
      assert Causal(w.session, d);
    }
  }

  lemma DispatchKeepsInv(w: World)
    requires Inv(w)
    ensures var s := DapSessions.Step(w.session, MarkRunning);
            DapSessions.Inv(s) && CaptureStopBoundary(s).stopSequence == |s.history|
  {
    DapSessions.StepKeepsInv(w.session, MarkRunning);
  }

  lemma StepKeepsInv(w: World, event: RunEvent)
    requires Inv(w)
    ensures Inv(Step(w, event))
  {
    match (event, w.phase) {
      case (SessionEvent(e), _) => SessionEventKeepsInv(w, e);
      case (TargetsReply(_), TargetsPending) => DispatchKeepsInv(w);
      case (InstallReply(_), InstallPending) => DispatchKeepsInv(w);
      case (GotoReply(_), GotoPending(target, boundary)) => StartWaitKeepsInv(w, target, boundary, true);
      case (ContinueReply(_), ContinuePending(target, boundary)) => StartWaitKeepsInv(w, target, boundary, false);
      case (Resume, WaitPending(_, _, _, _)) => ResumeKeepsInv(w);
      case (RemoveReply(ok), RemovePending(target, boundary, ended)) => RemovalKeepsInv(w, ok);
      case _ =>
    }
  }

  lemma RemovalKeepsInv(w: World, ok: bool)
    requires Inv(w) && w.phase.RemovePending?
    ensures Inv(Step(w, RemoveReply(ok)))
  {
  }

  lemma {:induction false} RunKeepsInv(w: World, events: seq<RunEvent>)
    requires Begins(w)
    ensures Inv(Run(w, events))
  {
    if events != [] {
      RunKeepsInv(w, events[..|events| - 1]);
      StepKeepsInv(Run(w, events[..|events| - 1]), events[|events| - 1]);
    }
  }

  /** For every interleaving of a run with session events: a paused answer, and so any claim that the target was reached,
      rests on a stop observed after the boundary this run captured itself, in a session that had not terminated
      when the answer was given; and the target counts as reached exactly when the stack evidence names its file, its line
      and, if it has one, its column. */
  lemma TargetReachedIsCausal(w: World, events: seq<RunEvent>)
    requires Begins(w)
    ensures var w' := Run(w, events);
            w'.phase.Done? && w'.phase.result.Paused? ==>
              var Done(result, at) := w'.phase;
              && w'.captured <= at.history
              && |w'.captured| < result.sequence <= |at.history|
              && !at.terminated
              && (result.targetReached <==>
                    && result.evidence.Some?
                    && result.evidence.value.file.Some? && result.evidence.value.file.value == result.target.file
                    && result.evidence.value.line.Some? && result.evidence.value.line.value == result.target.line
                    && (result.target.column.Some? ==> result.evidence.value.column == result.target.column))
  {
    RunKeepsInv(w, events);
  }

  /** The other answers are as true: `Terminated` is given only for a session that has terminated, `Timeout` only for one
      that has not, after a wait that ran out. */
  lemma EndsAreTrue(w: World, events: seq<RunEvent>)
    requires Begins(w)
    ensures var phase := Run(w, events).phase;
            phase.Done? ==>
              && (phase.result.Terminated? ==> phase.at.terminated)
              && (phase.result.Timeout? ==> !phase.at.terminated && exists d :: d in phase.at.settled && d.outcome.TimedOut?)
  {
    RunKeepsInv(w, events);
  }

  // ------------------------------------------------------------- what an answer is made of

  /** The target a phase carries came with a reply of this run. */
  ghost predicate TargetCame(target: Position, events: seq<RunEvent>)
  {
    TargetsReply(Some(target)) in events || InstallReply(Some(target)) in events
  }

  ghost predicate PhaseCame(phase: Phase, events: seq<RunEvent>)
  {
    match phase
    case GotoPending(target, _) => TargetCame(target, events)
    case ContinuePending(target, _) => TargetCame(target, events)
    case WaitPending(target, _, _, _) => TargetCame(target, events)
    case RemovePending(target, _, _) => TargetCame(target, events)
    case StackPending(target, _, _) => TargetCame(target, events)
    case Done(result, _) =>
      result.Paused? ==> TargetCame(result.target, events) && StackReply(result.evidence) in events
    case _ => true
  }

  lemma StepComes(w: World, events: seq<RunEvent>, event: RunEvent)
    requires PhaseCame(w.phase, events)
    ensures PhaseCame(Step(w, event).phase, events + [event])
  {
    assert event in events + [event];
    assert forall e | e in events :: e in events + [event];
  }

  /** The target judged and the evidence shown are those that this run was given. */
  lemma {:induction false} AnswerComesFromReplies(w: World, events: seq<RunEvent>)
    requires Begins(w)
    ensures PhaseCame(Run(w, events).phase, events)
  {
    if events != [] {
      var before, last := events[..|events| - 1], events[|events| - 1];
      AnswerComesFromReplies(w, before);
      StepComes(Run(w, before), before, last);
      assert before + [last] == events;
    }
  }

  // ------------------------------------------------------------- a stop is reported

  lemma {:induction false} RunInParts(w: World, a: seq<RunEvent>, b: seq<RunEvent>)
    ensures Run(w, a + b) == Run(Run(w, a), b)
  {
    if b == [] {
      assert a + b == a;
    } else {
      RunInParts(w, a, b[..|b| - 1]);
      assert (a + b)[..|a + b| - 1] == a + b[..|b| - 1] && (a + b)[|a + b| - 1] == b[|b| - 1];
    }
  }

  lemma RunOne(w: World, a: seq<RunEvent>, event: RunEvent)
    ensures Run(w, a + [event]) == Step(Run(w, a), event)
  {
    assert (a + [event])[..|a|] == a;
  }

  /** The event is not the one the phase awaits. */
  predicate Idle(phase: Phase, event: RunEvent)
  {
    match phase
    case WaitPending(_, _, _, _) => !event.Resume?
    case RemovePending(_, _, _) => !event.RemoveReply?
    case StackPending(_, _, _) => !event.StackReply?
    case _ => false
  }

  lemma SessionOnlyGrows(s: SessionState, event: Event)
    ensures s.settled <= DapSessions.Step(s, event).settled && (s.terminated ==> DapSessions.Step(s, event).terminated)
  {
  }

  lemma {:induction false} OutcomeStays(settled: seq<Settled>, more: seq<Settled>, id: nat)
    requires settled <= more && OutcomeOf(settled, id).Some?
    ensures OutcomeOf(more, id) == OutcomeOf(settled, id)
  {
    if settled[0].id != id {
      OutcomeStays(settled[1..], more[1..], id);
    }
  }

  lemma {:induction false} IdleStays(w: World, events: seq<RunEvent>)
    requires forall e | e in events :: Idle(w.phase, e)
    ensures Run(w, events).phase == w.phase && w.session.settled <= Run(w, events).session.settled
    ensures w.session.terminated ==> Run(w, events).session.terminated
  {
    if events != [] {
      var before, last := events[..|events| - 1], events[|events| - 1];
      assert last in events && forall e | e in before :: e in events;
      IdleStays(w, before);
      assert Idle(w.phase, last);
      if last.SessionEvent? {
        SessionOnlyGrows(Run(w, before).session, last.event);
      }
    }
  }

  /** The answer that a stop leads to. */
  ghost predicate AnswersStop(w: World, target: Position, boundary: Boundary, sequence: nat, evidence: Option<Evidence>)
  {
    && w.phase.Done? && w.phase.result.Paused?
    && w.phase.result.sequence == sequence && w.phase.result.boundary == boundary
    && w.phase.result.target == target && w.phase.result.evidence == evidence
  }

  lemma StepStaysTerminated(w: World, event: RunEvent)
    requires w.session.terminated
    ensures Step(w, event).session.terminated
  {
    if event.SessionEvent? {
      SessionOnlyGrows(w.session, event.event);
    }
  }

  lemma {:induction false} StaysTerminated(w: World, events: seq<RunEvent>)
    requires w.session.terminated
    ensures Run(w, events).session.terminated
  {
    if events != [] {
      StaysTerminated(w, events[..|events| - 1]);
      StepStaysTerminated(Run(w, events[..|events| - 1]), events[|events| - 1]);
    }
  }

  /** Termination is for good. */
  lemma NotTerminatedBefore(w: World, a: seq<RunEvent>, b: seq<RunEvent>)
    requires !Run(w, a + b).session.terminated
    ensures !Run(w, a).session.terminated
  {
    RunInParts(w, a, b);
    if Run(w, a).session.terminated {
      StaysTerminated(Run(w, a), b);
    }
  }

  lemma ResumeStep(w: World, stop: Outcome)
    requires w.phase.WaitPending? && stop.StopAt? && OutcomeOf(w.session.settled, w.phase.id) == Some(stop)
    ensures Step(w, Resume).session == w.session
    ensures Step(w, Resume).phase == if !w.phase.native then RemovePending(w.phase.target, w.phase.boundary, Observed(stop))
                                     else if w.session.terminated then Done(Terminated, w.session)
                                     else StackPending(w.phase.target, w.phase.boundary, stop.sequence)
  {
  }

  lemma StackStep(w: World, evidence: Option<Evidence>)
    requires w.phase.StackPending? && !w.session.terminated
    ensures AnswersStop(Step(w, StackReply(evidence)), w.phase.target, w.phase.boundary, w.phase.sequence, evidence)
  {
  }

  /** The run resumes with a stop. */
  lemma ResumeTakesStop(w: World, stop: Outcome, first: seq<RunEvent>)
    requires w.phase.WaitPending? && stop.StopAt? && OutcomeOf(w.session.settled, w.phase.id) == Some(stop)
    requires forall e | e in first :: !e.Resume?
    ensures !w.phase.native ==> Run(w, first + [Resume]).phase == RemovePending(w.phase.target, w.phase.boundary, Observed(stop))
    ensures w.phase.native && !Run(w, first + [Resume]).session.terminated ==>
              Run(w, first + [Resume]).phase == StackPending(w.phase.target, w.phase.boundary, stop.sequence)
  {
    IdleStays(w, first);
    OutcomeStays(w.session.settled, Run(w, first).session.settled, w.phase.id);
    RunOne(w, first, Resume);
    ResumeStep(Run(w, first), stop);
  }

  lemma RemovalTakesStop(w: World, before: seq<RunEvent>, stop: Outcome, second: seq<RunEvent>)
    requires Run(w, before).phase.RemovePending? && Run(w, before).phase.ended == Observed(stop) && stop.StopAt?
    requires forall e | e in second :: !e.RemoveReply?
    requires !Run(w, before + second + [RemoveReply(true)]).session.terminated
    ensures Run(w, before + second + [RemoveReply(true)]).phase
         == StackPending(Run(w, before).phase.target, Run(w, before).phase.boundary, stop.sequence)
  {
    RunInParts(w, before, second);
    IdleStays(Run(w, before), second);
    RunOne(w, before + second, RemoveReply(true));
  }

  lemma StackAnswers(w: World, before: seq<RunEvent>, quiet: seq<RunEvent>, evidence: Option<Evidence>)
    requires Run(w, before).phase.StackPending? && forall e | e in quiet :: !e.StackReply?
    requires !Run(w, before + quiet).session.terminated
    ensures var phase := Run(w, before).phase;
            AnswersStop(Run(w, before + quiet + [StackReply(evidence)]), phase.target, phase.boundary, phase.sequence, evidence)
  {
    RunInParts(w, before, quiet);
    IdleStays(Run(w, before), quiet);
    RunOne(w, before + quiet, StackReply(evidence));
    StackStep(Run(w, before + quiet), evidence);
  }

  /** A stop settled the wait of a native run: whatever else happens meanwhile, once the run has resumed and its stack has
      been answered in a session that has not terminated, the answer is `Paused` with that very stop. */
  lemma NativeStopIsReported(w: World, stop: Outcome, first: seq<RunEvent>, second: seq<RunEvent>, evidence: Option<Evidence>)
    requires w.phase.WaitPending? && w.phase.native && stop.StopAt? && OutcomeOf(w.session.settled, w.phase.id) == Some(stop)
    requires (forall e | e in first :: !e.Resume?) && (forall e | e in second :: !e.StackReply?)
    requires !Run(w, first + [Resume] + second).session.terminated
    ensures AnswersStop(Run(w, first + [Resume] + second + [StackReply(evidence)]), w.phase.target, w.phase.boundary, stop.sequence, evidence)
  {
    NotTerminatedBefore(w, first + [Resume], second);
    ResumeTakesStop(w, stop, first);
    StackAnswers(w, first + [Resume], second, evidence);
  }

  /** The same through the fallback path, where the temporary breakpoint must have been removed. */
  lemma FallbackStopIsReported(w: World, stop: Outcome, first: seq<RunEvent>, second: seq<RunEvent>, third: seq<RunEvent>,
                               evidence: Option<Evidence>)
    requires w.phase.WaitPending? && !w.phase.native && stop.StopAt? && OutcomeOf(w.session.settled, w.phase.id) == Some(stop)
    requires (forall e | e in first :: !e.Resume?) && (forall e | e in second :: !e.RemoveReply?) && (forall e | e in third :: !e.StackReply?)
    requires !Run(w, first + [Resume] + second + [RemoveReply(true)] + third).session.terminated
    ensures AnswersStop(Run(w, first + [Resume] + second + [RemoveReply(true)] + third + [StackReply(evidence)]),
                        w.phase.target, w.phase.boundary, stop.sequence, evidence)
  {
    NotTerminatedBefore(w, first + [Resume] + second + [RemoveReply(true)], third);
    ResumeTakesStop(w, stop, first);
    RemovalTakesStop(w, first + [Resume], stop, second);
    StackAnswers(w, first + [Resume] + second + [RemoveReply(true)], third, evidence);
  }

  // -------------------------------------------------------- any other end is reported too

  /** What a wait that did not end in a stop leads to. */
  ghost predicate AnswersEnd(w: World, outcome: Outcome)
  {
    && w.phase.Done?
    && (w.session.terminated ==> w.phase.result == Terminated)
    && (!w.session.terminated && outcome.TimedOut? ==> w.phase.result == Timeout)
    && (!w.session.terminated && !outcome.TimedOut? ==> w.phase.result == Failed)
  }

  /** A wait settled by a termination belongs to a session that has terminated. */
  lemma TerminalMeansTerminated(w: World, outcome: Outcome)
    requires Inv(w) && w.phase.WaitPending? && OutcomeOf(w.session.settled, w.phase.id) == Some(outcome) && outcome.TerminalAt?
    ensures w.session.terminated
  {
    var d :| d in w.session.settled && d.id == w.phase.id && d.outcome == outcome;
    assert Causal(w.session, d);
  }

  /** The one step that ends a wait without a stop. */
  lemma EndStep(w: World, outcome: Outcome)
    requires w.phase.WaitPending? && !outcome.StopAt? && OutcomeOf(w.session.settled, w.phase.id) == Some(outcome)
    requires outcome.TerminalAt? ==> w.session.terminated
    ensures w.phase.native ==> AnswersEnd(Step(w, Resume), outcome)
    ensures !w.phase.native ==> Step(w, Resume).phase == RemovePending(w.phase.target, w.phase.boundary, Observed(outcome))
    ensures Step(w, Resume).session == w.session
  {
  }

  lemma ResumeTakesEnd(w: World, outcome: Outcome, first: seq<RunEvent>)
    requires Inv(w) && w.phase.WaitPending? && !outcome.StopAt? && OutcomeOf(w.session.settled, w.phase.id) == Some(outcome)
    requires forall e | e in first :: !e.Resume?
    ensures outcome.TerminalAt? ==> Run(w, first + [Resume]).session.terminated
    ensures w.phase.native ==> AnswersEnd(Run(w, first + [Resume]), outcome)
    ensures !w.phase.native ==> Run(w, first + [Resume]).phase == RemovePending(w.phase.target, w.phase.boundary, Observed(outcome))
  {
    if outcome.TerminalAt? {
      TerminalMeansTerminated(w, outcome);
    }
    IdleStays(w, first);
    OutcomeStays(w.session.settled, Run(w, first).session.settled, w.phase.id);
    RunOne(w, first, Resume);
    EndStep(Run(w, first), outcome);
  }

  lemma RemovalStep(w: World, outcome: Outcome, cleaned: bool)
    requires w.phase.RemovePending? && w.phase.ended == Observed(outcome) && !outcome.StopAt?
    requires outcome.TerminalAt? ==> w.session.terminated
    ensures var end := Step(w, RemoveReply(cleaned));
            if cleaned then AnswersEnd(end, outcome) else end.phase.Done? && end.phase.result == Failed
  {
  }

  /** A native run whose wait ended without a stop tells, once it has resumed, whether the session terminated or the wait ran
      out. */
  lemma NativeEndIsReported(w: World, outcome: Outcome, first: seq<RunEvent>)
    requires Inv(w) && w.phase.WaitPending? && w.phase.native
    requires !outcome.StopAt? && OutcomeOf(w.session.settled, w.phase.id) == Some(outcome)
    requires forall e | e in first :: !e.Resume?
    ensures AnswersEnd(Run(w, first + [Resume]), outcome)
  {
    ResumeTakesEnd(w, outcome, first);
  }

  /** The fallback path says the same once the temporary breakpoint is removed, and reports a failure when it is not. */
  lemma FallbackEndIsReported(w: World, outcome: Outcome, first: seq<RunEvent>, second: seq<RunEvent>, cleaned: bool)
    requires Inv(w) && w.phase.WaitPending? && !w.phase.native
    requires !outcome.StopAt? && OutcomeOf(w.session.settled, w.phase.id) == Some(outcome)
    requires (forall e | e in first :: !e.Resume?) && (forall e | e in second :: !e.RemoveReply?)
    ensures var end := Run(w, first + [Resume] + second + [RemoveReply(cleaned)]);
            if cleaned then AnswersEnd(end, outcome) else end.phase.Done? && end.phase.result == Failed
  {
    var before := first + [Resume];
    ResumeTakesEnd(w, outcome, first);
    RunInParts(w, before, second);
    IdleStays(Run(w, before), second);
    RunOne(w, before + second, RemoveReply(cleaned));
    RemovalStep(Run(w, before + second), outcome, cleaned);
  }

  ghost predicate TerminatedUnpaused(w: World)
  {
    w.session.terminated && (w.phase.Done? ==> !w.phase.result.Paused?)
  }

  lemma StepAfterTermination(w: World, event: RunEvent)
    requires TerminatedUnpaused(w)
    ensures TerminatedUnpaused(Step(w, event))
  {
  }

  /** Once the session has terminated while a run is still going, the run can no longer give a paused answer. */
  lemma {:induction false} NoPausedAnswerAfterTermination(w: World, before: seq<RunEvent>, after: seq<RunEvent>)
    requires Run(w, before).session.terminated && !Run(w, before).phase.Done?
    ensures TerminatedUnpaused(Run(w, before + after))
  {
    if after == [] {
      assert before + after == before;
    } else {
      NoPausedAnswerAfterTermination(w, before, after[..|after| - 1]);
      var events := before + after;
      assert events[..|events| - 1] == before + after[..|after| - 1] && events[|events| - 1] == after[|after| - 1];
      StepAfterTermination(Run(w, events[..|events| - 1]), events[|events| - 1]);
    }
  }
}
