/** Stops, waits and causal boundaries of one debug session (src/dap/DapSession.ts).

    Every transition is one event-loop turn. `history`, `delivered` and `settled` are logs kept for the
    specification: all stops in order, the stops handed to ordinary waiters in order, and how each causal wait was
    settled. */
module DapSessions {
  import opened Basics

  datatype Stop = Stop(threadId: Option<int>, reason: string)

  datatype ObservedStop = ObservedStop(sequence: nat, event: Stop)

  datatype Boundary = Boundary(stopSequence: nat, terminalSequence: nat)

  datatype FreshWaiter = FreshWaiter(id: nat, boundary: Boundary)

  /** What settles a causal wait. */
  datatype Outcome =
    | StopAt(sequence: nat, event: Stop)
    | TerminalAt(sequence: nat)
    | TimedOut
    | SessionEnded

  datatype Settled = Settled(id: nat, boundary: Boundary, outcome: Outcome)

  datatype SessionState = SessionState(
    stoppedQueue: seq<Stop>,
    stoppedWaiters: seq<nat>,
    freshWaiters: seq<FreshWaiter>,
    stopSequence: nat,
    terminalSequence: nat,
    latestStopped: Option<ObservedStop>,
    paused: bool,
    terminated: bool,
    disposed: bool,
    startFailed: bool,
    nextWaiter: nat,
    nextFresh: nat,
    history: seq<Stop>,
    delivered: seq<Stop>,
    settled: seq<Settled>)

  const INITIAL: SessionState :=
    SessionState([], [], [], 0, 0, None, false, false, false, false, 0, 0, [], [], [])

  /** `Terminal` stands for the client events terminated, exited, exit and adapterError. */
  datatype Event =
    | Stopped(body: Stop)
    | Continued
    | Terminal
    | Wait
    | WaitTimeout(waiter: nat)
    | WaitAfter(boundary: Boundary)
    | FreshTimeout(fresh_id: nat)
    | MarkRunning
    | StartFailure
    | Dispose

  // ------------------------------------------------------------- causal waiters

  /** Whether an observation lies beyond a waiter's boundary. */
  predicate Beyond(outcome: Outcome, boundary: Boundary)
  {
    match outcome
    case StopAt(sequence, _) => sequence > boundary.stopSequence
    case TerminalAt(sequence) => sequence > boundary.terminalSequence
    case _ => true
  }

  function SettledBy(waiters: seq<FreshWaiter>, outcome: Outcome): (r: seq<Settled>)
  {
    if waiters == [] then []
    else if Beyond(outcome, waiters[0].boundary)
      then [Settled(waiters[0].id, waiters[0].boundary, outcome)] + SettledBy(waiters[1..], outcome)
    else SettledBy(waiters[1..], outcome)
  }

  function StillWaiting(waiters: seq<FreshWaiter>, outcome: Outcome): (r: seq<FreshWaiter>)
  {
    if waiters == [] then []
    else if Beyond(outcome, waiters[0].boundary) then StillWaiting(waiters[1..], outcome)
    else [waiters[0]] + StillWaiting(waiters[1..], outcome)
  }

  function Settle(s: SessionState, outcome: Outcome): (r: SessionState)
  {
    s.(freshWaiters := StillWaiting(s.freshWaiters, outcome), settled := s.settled + SettledBy(s.freshWaiters, outcome))
  }

  /** `#freshOutcomeAfter`: termination first, then the latest stop. */
  function FreshOutcomeAfter(s: SessionState, boundary: Boundary): (r: Option<Outcome>)
  {
    if s.terminalSequence > boundary.terminalSequence then Some(TerminalAt(s.terminalSequence))
    else if s.latestStopped.Some? && s.latestStopped.value.sequence > boundary.stopSequence
      then Some(StopAt(s.latestStopped.value.sequence, s.latestStopped.value.event))
    else None
  }

  function CaptureStopBoundary(s: SessionState): (r: Boundary)
  {
    Boundary(s.stopSequence, s.terminalSequence)
  }

  // --------------------------------------------------------------- transitions

  /** A stop is recorded and handed to the oldest ordinary waiter, or queued. */
  function Observe(s: SessionState, body: Stop): (r: SessionState)
  {
    var hasWaiter := s.stoppedWaiters != [];
    s.(paused := true, stopSequence := s.stopSequence + 1,
       latestStopped := Some(ObservedStop(s.stopSequence + 1, body)),
       history := s.history + [body],
       stoppedWaiters := if hasWaiter then s.stoppedWaiters[1..] else [],
       delivered := if hasWaiter then s.delivered + [body] else s.delivered,
       stoppedQueue := if hasWaiter then s.stoppedQueue else s.stoppedQueue + [body])
  }

  function OnStopped(s: SessionState, body: Stop): (r: SessionState)
  {
    Settle(Observe(s, body), StopAt(s.stopSequence + 1, body))
  }

  function OnTerminal(s: SessionState): (r: SessionState)
  {
    Settle(s.(paused := false, terminated := true, terminalSequence := s.terminalSequence + 1),
           TerminalAt(s.terminalSequence + 1))
  }

  function OnWait(s: SessionState): (r: SessionState)
  {
    if s.stoppedQueue != [] then
      s.(stoppedQueue := s.stoppedQueue[1..], delivered := s.delivered + [s.stoppedQueue[0]])
    else if s.startFailed then s
    else s.(stoppedWaiters := s.stoppedWaiters + [s.nextWaiter], nextWaiter := s.nextWaiter + 1)
  }

  function WithoutWaiter(waiters: seq<nat>, id: nat): (r: seq<nat>)
  {
    if waiters == [] then []
    else if waiters[0] == id then waiters[1..]
    else [waiters[0]] + WithoutWaiter(waiters[1..], id)
  }

  /** A timed-out wait leaves the waiters and takes a queued stop if there is one. */
  function OnWaitTimeout(s: SessionState, id: nat): (r: SessionState)
  {
    if id !in s.stoppedWaiters then s
    else
      var s1 := s.(stoppedWaiters := WithoutWaiter(s.stoppedWaiters, id));
      if s.stoppedQueue != [] then
        s1.(stoppedQueue := s.stoppedQueue[1..], delivered := s.delivered + [s.stoppedQueue[0]])
      else s1
  }

  function OnWaitAfter(s: SessionState, boundary: Boundary): (r: SessionState)
  {
    var already := FreshOutcomeAfter(s, boundary);
    var s1 := s.(nextFresh := s.nextFresh + 1);
    if already.Some? then s1.(settled := s.settled + [Settled(s.nextFresh, boundary, already.value)])
    else if s.disposed then s1.(settled := s.settled + [Settled(s.nextFresh, boundary, SessionEnded)])
    else s1.(freshWaiters := s.freshWaiters + [FreshWaiter(s.nextFresh, boundary)])
  }

  function WithoutFresh(waiters: seq<FreshWaiter>, id: nat): (r: seq<FreshWaiter>)
  {
    if waiters == [] then []
    else if waiters[0].id == id then waiters[1..]
    else [waiters[0]] + WithoutFresh(waiters[1..], id)
  }

  function FindFresh(waiters: seq<FreshWaiter>, id: nat): (r: Option<FreshWaiter>)
    ensures r.Some? ==> r.value in waiters && r.value.id == id
    ensures r.None? ==> forall w | w in waiters :: w.id != id
  {
    if waiters == [] then None
    else if waiters[0].id == id then Some(waiters[0])
    else FindFresh(waiters[1..], id)
  }

  function OnFreshTimeout(s: SessionState, id: nat): (r: SessionState)
  {
    var waiter := FindFresh(s.freshWaiters, id);
    if waiter.None? then s
    else s.(freshWaiters := WithoutFresh(s.freshWaiters, id),
            settled := s.settled + [Settled(id, waiter.value.boundary, TimedOut)])
  }

  function OnDispose(s: SessionState): (r: SessionState)
  {
    if s.disposed then s
    else Settle(s.(disposed := true, paused := false, stoppedWaiters := [], stoppedQueue := [], latestStopped := None), SessionEnded)
  }

  /** After disposal the client listeners are detached, so client events no longer arrive. */
  function Step(s: SessionState, event: Event): (r: SessionState)
  {
    match event
    case Stopped(body) => if s.disposed then s else OnStopped(s, body)
    case Continued => if s.disposed then s else s.(paused := false)
    case Terminal => if s.disposed then s else OnTerminal(s)
    case Wait => OnWait(s)
    case WaitTimeout(id) => OnWaitTimeout(s, id)
    case WaitAfter(boundary) => OnWaitAfter(s, boundary)
    case FreshTimeout(id) => OnFreshTimeout(s, id)
    case MarkRunning => s.(paused := false)
    case StartFailure => s.(startFailed := true)
    case Dispose => OnDispose(s)
  }

  function Run(s: SessionState, events: seq<Event>): (r: SessionState)
  {
    if events == [] then s else Step(Run(s, events[..|events| - 1]), events[|events| - 1])
  }

  // ------------------------------------------------------------------ invariant

  /** No registered causal waiter has missed anything. */
  ghost predicate NothingMissed(s: SessionState)
  {
    forall w | w in s.freshWaiters ::
      s.stopSequence <= w.boundary.stopSequence && s.terminalSequence <= w.boundary.terminalSequence
  }

  /** A settlement is causal: a stop or terminal event really observed, and beyond the boundary. */
  ghost predicate Causal(s: SessionState, settled: Settled)
  {
    match settled.outcome
    case StopAt(sequence, event) =>
      settled.boundary.stopSequence < sequence <= |s.history| && s.history[sequence - 1] == event
    case TerminalAt(sequence) => settled.boundary.terminalSequence < sequence <= s.terminalSequence
    case _ => true
  }

  ghost predicate DistinctFresh(waiters: seq<FreshWaiter>)
  {
    forall i, j | 0 <= i < j < |waiters| :: waiters[i].id != waiters[j].id
  }

  ghost predicate DistinctSettled(settled: seq<Settled>)
  {
    forall i, j | 0 <= i < j < |settled| :: settled[i].id != settled[j].id
  }

  /** Every causal wait ever started is either registered or settled, and settled only once. */
  ghost predicate SettledOnce(s: SessionState)
  {
    && DistinctFresh(s.freshWaiters)
    && DistinctSettled(s.settled)
    && (forall w | w in s.freshWaiters :: w.id < s.nextFresh && forall d | d in s.settled :: d.id != w.id)
    && (forall d | d in s.settled :: d.id < s.nextFresh)
    && (forall id: nat | id < s.nextFresh :: IsRegistered(s.freshWaiters, id) || IsSettled(s.settled, id))
  }

  ghost predicate IsRegistered(waiters: seq<FreshWaiter>, id: nat)
  {
    exists w :: w in waiters && w.id == id
  }

  ghost predicate IsSettled(settled: seq<Settled>, id: nat)
  {
    exists d :: d in settled && d.id == id
  }

  ghost predicate StopsInv(s: SessionState)
  {
    && |s.history| == s.stopSequence
    && (s.stoppedQueue == [] || s.stoppedWaiters == [])
    && (!s.disposed ==> s.delivered + s.stoppedQueue == s.history)
    && (s.disposed ==> s.stoppedQueue == [] && s.delivered <= s.history)
    && (s.terminated <==> s.terminalSequence > 0)
    && (s.latestStopped.Some? <==> !s.disposed && s.stopSequence > 0)
    && (s.latestStopped.Some? ==> s.latestStopped == Some(ObservedStop(s.stopSequence, s.history[s.stopSequence - 1])))
  }

  ghost predicate Inv(s: SessionState)
  {
    && StopsInv(s)
    && NothingMissed(s)
    && (s.disposed ==> s.freshWaiters == [])
    && (forall d | d in s.settled :: Causal(s, d))
    && SettledOnce(s)
  }

  lemma {:induction false} SettleSplits(waiters: seq<FreshWaiter>, outcome: Outcome)
    ensures forall w :: w in StillWaiting(waiters, outcome) <==> w in waiters && !Beyond(outcome, w.boundary)
    ensures forall d :: d in SettledBy(waiters, outcome) <==>
                        Beyond(outcome, d.boundary) && d.outcome == outcome && FreshWaiter(d.id, d.boundary) in waiters
  {
    if waiters != [] {
      SettleSplits(waiters[1..], outcome);
      assert waiters == [waiters[0]] + waiters[1..];
    }
  }

  lemma {:induction false} StillWaitingDistinct(waiters: seq<FreshWaiter>, outcome: Outcome)
    requires DistinctFresh(waiters)
    ensures DistinctFresh(StillWaiting(waiters, outcome))
  {
    if waiters != [] {
      StillWaitingDistinct(waiters[1..], outcome);
      SettleSplits(waiters[1..], outcome);
      var rest := StillWaiting(waiters[1..], outcome);
      forall j | 0 <= j < |rest| ensures rest[j].id != waiters[0].id {
        assert rest[j] in rest;
      }
    }
  }

  lemma {:induction false} SettledDistinct(waiters: seq<FreshWaiter>, outcome: Outcome)
    requires DistinctFresh(waiters)
    ensures DistinctSettled(SettledBy(waiters, outcome))
  {
    if waiters != [] {
      SettledDistinct(waiters[1..], outcome);
      SettleSplits(waiters[1..], outcome);
      var rest := SettledBy(waiters[1..], outcome);
      forall j | 0 <= j < |rest| ensures rest[j].id != waiters[0].id {
        assert rest[j] in rest;
      }
    }
  }

  /** Settling loses no waiter and repeats none: each is either still waiting or settled with its own boundary. */
  lemma SettleDistinct(waiters: seq<FreshWaiter>, outcome: Outcome)
    requires DistinctFresh(waiters)
    ensures forall w | w in waiters :: w in StillWaiting(waiters, outcome) <==> Settled(w.id, w.boundary, outcome) !in SettledBy(waiters, outcome)
    ensures |StillWaiting(waiters, outcome)| + |SettledBy(waiters, outcome)| == |waiters|
    ensures DistinctFresh(StillWaiting(waiters, outcome))
    ensures DistinctSettled(SettledBy(waiters, outcome))
  {
    SettleSplits(waiters, outcome);
    SettleCounts(waiters, outcome);
    StillWaitingDistinct(waiters, outcome);
    SettledDistinct(waiters, outcome);
  }

  lemma {:induction false} SettleCounts(waiters: seq<FreshWaiter>, outcome: Outcome)
    ensures |StillWaiting(waiters, outcome)| + |SettledBy(waiters, outcome)| == |waiters|
  {
    if waiters != [] {
      SettleCounts(waiters[1..], outcome);
    }
  }

  lemma DistinctMember(waiters: seq<FreshWaiter>, a: FreshWaiter, b: FreshWaiter)
    requires DistinctFresh(waiters) && a in waiters && b in waiters && a.id == b.id
    ensures a == b
  {
  }

  /** Settling keeps the exactly-once bookkeeping. */
  lemma SettleKeepsOnce(s: SessionState, outcome: Outcome)
    requires SettledOnce(s)
    ensures SettledOnce(Settle(s, outcome))
  {
    var s' := Settle(s, outcome);
    var now := SettledBy(s.freshWaiters, outcome);
    SettleSplits(s.freshWaiters, outcome);
    SettleDistinct(s.freshWaiters, outcome);
    forall i, j | 0 <= i < j < |s'.settled| ensures s'.settled[i].id != s'.settled[j].id {
      if j >= |s.settled| {
        assert now[j - |s.settled|] in now;
        if i >= |s.settled| {
          assert now[i - |s.settled|].id != now[j - |s.settled|].id;
        }
      }
    }
    forall w, d | w in s'.freshWaiters && d in s'.settled ensures d.id != w.id {
      if d in now && d.id == w.id {
        DistinctMember(s.freshWaiters, w, FreshWaiter(d.id, d.boundary));
      }
    }
    forall id: nat | id < s'.nextFresh ensures IsRegistered(s'.freshWaiters, id) || IsSettled(s'.settled, id) {
      if IsRegistered(s.freshWaiters, id) {
        var w :| w in s.freshWaiters && w.id == id;
        if Beyond(outcome, w.boundary) {
          assert Settled(id, w.boundary, outcome) in s'.settled;
        }
      } else {
        var d :| d in s.settled && d.id == id;
        assert d in s'.settled;
      }
    }
  }

  lemma StoppedKeepsInv(s: SessionState, body: Stop)
    requires Inv(s) && !s.disposed
    ensures Inv(OnStopped(s, body))
  {
    var s' := OnStopped(s, body);
    var outcome := StopAt(s.stopSequence + 1, body);
    SettleSplits(s.freshWaiters, outcome);
    var s2 := s'.(freshWaiters := s.freshWaiters, settled := s.settled);
    SettleKeepsOnce(s2, outcome);
    assert s' == Settle(s2, outcome);
    assert s'.delivered + s'.stoppedQueue == s'.history;
    forall d | d in s'.settled ensures Causal(s', d) {
      if d in s.settled {
        assert Causal(s, d);
      }
    }
  }

  lemma TerminalKeepsInv(s: SessionState)
    requires Inv(s) && !s.disposed
    ensures Inv(OnTerminal(s))
  {
    var s' := OnTerminal(s);
    var outcome := TerminalAt(s.terminalSequence + 1);
    SettleSplits(s.freshWaiters, outcome);
    SettleKeepsOnce(s'.(freshWaiters := s.freshWaiters, settled := s.settled), outcome);
    forall d | d in s'.settled ensures Causal(s', d) {
      if d in s.settled {
        assert Causal(s, d);
      }
    }
  }

  lemma {:induction false} NobodyStays(waiters: seq<FreshWaiter>)
    ensures StillWaiting(waiters, SessionEnded) == []
  {
    if waiters != [] {
      NobodyStays(waiters[1..]);
    }
  }

  lemma DisposeKeepsInv(s: SessionState)
    requires Inv(s)
    ensures Inv(OnDispose(s))
  {
    if !s.disposed {
      var s' := OnDispose(s);
      SettleSplits(s.freshWaiters, SessionEnded);
      SettleKeepsOnce(s'.(freshWaiters := s.freshWaiters, settled := s.settled), SessionEnded);
      NobodyStays(s.freshWaiters);
      forall d | d in s'.settled ensures Causal(s', d) {
        if d in s.settled {
          assert Causal(s, d);
        }
      }
    }
  }

  lemma {:induction false} WithoutFreshMembers(waiters: seq<FreshWaiter>, id: nat)
    requires DistinctFresh(waiters)
    ensures forall w :: w in WithoutFresh(waiters, id) <==> w in waiters && w.id != id
    ensures DistinctFresh(WithoutFresh(waiters, id))
  {
    if waiters != [] {
      assert waiters == [waiters[0]] + waiters[1..];
      WithoutFreshMembers(waiters[1..], id);
    }
  }

  lemma FreshTimeoutKeepsInv(s: SessionState, id: nat)
    requires Inv(s)
    ensures Inv(OnFreshTimeout(s, id))
  {
    var s' := OnFreshTimeout(s, id);
    var waiter := FindFresh(s.freshWaiters, id);
    if waiter.Some? {
      WithoutFreshMembers(s.freshWaiters, id);
      var last := Settled(id, waiter.value.boundary, TimedOut);
      assert s'.settled == s.settled + [last];
      forall i, j | 0 <= i < j < |s'.settled| ensures s'.settled[i].id != s'.settled[j].id {
        if j == |s.settled| {
          assert s.settled[i] in s.settled;
        }
      }
      forall k: nat | k < s'.nextFresh ensures IsRegistered(s'.freshWaiters, k) || IsSettled(s'.settled, k) {
        if IsRegistered(s.freshWaiters, k) {
          var w :| w in s.freshWaiters && w.id == k;
          if k == id {
            assert last in s'.settled;
          }
        } else {
          var d :| d in s.settled && d.id == k;
          assert d in s'.settled;
        }
      }
      forall d | d in s'.settled ensures Causal(s', d) {
        if d != last {
          assert d in s.settled && Causal(s, d);
        }
      }
    }
  }

  lemma WaitAfterKeepsInv(s: SessionState, boundary: Boundary)
    requires Inv(s)
    ensures Inv(OnWaitAfter(s, boundary))
  {
    var s' := OnWaitAfter(s, boundary);
    var already := FreshOutcomeAfter(s, boundary);
    if already.Some? || s.disposed {
      var last := Settled(s.nextFresh, boundary, if already.Some? then already.value else SessionEnded);
      assert s'.settled == s.settled + [last];
      forall i, j | 0 <= i < j < |s'.settled| ensures s'.settled[i].id != s'.settled[j].id {
        if j == |s.settled| {
          assert s.settled[i] in s.settled;
        }
      }
      forall d | d in s'.settled ensures Causal(s', d) {
        if d != last {
          assert d in s.settled && Causal(s, d);
        }
      }
      RegisteredAfterWait(s, s', last);
    } else {
      var waiter := FreshWaiter(s.nextFresh, boundary);
      assert s'.freshWaiters == s.freshWaiters + [waiter];
      forall i, j | 0 <= i < j < |s'.freshWaiters| ensures s'.freshWaiters[i].id != s'.freshWaiters[j].id {
        if j == |s.freshWaiters| {
          assert s.freshWaiters[i] in s.freshWaiters;
        }
      }
      forall d | d in s'.settled ensures Causal(s', d) {
        assert Causal(s, d);
      }
      forall k: nat | k < s'.nextFresh ensures IsRegistered(s'.freshWaiters, k) || IsSettled(s'.settled, k) {
        if k == s.nextFresh {
          assert waiter in s'.freshWaiters;
        } else if IsRegistered(s.freshWaiters, k) {
          var w :| w in s.freshWaiters && w.id == k;
          assert w in s'.freshWaiters;
        }
      }
    }
  }

  lemma RegisteredAfterWait(s: SessionState, s': SessionState, last: Settled)
    requires SettledOnce(s) && last.id == s.nextFresh && s'.nextFresh == s.nextFresh + 1
    requires s'.freshWaiters == s.freshWaiters && s'.settled == s.settled + [last]
    ensures forall k: nat | k < s'.nextFresh :: IsRegistered(s'.freshWaiters, k) || IsSettled(s'.settled, k)
  {
    forall k: nat | k < s'.nextFresh ensures IsRegistered(s'.freshWaiters, k) || IsSettled(s'.settled, k) {
      if k == s.nextFresh {
        assert last in s'.settled;
      } else if !IsRegistered(s.freshWaiters, k) {
        var d :| d in s.settled && d.id == k;
        assert d in s'.settled;
      }
    }
  }

  lemma StepKeepsInv(s: SessionState, event: Event)
    requires Inv(s)
    ensures Inv(Step(s, event))
  {
    match event {
      case Stopped(body) => if !s.disposed { StoppedKeepsInv(s, body); }
      case Terminal => if !s.disposed { TerminalKeepsInv(s); }
      case WaitAfter(boundary) => WaitAfterKeepsInv(s, boundary);
      case FreshTimeout(id) => FreshTimeoutKeepsInv(s, id);
      case Dispose => DisposeKeepsInv(s);
      case _ => OtherStepsKeepInv(s, event);
    }
  }

  lemma OtherStepsKeepInv(s: SessionState, event: Event)
    requires Inv(s)
    requires event.Continued? || event.Wait? || event.WaitTimeout? || event.MarkRunning? || event.StartFailure?
    ensures Inv(Step(s, event))
  {
    if event.Wait? {
      WaitKeepsStops(s);
    }
    SameWaitersKeepInv(s, Step(s, event));
  }

  lemma WaitKeepsStops(s: SessionState)
    requires StopsInv(s)
    ensures StopsInv(OnWait(s))
  {
    if s.stoppedQueue != [] {
      assert s.stoppedQueue == [s.stoppedQueue[0]] + s.stoppedQueue[1..];
      assert s.delivered + s.stoppedQueue == (s.delivered + [s.stoppedQueue[0]]) + s.stoppedQueue[1..];
    }
  }

  /** A step that leaves the causal waiters, the sequences and the history alone. */
  lemma SameWaitersKeepInv(s: SessionState, s': SessionState)
    requires Inv(s) && StopsInv(s')
    requires s'.freshWaiters == s.freshWaiters && s'.settled == s.settled && s'.nextFresh == s.nextFresh
    requires s'.stopSequence == s.stopSequence && s'.terminalSequence == s.terminalSequence
    requires s'.history == s.history && s'.disposed == s.disposed
    ensures Inv(s')
  {
    forall d | d in s'.settled ensures Causal(s', d) {
      assert Causal(s, d);
    }
  }

  lemma {:induction false} RunKeepsInv(events: seq<Event>)
    ensures Inv(Run(INITIAL, events))
  {
    if events != [] {
      RunKeepsInv(events[..|events| - 1]);
      StepKeepsInv(Run(INITIAL, events[..|events| - 1]), events[|events| - 1]);
    }
  }

  /** Causal waits are causal and lose no wakeup: over every run, a registered waiter has missed no stop and no terminal
      event; every wait ever started is registered or settled, never both and never settled twice; and a wait settled
      with a stop or a terminal event was settled with one observed after its boundary. */
  lemma FreshWaitsAreCausal(events: seq<Event>)
    ensures var s := Run(INITIAL, events);
            && NothingMissed(s) && SettledOnce(s)
            && forall d | d in s.settled :: Causal(s, d)
  {
    RunKeepsInv(events);
  }

  /** Over every run the stopped queue and the stopped waiters are never both non-empty, and until disposal what
      ordinary waiters received followed by what is queued is the whole history of stops, in order, each once. */
  lemma OrdinaryWaitsDeliverHistory(events: seq<Event>)
    ensures var s := Run(INITIAL, events);
            && (s.stoppedQueue == [] || s.stoppedWaiters == [])
            && (!s.disposed ==> s.delivered + s.stoppedQueue == s.history)
            && s.delivered <= s.history
  {
    RunKeepsInv(events);
  }

  function StopsOf(events: seq<Event>): (r: seq<Stop>)
  {
    if events == [] then []
    else StopsOf(events[..|events| - 1])
         + (if events[|events| - 1].Stopped? then [events[|events| - 1].body] else [])
  }

  /** The history really is the stops that arrived. */
  lemma {:induction false} HistoryIsTheStops(events: seq<Event>)
    ensures !Run(INITIAL, events).disposed ==> Run(INITIAL, events).history == StopsOf(events)
  {
    if events != [] {
      HistoryIsTheStops(events[..|events| - 1]);
    }
  }

  // --------------------------------------------------------- the session by its events

  /** The event reached the session: it was not disposed of before. */
  predicate Heard(events: seq<Event>, i: nat)
  {
    i < |events| && Dispose !in events[..i]
  }

  predicate EndsPause(event: Event)
  {
    event.Continued? || event.Terminal? || event.MarkRunning? || event.Dispose?
  }

  /** The `i`-th event was a stop, and nothing has ended the pause since. */
  predicate PausedSince(events: seq<Event>, i: nat)
  {
    Heard(events, i) && events[i].Stopped? && forall j | i < j < |events| :: !EndsPause(events[j])
  }

  predicate TerminalHeard(events: seq<Event>, i: nat)
  {
    Heard(events, i) && events[i].Terminal?
  }

  /** The terminal events that reached the session. */
  function Terminals(events: seq<Event>): (r: nat)
  {
    if events == [] then 0
    else Terminals(events[..|events| - 1])
         + (if events[|events| - 1].Terminal? && Dispose !in events[..|events| - 1] then 1 else 0)
  }

  lemma HeardBefore(events: seq<Event>, i: nat)
    requires i < |events| - 1
    ensures Heard(events, i) <==> Heard(events[..|events| - 1], i)
  {
    assert events[..|events| - 1][..i] == events[..i];
  }

  lemma StepPauses(s: SessionState, event: Event)
    requires s.disposed ==> !s.paused
    ensures Step(s, event).paused <==> (event.Stopped? && !s.disposed) || (s.paused && !EndsPause(event))
  {
  }

  lemma {:induction false} DisposedIsNotPaused(events: seq<Event>)
    ensures Run(INITIAL, events).disposed ==> !Run(INITIAL, events).paused
  {
    if events != [] {
      var before, last := events[..|events| - 1], events[|events| - 1];
      DisposedIsNotPaused(before);
      StepPauses(Run(INITIAL, before), last);
      StepDisposes(Run(INITIAL, before), last);
    }
  }

  lemma StepDisposes(s: SessionState, event: Event)
    ensures Step(s, event).disposed <==> s.disposed || event.Dispose?
  {
  }

  lemma StepTerminates(s: SessionState, event: Event)
    ensures Step(s, event).terminated <==> s.terminated || (event.Terminal? && !s.disposed)
    ensures Step(s, event).terminalSequence == s.terminalSequence + if event.Terminal? && !s.disposed then 1 else 0
  {
  }

  lemma {:induction false} DisposedByEvents(events: seq<Event>)
    ensures Run(INITIAL, events).disposed <==> Dispose in events
  {
    if events != [] {
      var before, last := events[..|events| - 1], events[|events| - 1];
      DisposedByEvents(before);
      StepDisposes(Run(INITIAL, before), last);
      assert events == before + [last];
    }
  }

  lemma PausedSinceBefore(events: seq<Event>, i: nat)
    requires i < |events| - 1
    ensures PausedSince(events, i) <==> PausedSince(events[..|events| - 1], i) && !EndsPause(events[|events| - 1])
  {
    HeardBefore(events, i);
    var before := events[..|events| - 1];
    assert forall j | 0 <= j < |before| :: before[j] == events[j];
  }

  lemma PausedSinceLast(events: seq<Event>)
    requires events != []
    ensures var before, last := events[..|events| - 1], events[|events| - 1];
            (exists i: nat :: PausedSince(events, i))
            <==> (last.Stopped? && Dispose !in before) || (!EndsPause(last) && exists i: nat :: PausedSince(before, i))
  {
    var n := |events| - 1;
    if i: nat :| PausedSince(events[..n], i) {
      PausedSinceBefore(events, i);
    }
    assert PausedSince(events, n) <==> events[n].Stopped? && Dispose !in events[..n];
    if i: nat :| PausedSince(events, i) {
      if i < n { PausedSinceBefore(events, i); }
    }
  }

  /** A session is paused exactly when a stop reached it and no continuation, resumption, termination or disposal followed. */
  lemma {:induction false} PausedByEvents(events: seq<Event>)
    ensures Run(INITIAL, events).paused <==> exists i: nat :: PausedSince(events, i)
  {
    if events != [] {
      var before, last := events[..|events| - 1], events[|events| - 1];
      PausedByEvents(before);
      DisposedByEvents(before);
      DisposedIsNotPaused(before);
      StepPauses(Run(INITIAL, before), last);
      PausedSinceLast(events);
    }
  }

  lemma TerminalHeardLast(events: seq<Event>)
    requires events != []
    ensures var before, last := events[..|events| - 1], events[|events| - 1];
            (exists i: nat :: TerminalHeard(events, i))
            <==> (last.Terminal? && Dispose !in before) || exists i: nat :: TerminalHeard(before, i)
  {
    var n := |events| - 1;
    if i: nat :| TerminalHeard(events[..n], i) {
      HeardBefore(events, i);
      assert TerminalHeard(events, i);
    }
    assert TerminalHeard(events, n) <==> events[n].Terminal? && Dispose !in events[..n];
    if i: nat :| TerminalHeard(events, i) {
      if i < n {
        HeardBefore(events, i);
        assert TerminalHeard(events[..n], i);
      }
    }
  }

  /** It is terminated exactly when a terminal event reached it, and its terminal sequence counts them. */
  lemma {:induction false} TerminatedByEvents(events: seq<Event>)
    ensures Run(INITIAL, events).terminated <==> exists i: nat :: TerminalHeard(events, i)
    ensures Run(INITIAL, events).terminalSequence == Terminals(events)
  {
    if events != [] {
      var before, last := events[..|events| - 1], events[|events| - 1];
      TerminatedByEvents(before);
      DisposedByEvents(before);
      StepTerminates(Run(INITIAL, before), last);
      TerminalHeardLast(events);
    }
  }

  lemma WaitLearns(s: SessionState, boundary: Boundary, stops: seq<Stop>, disposed: bool)
    requires StopsInv(s) && (disposed <==> s.disposed) && (!disposed ==> s.history == stops)
    ensures var s' := OnWaitAfter(s, boundary);
            var id := s.nextFresh;
            if s.terminalSequence > boundary.terminalSequence then
              s'.settled == s.settled + [Settled(id, boundary, TerminalAt(s.terminalSequence))]
            else if disposed then
              s'.settled == s.settled + [Settled(id, boundary, SessionEnded)]
            else if |stops| > boundary.stopSequence then
              s'.settled == s.settled + [Settled(id, boundary, StopAt(|stops|, stops[|stops| - 1]))]
            else s'.settled == s.settled && s'.freshWaiters == s.freshWaiters + [FreshWaiter(id, boundary)]
  {
  }

  /** A causal wait learns at once of what lies beyond its boundary: a termination before any stop, then the latest stop; in
      a disposed session it is refused, and otherwise it is registered. */
  lemma WaitLearnsAtOnce(events: seq<Event>, boundary: Boundary)
    ensures var s := Run(INITIAL, events);
            var s' := Step(s, WaitAfter(boundary));
            var id := s.nextFresh;
            if s.terminalSequence > boundary.terminalSequence then
              s'.settled == s.settled + [Settled(id, boundary, TerminalAt(s.terminalSequence))]
            else if Dispose in events then
              s'.settled == s.settled + [Settled(id, boundary, SessionEnded)]
            else if |StopsOf(events)| > boundary.stopSequence then
              s'.settled == s.settled + [Settled(id, boundary, StopAt(|StopsOf(events)|, StopsOf(events)[|StopsOf(events)| - 1]))]
            else s'.settled == s.settled && s'.freshWaiters == s.freshWaiters + [FreshWaiter(id, boundary)]
  {
    RunKeepsInv(events);
    HistoryIsTheStops(events);
    DisposedByEvents(events);
    WaitLearns(Run(INITIAL, events), boundary, StopsOf(events), Dispose in events);
  }

  function WaitsOf(events: seq<Event>): (r: seq<Boundary>)
  {
    if events == [] then []
    else WaitsOf(events[..|events| - 1])
         + (if events[|events| - 1].WaitAfter? then [events[|events| - 1].boundary] else [])
  }

  /** A causal wait is known by its number, and is settled for a reason. */
  ghost predicate Accounted(waits: seq<Boundary>, events: seq<Event>, d: Settled)
  {
    && d.id < |waits| && waits[d.id] == d.boundary
    && (d.outcome.TimedOut? ==> FreshTimeout(d.id) in events)
    && (d.outcome.SessionEnded? ==> Dispose in events)
  }

  ghost predicate Numbered(waits: seq<Boundary>, w: FreshWaiter)
  {
    w.id < |waits| && waits[w.id] == w.boundary
  }

  ghost predicate AllAccounted(s: SessionState, waits: seq<Boundary>, events: seq<Event>)
  {
    && s.nextFresh == |waits|
    && (forall w | w in s.freshWaiters :: Numbered(waits, w))
    && (forall d | d in s.settled :: Accounted(waits, events, d))
  }

  lemma MoreIsAccounted(s: SessionState, waits: seq<Boundary>, events: seq<Event>, waits': seq<Boundary>, events': seq<Event>)
    requires AllAccounted(s, waits, events) && waits <= waits' && events <= events'
    ensures forall w | w in s.freshWaiters :: Numbered(waits', w)
    ensures forall d | d in s.settled :: Accounted(waits', events', d)
  {
    assert forall e | e in events :: e in events';
    forall d | d in s.settled ensures Accounted(waits', events', d) {
      assert Accounted(waits, events, d);
    }
    forall w | w in s.freshWaiters ensures Numbered(waits', w) {
      assert Numbered(waits, w);
    }
  }

  lemma SettleIsAccounted(s: SessionState, outcome: Outcome, waits: seq<Boundary>, events: seq<Event>)
    requires AllAccounted(s, waits, events) && !outcome.TimedOut? && (outcome.SessionEnded? ==> Dispose in events)
    ensures AllAccounted(Settle(s, outcome), waits, events)
  {
    SettleSplits(s.freshWaiters, outcome);
    forall d | d in Settle(s, outcome).settled ensures Accounted(waits, events, d) {
      if d !in s.settled {
        assert Numbered(waits, FreshWaiter(d.id, d.boundary));
      }
    }
  }

  lemma TimeoutIsAccounted(s: SessionState, id: nat, waits: seq<Boundary>, events: seq<Event>)
    requires DistinctFresh(s.freshWaiters) && AllAccounted(s, waits, events) && FreshTimeout(id) in events
    ensures AllAccounted(OnFreshTimeout(s, id), waits, events)
  {
    WithoutFreshMembers(s.freshWaiters, id);
    var waiter := FindFresh(s.freshWaiters, id);
    if waiter.Some? {
      assert Numbered(waits, waiter.value);
    }
  }

  lemma WaitIsAccounted(s: SessionState, boundary: Boundary, waits: seq<Boundary>, events: seq<Event>)
    requires AllAccounted(s, waits, events) && (s.disposed ==> Dispose in events)
    ensures AllAccounted(OnWaitAfter(s, boundary), waits + [boundary], events)
  {
    MoreIsAccounted(s, waits, events, waits + [boundary], events);
  }

  lemma SameIsAccounted(s: SessionState, event: Event, waits: seq<Boundary>, events: seq<Event>)
    requires AllAccounted(s, waits, events)
    requires event.Continued? || event.Wait? || event.WaitTimeout? || event.MarkRunning? || event.StartFailure?
    ensures AllAccounted(Step(s, event), waits, events)
  {
    var s' := Step(s, event);
    assert s'.freshWaiters == s.freshWaiters && s'.settled == s.settled && s'.nextFresh == s.nextFresh;
  }

  lemma StepIsAccounted(s: SessionState, event: Event, waits: seq<Boundary>, events: seq<Event>)
    requires DistinctFresh(s.freshWaiters) && AllAccounted(s, waits, events)
    requires event in events && (s.disposed ==> Dispose in events)
    ensures AllAccounted(Step(s, event), if event.WaitAfter? then waits + [event.boundary] else waits, events)
  {
    match event {
      case Stopped(body) => SettleIsAccounted(Observe(s, body), StopAt(s.stopSequence + 1, body), waits, events);
      case Terminal =>
        SettleIsAccounted(s.(paused := false, terminated := true, terminalSequence := s.terminalSequence + 1),
                          TerminalAt(s.terminalSequence + 1), waits, events);
      case Dispose =>
        SettleIsAccounted(s.(disposed := true, paused := false, stoppedWaiters := [], stoppedQueue := [], latestStopped := None),
                          SessionEnded, waits, events);
      case WaitAfter(boundary) => WaitIsAccounted(s, boundary, waits, events);
      case FreshTimeout(id) => TimeoutIsAccounted(s, id, waits, events);
      case _ => SameIsAccounted(s, event, waits, events);
    }
  }

  lemma InvKeepsDistinct(s: SessionState)
    requires Inv(s)
    ensures DistinctFresh(s.freshWaiters)
  {
  }

  lemma LaterIsAccounted(s: SessionState, waits: seq<Boundary>, before: seq<Event>, events: seq<Event>)
    requires AllAccounted(s, waits, before) && before <= events
    ensures AllAccounted(s, waits, events)
  {
    MoreIsAccounted(s, waits, before, waits, events);
  }

  /** Over every run: the waits started are numbered in order, a wait keeps the boundary it was started with, and it times
      out only by its own timer and is refused only by a disposal. */
  lemma {:induction false} WaitsAreAccounted(events: seq<Event>)
    ensures AllAccounted(Run(INITIAL, events), WaitsOf(events), events)
  {
    if events != [] {
      var before, last := events[..|events| - 1], events[|events| - 1];
      WaitsAreAccounted(before);
      RunKeepsInv(before);
      InvKeepsDistinct(Run(INITIAL, before));
      DisposedByEvents(before);
      LaterIsAccounted(Run(INITIAL, before), WaitsOf(before), before, events);
      assert Dispose in before ==> Dispose in events;
      StepIsAccounted(Run(INITIAL, before), last, WaitsOf(before), events);
      assert WaitsOf(before) + [] == WaitsOf(before);
    }
  }

  // ------------------------------------------------------------------ the class

  lemma {:induction false} StillWaitingConcat(a: seq<FreshWaiter>, b: seq<FreshWaiter>, outcome: Outcome)
    ensures StillWaiting(a + b, outcome) == StillWaiting(a, outcome) + StillWaiting(b, outcome)
  {
    if a == [] {
      assert a + b == b;
    } else {
      StillWaitingConcat(a[1..], b, outcome);
      assert (a + b)[1..] == a[1..] + b && (a + b)[0] == a[0];
      assert [a[0]] + (StillWaiting(a[1..], outcome) + StillWaiting(b, outcome))
          == ([a[0]] + StillWaiting(a[1..], outcome)) + StillWaiting(b, outcome);
    }
  }

  lemma {:induction false} SettledByConcat(a: seq<FreshWaiter>, b: seq<FreshWaiter>, outcome: Outcome)
    ensures SettledBy(a + b, outcome) == SettledBy(a, outcome) + SettledBy(b, outcome)
  {
    if a == [] {
      assert a + b == b;
    } else {
      SettledByConcat(a[1..], b, outcome);
      assert (a + b)[1..] == a[1..] + b && (a + b)[0] == a[0];
      var first := Settled(a[0].id, a[0].boundary, outcome);
      assert [first] + (SettledBy(a[1..], outcome) + SettledBy(b, outcome))
          == ([first] + SettledBy(a[1..], outcome)) + SettledBy(b, outcome);
    }
  }

  lemma {:induction false} WithoutFreshInMiddle(a: seq<FreshWaiter>, waiter: FreshWaiter, b: seq<FreshWaiter>)
    requires forall w | w in a :: w.id != waiter.id
    ensures WithoutFresh(a + [waiter] + b, waiter.id) == a + b
  {
    if a == [] {
      assert a + [waiter] + b == [waiter] + b;
      assert a + b == b;
    } else {
      assert a[0] in a;
      WithoutFreshInMiddle(a[1..], waiter, b);
      assert (a + [waiter] + b)[1..] == a[1..] + [waiter] + b;
      assert a + b == [a[0]] + (a[1..] + b);
    }
  }

  /** The loop that settles waiters: those still waiting, then those not yet looked at. */
  predicate SettledUpTo(all: seq<FreshWaiter>, before: seq<Settled>, i: nat, outcome: Outcome, waiters: seq<FreshWaiter>, settled: seq<Settled>)
  {
    && i <= |all|
    && waiters == StillWaiting(all[..i], outcome) + all[i..]
    && settled == before + SettledBy(all[..i], outcome)
  }

  lemma SettleLoopStarts(all: seq<FreshWaiter>, before: seq<Settled>, outcome: Outcome)
    ensures SettledUpTo(all, before, 0, outcome, all, before)
  {
    assert all[..0] == [] && all[0..] == all;
    assert [] + all == all && before + [] == before;
  }

  lemma SettleLoopEnds(all: seq<FreshWaiter>, before: seq<Settled>, outcome: Outcome, waiters: seq<FreshWaiter>, settled: seq<Settled>)
    requires SettledUpTo(all, before, |all|, outcome, waiters, settled)
    ensures waiters == StillWaiting(all, outcome) && settled == before + SettledBy(all, outcome)
  {
    assert all[..|all|] == all;
  }

  lemma SettleStepParts(all: seq<FreshWaiter>, i: nat, outcome: Outcome)
    requires i < |all|
    ensures StillWaiting(all[..i + 1], outcome)
         == StillWaiting(all[..i], outcome) + (if Beyond(outcome, all[i].boundary) then [] else [all[i]])
    ensures SettledBy(all[..i + 1], outcome)
         == SettledBy(all[..i], outcome)
            + (if Beyond(outcome, all[i].boundary) then [Settled(all[i].id, all[i].boundary, outcome)] else [])
  {
    assert all[..i + 1] == all[..i] + [all[i]];
    StillWaitingConcat(all[..i], [all[i]], outcome);
    SettledByConcat(all[..i], [all[i]], outcome);
    assert [all[i]][1..] == [];
  }

  lemma SettleLoopStep(all: seq<FreshWaiter>, before: seq<Settled>, i: nat, outcome: Outcome, waiters: seq<FreshWaiter>, settled: seq<Settled>)
    requires DistinctFresh(all) && i < |all| && SettledUpTo(all, before, i, outcome, waiters, settled)
    ensures Beyond(outcome, all[i].boundary) ==>
              SettledUpTo(all, before, i + 1, outcome, WithoutFresh(waiters, all[i].id),
                          settled + [Settled(all[i].id, all[i].boundary, outcome)])
    ensures !Beyond(outcome, all[i].boundary) ==> SettledUpTo(all, before, i + 1, outcome, waiters, settled)
  {
    var kept := StillWaiting(all[..i], outcome);
    Advance(kept, all, i);
    SettleStepParts(all, i, outcome);
    if Beyond(outcome, all[i].boundary) {
      SettleSplits(all[..i], outcome);
      WithoutFreshInMiddle(kept, all[i], all[i + 1..]);
      assert kept + [] == kept;
    } else {
      assert SettledBy(all[..i], outcome) + [] == SettledBy(all[..i], outcome);
    }
  }

  class DapSession {
    var stoppedQueue: seq<Stop>
    var stoppedWaiters: seq<nat>
    var freshWaiters: seq<FreshWaiter>
    var stopSequence: nat
    var terminalSequence: nat
    var latestStopped: Option<ObservedStop>
    var paused: bool
    var terminated: bool
    var disposed: bool
    var startFailed: bool
    var nextWaiter: nat
    var nextFresh: nat
    ghost var history: seq<Stop>
    ghost var delivered: seq<Stop>
    ghost var settled: seq<Settled>

    ghost function State(): SessionState
      reads this
    {
      SessionState(stoppedQueue, stoppedWaiters, freshWaiters, stopSequence, terminalSequence, latestStopped, paused,
                   terminated, disposed, startFailed, nextWaiter, nextFresh, history, delivered, settled)
    }

    constructor ()
      ensures State() == INITIAL
    {
      stoppedQueue, stoppedWaiters, freshWaiters := [], [], [];
      stopSequence, terminalSequence, latestStopped := 0, 0, None;
      paused, terminated, disposed, startFailed := false, false, false, false;
      nextWaiter, nextFresh := 0, 0;
      history, delivered, settled := [], [], [];
    }

    /** Walk a copy of the waiters; remove and settle each one the observation lies beyond. */
    method SettleFreshWaiters(outcome: Outcome)
      requires DistinctFresh(freshWaiters)
      modifies `freshWaiters, `settled
      ensures freshWaiters == StillWaiting(old(freshWaiters), outcome)
      ensures settled == old(settled) + SettledBy(old(freshWaiters), outcome)
    {
      var all := freshWaiters;
      ghost var before := settled;
      SettleLoopStarts(all, before, outcome);
      for i := 0 to |all|
        invariant SettledUpTo(all, before, i, outcome, freshWaiters, settled)
      {
        SettleLoopStep(all, before, i, outcome, freshWaiters, settled);
        if Beyond(outcome, all[i].boundary) {
          freshWaiters := WithoutFresh(freshWaiters, all[i].id);
          settled := settled + [Settled(all[i].id, all[i].boundary, outcome)];
        }
      }
      SettleLoopEnds(all, before, outcome, freshWaiters, settled);
    }

    /** Hand a stop to the oldest ordinary waiter, or queue it. */
    method DeliverOrQueue(body: Stop)
      modifies `stoppedWaiters, `stoppedQueue, `delivered
      ensures old(stoppedWaiters) != [] ==>
                stoppedWaiters == old(stoppedWaiters)[1..] && delivered == old(delivered) + [body] && stoppedQueue == old(stoppedQueue)
      ensures old(stoppedWaiters) == [] ==>
                stoppedWaiters == [] && delivered == old(delivered) && stoppedQueue == old(stoppedQueue) + [body]
    {
      if |stoppedWaiters| > 0 {
        stoppedWaiters := stoppedWaiters[1..];
        delivered := delivered + [body];
      } else {
        stoppedQueue := stoppedQueue + [body];
      }
    }

    method RecordStop(body: Stop)
      modifies this
      ensures State() == Observe(old(State()), body)
    {
      paused := true;
      stopSequence := stopSequence + 1;
      latestStopped := Some(ObservedStop(stopSequence, body));
      history := history + [body];
      DeliverOrQueue(body);
    }

    /** The handler of the `stopped` event. */
    method HandleStopped(body: Stop)
      requires Inv(State()) && !disposed
      modifies this
      ensures State() == OnStopped(old(State()), body) && Inv(State())
    {
      StoppedKeepsInv(State(), body);
      RecordStop(body);
      SettleFreshWaiters(StopAt(stopSequence, body));
    }

    /** The handlers of `terminated`, `exited`, `exit` and `adapterError`. */
    method HandleTerminal()
      requires Inv(State()) && !disposed
      modifies this
      ensures State() == OnTerminal(old(State())) && Inv(State())
    {
      TerminalKeepsInv(State());
      paused := false;
      terminated := true;
      terminalSequence := terminalSequence + 1;
      SettleFreshWaiters(TerminalAt(terminalSequence));
    }

    /** `waitForBreakpoint` up to its await: a queued stop, a start error, or a registered waiter. */
    method WaitForBreakpoint() returns (stop: Option<Stop>, waiter: Option<nat>)
      requires Inv(State())
      modifies this
      ensures State() == OnWait(old(State())) && Inv(State())
      ensures stop.Some? <==> old(stoppedQueue) != []
      ensures stop.Some? ==> stop.value == old(stoppedQueue)[0]
      ensures waiter.Some? <==> old(stoppedQueue) == [] && !startFailed
    {
      StepKeepsInv(State(), Wait);
      stop, waiter := None, None;
      if |stoppedQueue| > 0 {
        stop := Some(stoppedQueue[0]);
        delivered := delivered + [stoppedQueue[0]];
        stoppedQueue := stoppedQueue[1..];
      } else if !startFailed {
        waiter := Some(nextWaiter);
        stoppedWaiters := stoppedWaiters + [nextWaiter];
        nextWaiter := nextWaiter + 1;
      }
    }

    method Capture() returns (boundary: Boundary)
      ensures boundary == CaptureStopBoundary(State())
    {
      boundary := Boundary(stopSequence, terminalSequence);
    }

    /** What `#freshOutcomeAfter` reads. */
    method ReadFreshOutcome(boundary: Boundary) returns (outcome: Option<Outcome>)
      ensures outcome == FreshOutcomeAfter(State(), boundary)
    {
      if terminalSequence > boundary.terminalSequence {
        return Some(TerminalAt(terminalSequence));
      }
      if latestStopped.Some? && latestStopped.value.sequence > boundary.stopSequence {
        return Some(StopAt(latestStopped.value.sequence, latestStopped.value.event));
      }
      return None;
    }

    /** Settle at once when the outcome is already there or the client is gone; register otherwise. */
    method SettleOrRegister(id: nat, boundary: Boundary)
      modifies `settled, `freshWaiters
      ensures var s := old(State());
              var outcome := FreshOutcomeAfter(s, boundary);
              && freshWaiters == (if outcome.Some? || disposed then old(freshWaiters) else old(freshWaiters) + [FreshWaiter(id, boundary)])
              && settled == (if outcome.Some? then old(settled) + [Settled(id, boundary, outcome.value)]
                             else if disposed then old(settled) + [Settled(id, boundary, SessionEnded)] else old(settled))
    {
      var already := ReadFreshOutcome(boundary);
      if already.Some? {
        settled := settled + [Settled(id, boundary, already.value)];
      } else if disposed {
        settled := settled + [Settled(id, boundary, SessionEnded)];
      } else {
        freshWaiters := freshWaiters + [FreshWaiter(id, boundary)];
        // The second read of the source: nothing can have been missed in between.
        var raced := ReadFreshOutcome(boundary);
        assert raced == already;
      }
    }

    /** The wait under the next number. */
    method NumberWait(boundary: Boundary) returns (id: nat)
      modifies `settled, `freshWaiters, `nextFresh
      ensures State() == OnWaitAfter(old(State()), boundary) && id == old(nextFresh)
    {
      id := nextFresh;
      SettleOrRegister(id, boundary);
      nextFresh := nextFresh + 1;
    }

    /** `waitForStopOrTerminationAfter` up to its await. */
    method WaitForStopOrTerminationAfter(boundary: Boundary) returns (id: nat)
      requires Inv(State())
      modifies this
      ensures State() == OnWaitAfter(old(State()), boundary) && Inv(State()) && id == old(nextFresh)
    {
      WaitAfterKeepsInv(State(), boundary);
      id := NumberWait(boundary);
    }

    /** The timer of an ordinary wait fired. */
    method WaitTimedOut(id: nat) returns (stop: Option<Stop>)
      modifies this
      ensures State() == OnWaitTimeout(old(State()), id)
      ensures stop.Some? <==> id in old(stoppedWaiters) && old(stoppedQueue) != []
    {
      stop := None;
      if id in stoppedWaiters {
        stoppedWaiters := WithoutWaiter(stoppedWaiters, id);
        if |stoppedQueue| > 0 {
          stop := Some(stoppedQueue[0]);
          delivered := delivered + [stoppedQueue[0]];
          stoppedQueue := stoppedQueue[1..];
        }
      }
    }

    /** The timer of a causal wait fired. */
    method FreshTimedOut(id: nat)
      requires Inv(State())
      modifies this
      ensures State() == OnFreshTimeout(old(State()), id) && Inv(State())
    {
      FreshTimeoutKeepsInv(State(), id);
      var waiter := FindFresh(freshWaiters, id);
      if waiter.Some? {
        freshWaiters := WithoutFresh(freshWaiters, id);
        settled := settled + [Settled(id, waiter.value.boundary, TimedOut)];
      }
    }

    method ReleaseEverything()
      requires DistinctFresh(freshWaiters)
      modifies `disposed, `paused, `stoppedWaiters, `freshWaiters, `settled, `stoppedQueue, `latestStopped
      ensures disposed && !paused && stoppedWaiters == [] && stoppedQueue == [] && latestStopped == None
      ensures freshWaiters == StillWaiting(old(freshWaiters), SessionEnded)
      ensures settled == old(settled) + SettledBy(old(freshWaiters), SessionEnded)
    {
      disposed := true;
      paused := false;
      stoppedWaiters := [];
      SettleFreshWaiters(SessionEnded);
      stoppedQueue := [];
      latestStopped := None;
    }

    method DisposeClient()
      requires Inv(State())
      modifies this
      ensures State() == OnDispose(old(State())) && Inv(State())
    {
      DisposeKeepsInv(State());
      if !disposed {
        ReleaseEverything();
      }
    }
  }
}
