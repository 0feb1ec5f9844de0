/** What each of many interleaved reconciler calls answers (src/sessions/BreakpointReconciler.ts). A log kept beside the
    world records the replies a call has had and what it returned or threw; every finished update is proved to have
    answered, and left its sources, as the same update does when it runs alone. */
module ReconcilerAnswers {
  import opened Basics
  import opened Breakpoints
  import opened Reconciler
  import opened Transactions
  import opened LockQueues
  import opened ReconcilerWorld
  import opened ReconcilerRuns
  import opened UpdateMeaning

  // ------------------------------------------------------------------------ the log

  /** What `update` returns or throws. */
  datatype UpdateAnswer = Missing | OwnerRefused | Ended(result: UpdateResult)

  /** The local store when the call had its locks, right before its last step and right after it, and what the adapter
      then held. */
  datatype Stores = Stores(before: Bucket, last: Bucket, local: Bucket, held: map<string, Bucket>)

  datatype Log =
    | UpdateWaits(patch: Patch)
    | UpdateRuns(patch: Patch, target: BreakpointRecord, before: Bucket, forward: nat, replies: seq<Reply>, allRestored: bool)
    | UpdateDone(patch: Patch, stores: Stores, replies: seq<Reply>, answer: UpdateAnswer)
    | TemporaryWaits(temporary: BreakpointRecord)
    | TemporaryRuns(temporary: BreakpointRecord, before: Bucket, replies: seq<Reply>, committed: bool, succeeded: bool)
    | TemporaryDone(temporary: BreakpointRecord, stores: Stores, replies: seq<Reply>, callback: bool, result: TemporaryResult)

  function Here(w: World, w': World): (r: Stores)
  {
    Stores(w.local, w.local, w'.local, w'.adapter)
  }

  predicate AtHead(w: World, source: string, c: nat)
  {
    source in w.queues && w.queues[source] != [] && w.queues[source][0] == c
  }

  /** All locks are held: throw, go round again, answer at once, or begin. */
  function LockedLog(w: World, w': World, patch: Patch, sources: seq<string>): (r: Log)
  {
    var target := Find(w.local, patch.breakpointId);
    if target.None? then UpdateDone(patch, Here(w, w'), [], Missing)
    else if AffectedSources(target.value, patch) != sources then UpdateWaits(patch)
    else if !OwnerAllowed(target.value, patch) then UpdateDone(patch, Here(w, w'), [], OwnerRefused)
    else if Patched(target.value, patch) == target.value then UpdateDone(patch, Here(w, w'), [], Ended(Unchanged))
    else UpdateRuns(patch, target.value, w.local, 0, [], true)
  }

  function GrantLog(w: World, w': World, c: nat, log: Log): (r: Log)
    requires c in w.calls && c in w'.calls
  {
    match w.calls[c]
    case Locking(patch, sources, held) =>
      if held + 1 == |sources| && AtHead(w, sources[held], c) then LockedLog(w, w', patch, sources) else log
    case TemporaryLocking(file, temporary) =>
      if !AtHead(w, file, c) then log
      else if w'.calls[c].Installing? then TemporaryRuns(temporary, w.local, [], false, false)
      else TemporaryDone(temporary, Here(w, w'), [], false, Refused)
    case _ => log
  }

  function Closed(log: Log, w: World, w': World): (r: Stores)
    requires log.UpdateRuns? || log.TemporaryRuns?
  {
    Stores(log.before, w.local, w'.local, w'.adapter)
  }

  /** The forward pass: an answer comes only with the commit. */
  function ForwardLog(w: World, w': World, c: nat, target: BreakpointRecord, reply: Reply, log: Log): (r: Log)
    requires c in w'.calls && log.UpdateRuns?
  {
    var current := Find(w'.local, target.id);
    if w'.calls[c].Finished? && current.Some?
    then UpdateDone(log.patch, Closed(log, w, w'), log.replies + [reply], Ended(Applied(current.value, Difference(target, current.value))))
    else log.(forward := |log.replies| + 1, replies := log.replies + [reply])
  }

  /** The rollback remembers whether every call was acknowledged, and its last call brings the answer. */
  function BackwardLog(w: World, w': World, states: seq<SourceState>, next: nat, reply: Reply, log: Log): (r: Log)
    requires next < |states| && log.UpdateRuns?
  {
    var ok := log.allRestored && Acknowledges(reply, states[next].original);
    if next + 1 < |states| then log.(replies := log.replies + [reply], allRestored := ok)
    else UpdateDone(log.patch, Closed(log, w, w'), log.replies + [reply], Ended(if ok then Restored else Indeterminate))
  }

  /** The end of `withTemporaryBreakpoint`. */
  ghost function RemovedResult(w: World, file: string, original: Bucket, fallback: Bucket, reply: Reply, log: Log): (r: TemporaryResult)
    requires log.TemporaryRuns?
  {
    if Acknowledges(reply, original) && Admissible(w.local, One(file, Project(original, reply.evidence.value))) then
      if !log.committed then InstallFailed else if log.succeeded then Completed else CallbackFailed
    else if Admissible(w.local, One(file, fallback)) then CleanupFailed
    else Crashed
  }

  ghost function ReplyLog(w: World, w': World, c: nat, reply: Reply, log: Log): (r: Log)
    requires c in w.calls && c in w'.calls
  {
    match w.calls[c]
    case Applying(target, states, applied) =>
      if log.UpdateRuns? && |applied| < |states| then ForwardLog(w, w', c, target, reply, log) else log
    case Restoring(states, next) =>
      if log.UpdateRuns? && next < |states| then BackwardLog(w, w', states, next, reply, log) else log
    case Installing(file, original, temporary) =>
      if log.TemporaryRuns? then log.(replies := log.replies + [reply], committed := w'.calls[c].Running?) else log
    case Removing(file, original, fallback) =>
      if log.TemporaryRuns?
      then TemporaryDone(log.temporary, Closed(log, w, w'), log.replies + [reply], log.succeeded,
                         RemovedResult(w, file, original, fallback, reply, log))
      else log
    case _ => log
  }

  function ArrivalLog(w: World, w': World, event: Event): (r: Log)
    requires event.Update? || event.Temporary?
  {
    if event.Temporary? then TemporaryWaits(event.temporary)
    else if event.call in w'.calls && w'.calls[event.call].Finished? then UpdateDone(event.patch, Here(w, w'), [], Missing)
    else UpdateWaits(event.patch)
  }

  ghost function NextLog(w: World, w': World, event: Event, log: Log): (r: Log)
    requires event.call in w.calls && event.call in w'.calls
  {
    match event
    case Granted(c, _) => GrantLog(w, w', c, log)
    case Replied(c, reply) => ReplyLog(w, w', c, reply, log)
    case CallbackDone(c, succeeds) => if w.calls[c].Running? && log.TemporaryRuns? then log.(succeeded := succeeds) else log
    case _ => log
  }

  ghost function LogsAfter(w: World, logs: map<nat, Log>, event: Event): (r: map<nat, Log>)
  {
    var w', c := Step(w, event), event.call;
    if event.Update? || event.Temporary? then (if c in w.calls then logs else logs[c := ArrivalLog(w, w', event)])
    else if c !in w.calls || c !in w'.calls || c !in logs then logs
    else logs[c := NextLog(w, w', event, logs[c])]
  }

  /** A run with its log. */
  datatype Trace = Trace(w: World, logs: map<nat, Log>)

  ghost function Traced(w: World, events: seq<Event>): (r: Trace)
  {
    if events == [] then Trace(w, map[])
    else
      var t := Traced(w, events[..|events| - 1]);
      Trace(Step(t.w, events[|events| - 1]), LogsAfter(t.w, t.logs, events[|events| - 1]))
  }

  lemma {:induction false} TraceIsRun(w: World, events: seq<Event>)
    ensures Traced(w, events).w == Run(w, events)
  {
    if events != [] {
      TraceIsRun(w, events[..|events| - 1]);
    }
  }

  // ------------------------------------------------------------ how an update must end

  /** The update began with all its locks: the store then, the record it found, and its plan. */
  ghost predicate Planned(before: Bucket, patch: Patch, target: BreakpointRecord, states: seq<SourceState>)
  {
    && UniqueIds(before) && Find(before, patch.breakpointId) == Some(target) && OwnerAllowed(target, patch)
    && states == StatesOf(before, target, patch)
  }

  /** The same update alone, on the store as it was before its last step, with an adapter that gives these replies: it has
      the same answer, leaves the same local store and uses up the replies; nobody has touched its sources since it had
      its locks; and the ending is one of the three an update may have, told by the replies and the real adapter. */
  ghost predicate EndsAsIfAlone(patch: Patch, target: BreakpointRecord, s: Stores, replies: seq<Reply>, result: UpdateResult)
  {
    var states := StatesOf(s.before, target, patch);
    var alone := AdapterState(s.held, replies, []);
    && (forall f | f in StateFiles(states) :: SourceList(s.last, f) == SourceList(s.before, f))
    && SameAnswer(UpdateRun(alone, s.last, target, patch), s.local, result)
    && EndsWell(alone, s.last, target, Patched(target, patch), states, AdapterState(s.held, [], []), s.local, result)
  }

  ghost predicate SameAnswer(run: (AdapterState, Bucket, UpdateResult), local: Bucket, result: UpdateResult)
  {
    run.0.script == [] && run.1 == local && run.2 == result
  }

  /** Whom a patch may touch: anybody's breakpoints with owner "all", else the named owner's, and without a name the agent's. */
  predicate MayTouch(owner: string, asked: Option<string>)
  {
    && (asked.None? ==> owner == "agent")
    && (asked.Some? && asked.value != "all" ==> owner == asked.value)
  }

  ghost predicate UpdateEnded(log: Log)
    requires log.UpdateDone?
  {
    var s, id := log.stores, log.patch.breakpointId;
    match log.answer
    case Missing => Find(s.last, id).None? && s.local == s.last && log.replies == []
    case OwnerRefused =>
      Find(s.last, id).Some? && !MayTouch(Find(s.last, id).value.owner, log.patch.owner) && s.local == s.last && log.replies == []
    case Ended(result) =>
      && UniqueIds(s.last) && Find(s.before, id).Some? && MayTouch(Find(s.before, id).value.owner, log.patch.owner)
      && EndsAsIfAlone(log.patch, Find(s.before, id).value, s, log.replies, result)
  }

  // ----------------------------------------------------- the sequential update, by replies

  predicate ForwardAck(replies: seq<Reply>, states: seq<SourceState>, i: nat)
  {
    i < |replies| && i < |states| && Acknowledges(replies[i], states[i].desired)
  }

  predicate BackAck(replies: seq<Reply>, forward: nat, states: seq<SourceState>, i: nat)
  {
    i < |states| && forward + i < |replies| && Acknowledges(replies[forward + i], states[i].original)
  }

  /** `applied` is what the first replies make of the desired lists. */
  ghost predicate ForwardOk(states: seq<SourceState>, replies: seq<Reply>, applied: seq<Bucket>)
  {
    && |applied| <= |states| && |applied| <= |replies|
    && forall i | 0 <= i < |applied| ::
         ForwardAck(replies, states, i) && applied[i] == Project(states[i].desired, replies[i].evidence.value)
  }

  lemma {:induction false} ForwardAlone(held: map<string, Bucket>, calls: seq<AdapterCall>, replies: seq<Reply>,
                                        states: seq<SourceState>, local: Bucket, applied: seq<Bucket>, i: nat)
    returns (a: AdapterState)
    requires ForwardOk(states, replies, applied) && i <= |applied|
    ensures a.script == replies[|applied|..]
    ensures ApplyFrom(AdapterState(held, replies[i..], calls), states, local, applied[..i]) == ApplyFrom(a, states, local, applied)
    decreases |applied| - i
  {
    a := AdapterState(held, replies[i..], calls);
    if i == |applied| {
      assert applied[..i] == applied;
    } else {
      assert ForwardAck(replies, states, i);
      var next := Sent(a, states[i].file, states[i].desired, local);
      assert NextReply(a) == replies[i] && next.script == replies[i + 1..];
      assert applied[..i] + [applied[i]] == applied[..i + 1];
      a := ForwardAlone(next.held, next.calls, replies, states, local, applied, i + 1);
    }
  }

  lemma {:induction false} BackwardAlone(a: AdapterState, replies: seq<Reply>, forward: nat, states: seq<SourceState>, local: Bucket, next: nat)
    requires next <= |states| && |replies| == forward + |states| && a.script == replies[forward + next..]
    ensures var (after, ok) := RestoreFrom(a, states, local, next);
            after.script == [] && (ok <==> forall i | next <= i < |states| :: BackAck(replies, forward, states, i))
    decreases |states| - next
  {
    if next < |states| {
      var sent := Sent(a, states[next].file, states[next].original, local);
      assert NextReply(a) == replies[forward + next] && sent.script == replies[forward + (next + 1)..];
      BackwardAlone(sent, replies, forward, states, local, next + 1);
      assert BackAck(replies, forward, states, next) <==> Acknowledges(NextReply(a), states[next].original);
    }
  }

  /** Every call acknowledged and the store accepting: the update alone commits. */
  lemma CommitAlone(held: map<string, Bucket>, replies: seq<Reply>, local: Bucket, target: BreakpointRecord, states: seq<SourceState>,
                    applied: seq<Bucket>)
    requires ForwardOk(states, replies, applied) && |applied| == |states| == |replies|
    requires Admissible(local, Replacements(states, applied))
    requires Find(Replaced(local, Replacements(states, applied)), target.id).Some?
    ensures var committed := Replaced(local, Replacements(states, applied));
            var current := Find(committed, target.id).value;
            SameAnswer(Transact(AdapterState(held, replies, []), local, target, states), committed, Applied(current, Difference(target, current)))
  {
    var alone := AdapterState(held, replies, []);
    GoesThroughAlone(held, replies, local, states, applied);
    CommitOfSent(alone, ApplyFrom(alone, states, local, []).0, local, target, states, applied);
  }

  lemma CommitOfSent(alone: AdapterState, sent: AdapterState, local: Bucket, target: BreakpointRecord, states: seq<SourceState>, applied: seq<Bucket>)
    requires |applied| == |states| && ApplyFrom(alone, states, local, []) == (sent, Some(applied)) && sent.script == []
    requires Admissible(local, Replacements(states, applied))
    requires Find(Replaced(local, Replacements(states, applied)), target.id).Some?
    ensures var committed := Replaced(local, Replacements(states, applied));
            var current := Find(committed, target.id).value;
            SameAnswer(Transact(alone, local, target, states), committed, Applied(current, Difference(target, current)))
  {
  }

  /** How the forward pass of the update failed: at its last reply, or by an empty id once all were acknowledged. */
  ghost predicate ForwardFailed(states: seq<SourceState>, replies: seq<Reply>, forward: nat)
  {
    && 1 <= forward <= |states| && forward <= |replies|
    && (forall i | 0 <= i < forward - 1 :: ForwardAck(replies, states, i))
    && (ForwardAck(replies, states, forward - 1) ==> forward == |states| && "" in AllIds(OriginalLists(states)))
  }

  function AppliedBy(states: seq<SourceState>, replies: seq<Reply>, n: nat): (r: seq<Bucket>)
    requires forall i | 0 <= i < n :: ForwardAck(replies, states, i)
    ensures |r| == n && forall i | 0 <= i < n :: ForwardAck(replies, states, i) && r[i] == Project(states[i].desired, replies[i].evidence.value)
  {
    seq(n, i requires 0 <= i < n => assert ForwardAck(replies, states, i); Project(states[i].desired, replies[i].evidence.value))
  }

  /** A list with an empty id is never accepted. */
  lemma EmptyIdIsRefused(local: Bucket, requested: BreakpointRecord, planned: Bucket, states: seq<SourceState>, replies: seq<Reply>, applied: seq<Bucket>)
    requires Plan(planned, requested, states) && ForwardOk(states, replies, applied) && |applied| == |states|
    requires "" in AllIds(OriginalLists(states))
    ensures !Admissible(local, Replacements(states, applied))
  {
    var replacements := Replacements(states, applied);
    forall i | 0 <= i < |states| ensures Ids(replacements[i].records) == Ids(DesiredLists(states)[i]) {
      assert ForwardAck(replies, states, i);
      ProjectAgrees(states[i].desired, replies[i].evidence.value);
    }
    FlattenIds(replacements, DesiredLists(states));
    NoEmptyIdMeansNotInSet(Flatten(replacements));
  }

  lemma StopsHere(a: AdapterState, states: seq<SourceState>, local: Bucket, applied: seq<Bucket>)
    requires |applied| < |states| && a.script != [] && !Acknowledges(NextReply(a), states[|applied|].desired)
    ensures var (sent, r) := ApplyFrom(a, states, local, applied); r.None? && sent.script == a.script[1..]
  {
  }

  lemma StopsAlone(held: map<string, Bucket>, replies: seq<Reply>, local: Bucket, states: seq<SourceState>, applied: seq<Bucket>)
    requires ForwardOk(states, replies, applied) && |applied| < |states| && |applied| < |replies|
    requires !ForwardAck(replies, states, |applied|)
    ensures var (sent, r) := ApplyFrom(AdapterState(held, replies, []), states, local, []);
            r.None? && sent.script == replies[|applied| + 1..]
  {
    assert replies[0..] == replies && applied[..0] == [];
    var a := ForwardAlone(held, [], replies, states, local, applied, 0);
    assert NextReply(a) == replies[|applied|] && a.script[1..] == replies[|applied| + 1..];
    StopsHere(a, states, local, applied);
  }

  lemma GoesThroughAlone(held: map<string, Bucket>, replies: seq<Reply>, local: Bucket, states: seq<SourceState>, applied: seq<Bucket>)
    requires ForwardOk(states, replies, applied) && |applied| == |states|
    ensures var (sent, r) := ApplyFrom(AdapterState(held, replies, []), states, local, []);
            r == Some(applied) && sent.script == replies[|states|..]
  {
    assert replies[0..] == replies && applied[..0] == [];
    var a := ForwardAlone(held, [], replies, states, local, applied, 0);
    assert ApplyFrom(a, states, local, applied) == (a, Some(applied));
  }

  /** The forward pass of the update alone stops where the interleaved one did. */
  lemma FailsAlone(held: map<string, Bucket>, replies: seq<Reply>, local: Bucket, requested: BreakpointRecord, planned: Bucket,
                   states: seq<SourceState>, forward: nat)
    requires Plan(planned, requested, states) && ForwardFailed(states, replies, forward)
    ensures var (sent, applied) := ApplyFrom(AdapterState(held, replies, []), states, local, []);
            sent.script == replies[forward..] && (applied.None? || !Admissible(local, Replacements(states, applied.value)))
  {
    if ForwardAck(replies, states, forward - 1) {
      var applied := AppliedBy(states, replies, forward);
      assert ForwardOk(states, replies, applied);
      GoesThroughAlone(held, replies, local, states, applied);
      EmptyIdIsRefused(local, requested, planned, states, replies, applied);
    } else {
      var applied := AppliedBy(states, replies, forward - 1);
      assert ForwardOk(states, replies, applied);
      StopsAlone(held, replies, local, states, applied);
    }
  }

  lemma RollbackAlone(held: map<string, Bucket>, replies: seq<Reply>, local: Bucket, target: BreakpointRecord, requested: BreakpointRecord,
                      planned: Bucket, states: seq<SourceState>, forward: nat)
    requires Plan(planned, requested, states) && ForwardFailed(states, replies, forward) && |replies| == forward + |states|
    ensures SameAnswer(Transact(AdapterState(held, replies, []), local, target, states), local,
                       if forall i | 0 <= i < |states| :: BackAck(replies, forward, states, i) then Restored else Indeterminate)
  {
    FailsAlone(held, replies, local, requested, planned, states, forward);
    BackwardAlone(ApplyFrom(AdapterState(held, replies, []), states, local, []).0, replies, forward, states, local, 0);
  }

  // --------------------------------------------------------- invariant: the updates' logs

  ghost predicate ApplyingOk(log: Log, target: BreakpointRecord, states: seq<SourceState>, applied: seq<Bucket>)
  {
    && log.UpdateRuns? && log.target == target && Planned(log.before, log.patch, target, states)
    && Patched(target, log.patch) != target
    && log.allRestored && |log.replies| == |applied| && ForwardOk(states, log.replies, applied)
  }

  ghost predicate RestoringOk(w: World, log: Log, states: seq<SourceState>, next: nat)
  {
    && log.UpdateRuns? && next <= |states| && Planned(log.before, log.patch, log.target, states)
    && Patched(log.target, log.patch) != log.target
    && ForwardFailed(states, log.replies, log.forward) && |log.replies| == log.forward + next
    && (log.allRestored <==> forall i | 0 <= i < next :: BackAck(log.replies, log.forward, states, i))
    && (log.allRestored ==> HasOriginals(w, states, next))
  }

  ghost predicate HasOriginals(w: World, states: seq<SourceState>, next: nat)
    requires next <= |states|
  {
    forall i | 0 <= i < next :: AdapterList(w, states[i].file) == states[i].original
  }

  ghost predicate UpdateLogOk(w: World, call: Call, log: Log)
  {
    match call
    case Locking(patch, _, _) => log == UpdateWaits(patch)
    case Applying(target, states, applied) => ApplyingOk(log, target, states, applied)
    case Restoring(states, next) => RestoringOk(w, log, states, next)
    case Finished => log.TemporaryDone? || (log.UpdateDone? && UpdateEnded(log))
    case TemporaryLocking(_, temporary) => log == TemporaryWaits(temporary)
    case _ => log.TemporaryRuns?
  }

  ghost predicate UpdateLogsOk(w: World, logs: map<nat, Log>)
  {
    forall c | c in w.calls :: c in logs && UpdateLogOk(w, w.calls[c], logs[c])
  }

  /** A log depends on its call's own sources only. */
  lemma UpdateLogFrame(w: World, w': World, call: Call, log: Log)
    requires UpdateLogOk(w, call, log) && forall f | f in Owned(call) :: SameAt(w, w', f)
    ensures UpdateLogOk(w', call, log)
  {
    if call.Restoring? {
      forall i | 0 <= i < call.next ensures AdapterList(w', call.states[i].file) == AdapterList(w, call.states[i].file) {
        OwnsState(call, call.states, i);
      }
    }
  }

  /** One call's step: it accounts for its own log, and the other calls' sources are left alone. */
  lemma LogStep(w: World, w': World, logs: map<nat, Log>, c: nat, log: Log)
    requires UpdateLogsOk(w, logs) && c in w'.calls && w'.calls == w.calls[c := w'.calls[c]]
    requires UpdateLogOk(w', w'.calls[c], log)
    requires forall d, f | d in w.calls && d != c && f in Owned(w.calls[d]) :: SameAt(w, w', f)
    ensures UpdateLogsOk(w', logs[c := log])
  {
    forall d | d in w'.calls ensures d in logs[c := log] && UpdateLogOk(w', w'.calls[d], logs[c := log][d]) {
      if d != c {
        UpdateLogFrame(w, w', w.calls[d], logs[d]);
      }
    }
  }

  // ------------------------------------------------------------- the steps of an update

  /** Nobody has touched the sources of an update that holds its locks. */
  lemma OwnListsAreKept(w: World, before: Bucket, patch: Patch, target: BreakpointRecord, states: seq<SourceState>)
    requires Planned(before, patch, target, states) && StatesInv(w, states) && UniqueIds(w.local)
    ensures forall f | f in StateFiles(states) :: SourceList(w.local, f) == SourceList(before, f)
    ensures StatesOf(w.local, target, patch) == states && target in w.local
    ensures Plan(w.local, Patched(target, patch), states)
  {
    var paths := AffectedSources(target, patch);
    AffectedSourcesAreSorted(target, patch);
    forall f | f in StateFiles(states) ensures SourceList(w.local, f) == SourceList(before, f) {
      var i :| 0 <= i < |states| && states[i].file == f;
      assert states[i] == StateFor(before, target, Patched(target, patch), paths[i]);
    }
    forall i | 0 <= i < |states| ensures states[i] == StateFor(w.local, target, Patched(target, patch), paths[i]) {
      assert states[i] == StateFor(before, target, Patched(target, patch), paths[i]);
      assert states[i].file in StateFiles(states);
    }
    assert StatesOf(w.local, target, patch) == states;
    StatesOfFiles(before, target, patch);
    SourceListMembers(before, target.file);
    SourceListMembers(w.local, target.file);
    assert target.file in StateFiles(states);
    UpdateHasPlan(w.local, target, patch);
  }

  /** An ending told by one adapter state holds of another that holds what the ending says. */
  lemma EndsWellElsewhere(a: AdapterState, local: Bucket, target: BreakpointRecord, requested: BreakpointRecord, states: seq<SourceState>,
                          after: AdapterState, other: AdapterState, local': Bucket, result: UpdateResult)
    requires EndsWell(a, local, target, requested, states, after, local', result)
    requires result.Unchanged? ==> other == a
    requires result.Applied? ==> forall i | 0 <= i < |states| :: Holds(other, states[i].file) == states[i].desired
    requires result.Restored? ==> forall i | 0 <= i < |states| :: Holds(other, states[i].file) == SourceList(local, states[i].file)
    ensures EndsWell(a, local, target, requested, states, other, local', result)
  {
  }

  /** From the same answer alone and what the adapter holds, the whole ending. */
  lemma EndingFromAnswer(w: World, log: Log, states: seq<SourceState>, s: Stores, replies: seq<Reply>, result: UpdateResult)
    requires log.UpdateRuns? && Planned(log.before, log.patch, log.target, states) && Patched(log.target, log.patch) != log.target
    requires StatesInv(w, states) && UniqueIds(w.local) && s.before == log.before && s.last == w.local
    requires SameAnswer(Transact(AdapterState(s.held, replies, []), w.local, log.target, states), s.local, result)
    requires EndHolds(s.held, states, result)
    ensures UpdateEnded(UpdateDone(log.patch, s, replies, Ended(result)))
  {
    OwnListsAreKept(w, log.before, log.patch, log.target, states);
    OwnListsAreOriginal(w, states);
    SameAnswerEndsWell(AdapterState(s.held, replies, []), w.local, log.target, log.patch, states, s, result);
  }

  lemma OwnListsAreOriginal(w: World, states: seq<SourceState>)
    requires StatesInv(w, states)
    ensures forall i | 0 <= i < |states| :: SourceList(w.local, states[i].file) == states[i].original
  {
  }

  /** What an ending says about the adapter. */
  ghost predicate EndHolds(held: map<string, Bucket>, states: seq<SourceState>, result: UpdateResult)
  {
    && !result.Unchanged?
    && (result.Applied? ==> forall i | 0 <= i < |states| :: Holds(AdapterState(held, [], []), states[i].file) == states[i].desired)
    && (result.Restored? ==> forall i | 0 <= i < |states| :: Holds(AdapterState(held, [], []), states[i].file) == states[i].original)
  }

  lemma SameAnswerEndsWell(alone: AdapterState, local: Bucket, target: BreakpointRecord, patch: Patch, states: seq<SourceState>,
                           s: Stores, result: UpdateResult)
    requires UniqueIds(local) && target in local && Patched(target, patch) != target && states == StatesOf(local, target, patch)
    requires forall i | 0 <= i < |states| :: SourceList(local, states[i].file) == states[i].original
    requires SameAnswer(Transact(alone, local, target, states), s.local, result) && EndHolds(s.held, states, result)
    ensures SameAnswer(UpdateRun(alone, local, target, patch), s.local, result)
    ensures EndsWell(alone, local, target, Patched(target, patch), states, AdapterState(s.held, [], []), s.local, result)
  {
    UpdateEndsInOneOfThreeWays(alone, local, target, patch);
    var run := UpdateRun(alone, local, target, patch);
    assert run == Transact(alone, local, target, states);
    EndsWellElsewhere(alone, local, target, Patched(target, patch), states, run.0, AdapterState(s.held, [], []), s.local, result);
  }

  lemma MoreReplies(states: seq<SourceState>, replies: seq<Reply>, applied: seq<Bucket>, reply: Reply)
    requires ForwardOk(states, replies, applied) && |replies| == |applied| < |states|
    ensures ForwardOk(states, replies + [reply], applied)
    ensures Acknowledges(reply, states[|applied|].desired) ==>
              ForwardOk(states, replies + [reply], applied + [Project(states[|applied|].desired, reply.evidence.value)])
    ensures ForwardAck(replies + [reply], states, |applied|) <==> Acknowledges(reply, states[|applied|].desired)
  {
    var more := replies + [reply];
    forall i | 0 <= i < |applied| ensures ForwardAck(more, states, i) && applied[i] == Project(states[i].desired, more[i].evidence.value) {
      assert ForwardAck(replies, states, i) && more[i] == replies[i];
    }
    assert more[|applied|] == reply;
  }

  /** The reply was no acknowledgement: the rollback begins. */
  lemma RefusedReplyLogOk(w': World, states: seq<SourceState>, applied: seq<Bucket>, reply: Reply, log: Log)
    requires log.UpdateRuns? && ApplyingOk(log, log.target, states, applied) && |applied| < |states|
    requires Acknowledges(reply, states[|applied|].desired) ==> |applied| + 1 == |states| && "" in AllIds(OriginalLists(states))
    ensures RestoringOk(w', log.(forward := |log.replies| + 1, replies := log.replies + [reply]), states, 0)
  {
    MoreReplies(states, log.replies, applied, reply);
  }

  /** All calls were acknowledged and yet the store refused: an id is empty. */
  lemma RefusedForEmptyId(w: World, w1: World, log: Log, states: seq<SourceState>, applied: seq<Bucket>)
    requires log.UpdateRuns? && Planned(log.before, log.patch, log.target, states)
    requires UniqueIds(w.local) && w1.local == w.local && StatesInv(w, states) && |applied| == |states|
    requires forall i | 0 <= i < |states| :: AppliedInv(w1, states[i], applied[i])
    ensures Admissible(w.local, Replacements(states, applied)) <==> "" !in AllIds(OriginalLists(states))
  {
    OwnListsAreKept(w, log.before, log.patch, log.target, states);
    var a := AdapterState(w1.adapter, [], []);
    forall i | 0 <= i < |applied|
      ensures Agree(applied[i], states[i].desired) && Ids(applied[i]) == Ids(states[i].desired) && Holds(a, states[i].file) == states[i].desired
    {
      assert AppliedInv(w1, states[i], applied[i]);
    }
    CommitOfAcknowledged(w.local, Patched(log.target, log.patch), states, a, applied);
  }

  lemma DesiredIsHeld(w: World, states: seq<SourceState>, applied: seq<Bucket>, result: UpdateResult)
    requires |applied| == |states| && result.Applied?
    requires forall i | 0 <= i < |states| :: AppliedInv(w, states[i], applied[i])
    ensures EndHolds(w.adapter, states, result)
  {
    forall i | 0 <= i < |states| ensures Holds(AdapterState(w.adapter, [], []), states[i].file) == states[i].desired {
      assert AppliedInv(w, states[i], applied[i]);
    }
  }

  lemma CommitLogOk(w: World, w1: World, log: Log, states: seq<SourceState>, applied: seq<Bucket>, replies: seq<Reply>, local: Bucket)
    requires log.UpdateRuns? && Planned(log.before, log.patch, log.target, states) && Patched(log.target, log.patch) != log.target
    requires UniqueIds(w.local) && StatesInv(w, states) && |applied| == |states| == |replies| && ForwardOk(states, replies, applied)
    requires forall i | 0 <= i < |states| :: AppliedInv(w1, states[i], applied[i])
    requires Admissible(w.local, Replacements(states, applied)) && local == Replaced(w.local, Replacements(states, applied))
    requires Find(local, log.target.id).Some?
    ensures var current := Find(local, log.target.id).value;
            UpdateEnded(UpdateDone(log.patch, Stores(log.before, w.local, local, w1.adapter), replies,
                                   Ended(Applied(current, Difference(log.target, current)))))
  {
    var current := Find(local, log.target.id).value;
    CommitAlone(w1.adapter, replies, w.local, log.target, states, applied);
    DesiredIsHeld(w1, states, applied, Applied(current, Difference(log.target, current)));
    EndingFromAnswer(w, log, states, Stores(log.before, w.local, local, w1.adapter), replies, Applied(current, Difference(log.target, current)));
  }

  lemma CommitCases(w: World, c: nat, target: BreakpointRecord, states: seq<SourceState>, applied: seq<Bucket>)
    requires c in w.calls && |applied| == |states|
    requires Admissible(w.local, Replacements(states, applied)) ==> Find(Replaced(w.local, Replacements(states, applied)), target.id).Some?
    ensures var w' := Commit(w, c, target, states, applied);
            && c in w'.calls && w'.adapter == w.adapter
            && (if Admissible(w.local, Replacements(states, applied))
                then w'.calls[c] == Finished && w'.local == Replaced(w.local, Replacements(states, applied))
                else w'.calls[c] == Restoring(states, 0) && w'.local == w.local)
  {
  }

  /** The last acknowledgement of an update: it commits and answers, or begins the rollback. */
  lemma LastReplyLogOk(w: World, w1: World, w': World, c: nat, states: seq<SourceState>, applied: seq<Bucket>, all: seq<Bucket>,
                       reply: Reply, log: Log)
    requires log.UpdateRuns? && ApplyingOk(log, log.target, states, applied) && |applied| + 1 == |states| == |all|
    requires UniqueIds(w.local) && StatesInv(w, states) && w1.local == w.local
    requires forall i | 0 <= i < |states| :: AppliedInv(w1, states[i], all[i])
    requires Acknowledges(reply, states[|applied|].desired)
    requires all == applied + [Project(states[|applied|].desired, reply.evidence.value)]
    requires c in w'.calls && w'.adapter == w1.adapter
    requires if Admissible(w.local, Replacements(states, all))
             then w'.calls[c] == Finished && w'.local == Replaced(w.local, Replacements(states, all)) && Find(w'.local, log.target.id).Some?
             else w'.calls[c] == Restoring(states, 0)
    ensures UpdateLogOk(w', w'.calls[c], ForwardLog(w, w', c, log.target, reply, log))
  {
    MoreReplies(states, log.replies, applied, reply);
    RefusedForEmptyId(w, w1, log, states, all);
    if Admissible(w.local, Replacements(states, all)) {
      CommitLogOk(w, w1, log, states, all, log.replies + [reply], w'.local);
    } else {
      RefusedReplyLogOk(w', states, applied, reply, log);
    }
  }

  lemma LastApplyIsCommit(w: World, c: nat, target: BreakpointRecord, states: seq<SourceState>, applied: seq<Bucket>, reply: Reply)
    requires c in w.calls && |applied| + 1 == |states| && Acknowledges(reply, states[|applied|].desired)
    ensures var k := |applied|;
            ApplyReply(w, c, target, states, applied, reply)
            == Commit(AfterReply(w, states[k].file, states[k].desired, reply), c, target, states, applied + [Project(states[k].desired, reply.evidence.value)])
  {
  }

  lemma EarlierApplyCases(w: World, c: nat, target: BreakpointRecord, states: seq<SourceState>, applied: seq<Bucket>, reply: Reply)
    requires c in w.calls && |applied| < |states|
    requires !Acknowledges(reply, states[|applied|].desired) || |applied| + 1 < |states|
    ensures var w' := ApplyReply(w, c, target, states, applied, reply);
            && c in w'.calls
            && w'.calls[c] == if Acknowledges(reply, states[|applied|].desired)
                              then Applying(target, states, applied + [Project(states[|applied|].desired, reply.evidence.value)])
                              else Restoring(states, 0)
  {
  }

  lemma LastApplyLogOk(w: World, c: nat, target: BreakpointRecord, states: seq<SourceState>, applied: seq<Bucket>, reply: Reply, log: Log)
    requires DataInv(w) && c in w.calls && w.calls[c] == Applying(target, states, applied) && |applied| + 1 == |states|
    requires Acknowledges(reply, states[|applied|].desired) && log.UpdateRuns? && ApplyingOk(log, target, states, applied)
    ensures var w' := ApplyReply(w, c, target, states, applied, reply);
            c in w'.calls && UpdateLogOk(w', w'.calls[c], ForwardLog(w, w', c, target, reply, log))
  {
    var k := |applied|;
    var w1 := AfterReply(w, states[k].file, states[k].desired, reply);
    var last := Project(states[k].desired, reply.evidence.value);
    assert CallInv(w, w.calls[c]);
    ReplyFrame(w, states[k].file, states[k].desired, reply);
    ProjectAgrees(states[k].desired, reply.evidence.value);
    AllAppliedAfterReply(w, w1, c, target, states, applied, last);
    CommittedTargetIsFound(w1, target, states, applied + [last]);
    CommitCases(w1, c, target, states, applied + [last]);
    LastApplyIsCommit(w, c, target, states, applied, reply);
    LastReplyLogOk(w, w1, Commit(w1, c, target, states, applied + [last]), c, states, applied, applied + [last], reply, log);
  }

  lemma ApplyReplyLogOk(w: World, c: nat, target: BreakpointRecord, states: seq<SourceState>, applied: seq<Bucket>, reply: Reply, log: Log)
    requires DataInv(w) && c in w.calls && w.calls[c] == Applying(target, states, applied) && |applied| < |states|
    requires log.UpdateRuns? && ApplyingOk(log, target, states, applied)
    ensures var w' := ApplyReply(w, c, target, states, applied, reply);
            c in w'.calls && UpdateLogOk(w', w'.calls[c], ForwardLog(w, w', c, target, reply, log))
  {
    if |applied| + 1 == |states| && Acknowledges(reply, states[|applied|].desired) {
      LastApplyLogOk(w, c, target, states, applied, reply, log);
    } else {
      EarlierApplyCases(w, c, target, states, applied, reply);
      MoreReplies(states, log.replies, applied, reply);
      if !Acknowledges(reply, states[|applied|].desired) {
        RefusedReplyLogOk(ApplyReply(w, c, target, states, applied, reply), states, applied, reply, log);
      }
    }
  }

  lemma MoreBackAcks(states: seq<SourceState>, replies: seq<Reply>, forward: nat, next: nat, reply: Reply)
    requires next < |states| && |replies| == forward + next && ForwardFailed(states, replies, forward)
    ensures ForwardFailed(states, replies + [reply], forward)
    ensures (forall i | 0 <= i < next + 1 :: BackAck(replies + [reply], forward, states, i))
       <==> (forall i | 0 <= i < next :: BackAck(replies, forward, states, i)) && Acknowledges(reply, states[next].original)
  {
    var more := replies + [reply];
    assert forall i | 0 <= i < |replies| :: more[i] == replies[i];
    forall i | 0 <= i < next ensures BackAck(more, forward, states, i) <==> BackAck(replies, forward, states, i) {
      assert more[forward + i] == replies[forward + i];
    }
    assert BackAck(more, forward, states, next) <==> Acknowledges(reply, states[next].original) by {
      assert more[forward + next] == reply;
    }
    forall i | 0 <= i < forward ensures ForwardAck(more, states, i) <==> ForwardAck(replies, states, i) {
      assert more[i] == replies[i];
    }
  }

  lemma OriginalsAfterReply(w: World, w': World, states: seq<SourceState>, next: nat, reply: Reply)
    requires DistinctStates(states) && next < |states|
    requires w'.adapter == AfterReply(w, states[next].file, states[next].original, reply).adapter
    requires HasOriginals(w, states, next) && Acknowledges(reply, states[next].original)
    ensures HasOriginals(w', states, next + 1)
  {
  }

  lemma LastRestoreLogOk(w: World, log: Log, states: seq<SourceState>, replies: seq<Reply>, ok: bool, held: map<string, Bucket>)
    requires log.UpdateRuns? && Planned(log.before, log.patch, log.target, states) && Patched(log.target, log.patch) != log.target
    requires UniqueIds(w.local) && StatesInv(w, states)
    requires ForwardFailed(states, replies, log.forward) && |replies| == log.forward + |states|
    requires ok <==> forall i | 0 <= i < |states| :: BackAck(replies, log.forward, states, i)
    requires ok ==> forall i | 0 <= i < |states| :: Holds(AdapterState(held, [], []), states[i].file) == states[i].original
    ensures UpdateEnded(UpdateDone(log.patch, Stores(log.before, w.local, w.local, held), replies, Ended(if ok then Restored else Indeterminate)))
  {
    UpdateHasPlan(log.before, log.target, log.patch);
    RollbackAlone(held, replies, w.local, log.target, Patched(log.target, log.patch), log.before, states, log.forward);
    EndingFromAnswer(w, log, states, Stores(log.before, w.local, w.local, held), replies, if ok then Restored else Indeterminate);
  }

  lemma RestoreReplyCases(w: World, c: nat, states: seq<SourceState>, next: nat, reply: Reply)
    requires c in w.calls && next < |states|
    ensures var w' := RestoreReply(w, c, states, next, reply);
            && c in w'.calls && w'.local == w.local && w'.adapter == AfterReply(w, states[next].file, states[next].original, reply).adapter
            && w'.calls[c] == if next + 1 < |states| then Restoring(states, next + 1) else Finished
  {
  }

  lemma RestoreReplyLogOk(w: World, w': World, c: nat, states: seq<SourceState>, next: nat, reply: Reply, log: Log)
    requires UniqueIds(w.local) && StatesInv(w, states) && next < |states| && log.UpdateRuns? && RestoringOk(w, log, states, next)
    requires w'.local == w.local && w'.adapter == AfterReply(w, states[next].file, states[next].original, reply).adapter
    ensures UpdateLogOk(w', if next + 1 < |states| then Restoring(states, next + 1) else Finished, BackwardLog(w, w', states, next, reply, log))
  {
    var ok := log.allRestored && Acknowledges(reply, states[next].original);
    MoreBackAcks(states, log.replies, log.forward, next, reply);
    if ok {
      OriginalsAfterReply(w, w', states, next, reply);
    }
    if next + 1 == |states| {
      OriginalsHeld(w', states, ok);
      LastRestoreLogOk(w, log, states, log.replies + [reply], ok, w'.adapter);
    }
  }

  lemma OriginalsHeld(w: World, states: seq<SourceState>, ok: bool)
    requires ok ==> HasOriginals(w, states, |states|)
    ensures ok ==> forall i | 0 <= i < |states| :: Holds(AdapterState(w.adapter, [], []), states[i].file) == states[i].original
  {
    if ok {
      forall i | 0 <= i < |states| ensures Holds(AdapterState(w.adapter, [], []), states[i].file) == states[i].original {
        assert AdapterList(w, states[i].file) == states[i].original;
      }
    }
  }

  /** An update that has no field to change answers at once. */
  lemma UnchangedLogOk(w: World, w': World, patch: Patch)
    requires UniqueIds(w.local) && Find(w.local, patch.breakpointId).Some? && w'.local == w.local
    requires var target := Find(w.local, patch.breakpointId).value; OwnerAllowed(target, patch) && Patched(target, patch) == target
    ensures UpdateEnded(UpdateDone(patch, Here(w, w'), [], Ended(Unchanged)))
  {
  }

  lemma LockedLogOk(w: World, c: nat, patch: Patch, sources: seq<string>)
    requires UniqueIds(w.local) && c in w.calls
    ensures var w' := Locked(w, c, patch, sources);
            c in w'.calls && w'.local == w.local && UpdateLogOk(w', w'.calls[c], LockedLog(w, w', patch, sources))
  {
    var target := Find(w.local, patch.breakpointId);
    if target.Some? && AffectedSources(target.value, patch) == sources && OwnerAllowed(target.value, patch)
       && Patched(target.value, patch) == target.value {
      UnchangedLogOk(w, Locked(w, c, patch, sources), patch);
    }
  }

  lemma GrantCases(w: World, c: nat, canApply: bool)
    requires c in w.calls && w.calls[c].Locking?
    ensures var Locking(patch, sources, held) := w.calls[c];
            var w' := GrantStep(w, c, canApply);
            if held + 1 == |sources| && AtHead(w, sources[held], c)
            then w' == Locked(w.(calls := w.calls[c := Locking(patch, sources, held + 1)]), c, patch, sources)
            else c in w'.calls && w'.calls[c].Locking? && w'.calls[c].patch == patch && w'.local == w.local
  {
  }

  lemma LastGrantLog(w: World, w1: World, w': World, c: nat, patch: Patch, sources: seq<string>, held: nat, log: Log)
    requires c in w.calls && held + 1 == |sources| && w.calls[c] == Locking(patch, sources, held) && AtHead(w, sources[held], c)
    requires w1.local == w.local && c in w'.calls
    ensures GrantLog(w, w', c, log) == LockedLog(w1, w', patch, sources)
  {
    SameLockedLog(w, w1, w', patch, sources);
  }

  /** `w1` is the world with the last source granted, `w'` the one after the locked part. */
  lemma LastGrantLogOk(w: World, w1: World, w': World, c: nat, patch: Patch, sources: seq<string>, held: nat, log: Log)
    requires UniqueIds(w.local) && c in w.calls && c in w1.calls && w1.local == w.local && w' == Locked(w1, c, patch, sources)
    requires held + 1 == |sources| && w.calls[c] == Locking(patch, sources, held) && AtHead(w, sources[held], c)
    ensures c in w'.calls && UpdateLogOk(w', w'.calls[c], GrantLog(w, w', c, log))
  {
    LockedLogOk(w1, c, patch, sources);
    LastGrantLog(w, w1, w', c, patch, sources, held, log);
  }

  lemma WaitingGrantLogOk(w: World, w': World, c: nat, patch: Patch, sources: seq<string>, held: nat, log: Log)
    requires c in w.calls && w.calls[c] == Locking(patch, sources, held) && log == UpdateWaits(patch)
    requires !(held + 1 == |sources| && AtHead(w, sources[held], c)) && c in w'.calls && w'.calls[c].Locking? && w'.calls[c].patch == patch
    ensures UpdateLogOk(w', w'.calls[c], GrantLog(w, w', c, log))
  {
  }

  lemma GrantLogOk(w: World, c: nat, canApply: bool, log: Log)
    requires UniqueIds(w.local) && c in w.calls && w.calls[c].Locking? && log == UpdateWaits(w.calls[c].patch)
    ensures var w' := GrantStep(w, c, canApply);
            c in w'.calls && UpdateLogOk(w', w'.calls[c], GrantLog(w, w', c, log))
  {
    var Locking(patch, sources, held) := w.calls[c];
    var w' := GrantStep(w, c, canApply);
    GrantCases(w, c, canApply);
    if held + 1 == |sources| && AtHead(w, sources[held], c) {
      LastGrantLogOk(w, w.(calls := w.calls[c := Locking(patch, sources, held + 1)]), w', c, patch, sources, held, log);
    } else {
      WaitingGrantLogOk(w, w', c, patch, sources, held, log);
    }
  }

  lemma SameLockedLog(w: World, w1: World, w': World, patch: Patch, sources: seq<string>)
    requires w1.local == w.local
    ensures LockedLog(w1, w', patch, sources) == LockedLog(w, w', patch, sources)
  {
  }

  lemma TemporaryGrantLogOk(w: World, c: nat, canApply: bool, log: Log)
    requires c in w.calls && w.calls[c].TemporaryLocking? && UpdateLogOk(w, w.calls[c], log)
    ensures var w' := GrantStep(w, c, canApply);
            c in w'.calls && UpdateLogOk(w', w'.calls[c], GrantLog(w, w', c, log))
  {
  }

  lemma TemporaryReplyLogOk(w: World, c: nat, reply: Reply, log: Log)
    requires c in w.calls && (w.calls[c].Installing? || w.calls[c].Removing?) && UpdateLogOk(w, w.calls[c], log)
    ensures var w' := Step(w, Replied(c, reply));
            c in w'.calls && UpdateLogOk(w', w'.calls[c], ReplyLog(w, w', c, reply, log))
  {
  }

  // --------------------------------------------------------------------- whole runs

  predicate Arrives(w: World, event: Event)
  {
    (event.Update? || event.Temporary?) && event.call !in w.calls
  }

  predicate Continues(w: World, event: Event)
  {
    !event.Update? && !event.Temporary? && event.call in w.calls
  }

  lemma NothingHappens(w: World, event: Event)
    requires !Arrives(w, event) && !Continues(w, event)
    ensures Step(w, event) == w
  {
  }

  lemma ArrivalChangesOneCall(w: World, event: Event)
    requires Arrives(w, event)
    ensures var w', c := Step(w, event), event.call; c in w'.calls && w'.calls == w.calls[c := w'.calls[c]]
  {
  }

  lemma ReplyChangesOneCall(w: World, c: nat, reply: Reply)
    requires c in w.calls
    ensures var w' := Step(w, Replied(c, reply)); c in w'.calls && w'.calls == w.calls[c := w'.calls[c]]
  {
    match w.calls[c] {
      case Applying(target, states, applied) =>
        if |applied| < |states| { ApplyReplyChangesOneCall(w, c, target, states, applied, reply); }
      case Restoring(states, next) =>
      case Installing(file, original, temporary) => InstallReplyEffect(w, c, file, original, temporary, reply);
      case Removing(file, original, fallback) => RemoveReplyEffect(w, c, file, original, fallback, reply);
      case _ =>
    }
  }

  lemma ApplyReplyChangesOneCall(w: World, c: nat, target: BreakpointRecord, states: seq<SourceState>, applied: seq<Bucket>, reply: Reply)
    requires c in w.calls && |applied| < |states|
    ensures var w' := ApplyReply(w, c, target, states, applied, reply); c in w'.calls && w'.calls == w.calls[c := w'.calls[c]]
  {
    if |applied| + 1 == |states| && Acknowledges(reply, states[|applied|].desired) {
      LastApplyIsCommit(w, c, target, states, applied, reply);
      CommitEffect(AfterReply(w, states[|applied|].file, states[|applied|].desired, reply), c, target, states,
                   applied + [Project(states[|applied|].desired, reply.evidence.value)]);
    }
  }

  lemma GrantChangesOneCall(w: World, c: nat, canApply: bool)
    requires c in w.calls && UniqueIds(w.local)
    ensures var w' := GrantStep(w, c, canApply); c in w'.calls && w'.calls == w.calls[c := w'.calls[c]]
  {
    if w.calls[c].Locking? {
      GrantCases(w, c, canApply);
      var Locking(patch, sources, held) := w.calls[c];
      if held + 1 == |sources| && AtHead(w, sources[held], c) {
        LockedCases(w.(calls := w.calls[c := Locking(patch, sources, held + 1)]), c, patch, sources);
        TwoWrites(w.calls, c, Locking(patch, sources, held + 1), GrantStep(w, c, canApply).calls[c]);
      }
    }
  }

  lemma TwoWrites(calls: map<nat, Call>, c: nat, first: Call, second: Call)
    ensures calls[c := first][c := second] == calls[c := second]
  {
  }

  lemma StepChangesOneCall(w: World, event: Event)
    requires UniqueIds(w.local) && (Arrives(w, event) || Continues(w, event))
    ensures var w', c := Step(w, event), event.call; c in w'.calls && w'.calls == w.calls[c := w'.calls[c]]
  {
    match event
    case Update(_, _) => ArrivalChangesOneCall(w, event);
    case Temporary(_, _) => ArrivalChangesOneCall(w, event);
    case Granted(c, canApply) => GrantChangesOneCall(w, c, canApply);
    case Replied(c, reply) => ReplyChangesOneCall(w, c, reply);
    case CallbackDone(_, _) =>
  }

  /** A step leaves alone the sources that other calls own. */
  lemma OthersUntouched(w: World, event: Event)
    requires Exclusive(w) && DataInv(w)
    ensures forall d, f | d in w.calls && d != event.call && f in Owned(w.calls[d]) :: SameAt(w, Step(w, event), f)
  {
    forall d, f | d in w.calls && d != event.call && f in Owned(w.calls[d]) ensures SameAt(w, Step(w, event), f) {
      if !SameAt(w, Step(w, event), f) {
        StepTouchesOnlyOwnedSources(w, event, f);
        OwnersAreDisjoint(w, d, event.call, f);
      }
    }
  }

  lemma ArrivalLogOk(w: World, event: Event)
    requires Arrives(w, event) && UniqueIds(w.local)
    ensures var w' := Step(w, event);
            event.call in w'.calls && UpdateLogOk(w', w'.calls[event.call], ArrivalLog(w, w', event))
  {
  }

  lemma ApplyingReply(w: World, c: nat, reply: Reply, log: Log)
    requires c in w.calls && w.calls[c].Applying? && log.UpdateRuns? && |w.calls[c].applied| < |w.calls[c].states|
    ensures var Applying(target, states, applied) := w.calls[c];
            var w' := Step(w, Replied(c, reply));
            && w' == ApplyReply(w, c, target, states, applied, reply)
            && (c in w'.calls ==> ReplyLog(w, w', c, reply, log) == ForwardLog(w, w', c, target, reply, log))
  {
  }

  lemma RestoringReply(w: World, c: nat, reply: Reply, log: Log)
    requires c in w.calls && w.calls[c].Restoring? && log.UpdateRuns? && w.calls[c].next < |w.calls[c].states|
    ensures var Restoring(states, next) := w.calls[c];
            var w' := Step(w, Replied(c, reply));
            && w' == RestoreReply(w, c, states, next, reply)
            && (c in w'.calls ==> ReplyLog(w, w', c, reply, log) == BackwardLog(w, w', states, next, reply, log))
  {
  }

  lemma UpdateReplyLogOk(w: World, c: nat, reply: Reply, log: Log)
    requires DataInv(w) && c in w.calls && UpdateLogOk(w, w.calls[c], log)
    requires w.calls[c].Applying? || w.calls[c].Restoring?
    ensures var w' := Step(w, Replied(c, reply));
            c in w'.calls && UpdateLogOk(w', w'.calls[c], ReplyLog(w, w', c, reply, log))
  {
    assert CallInv(w, w.calls[c]);
    if w.calls[c].Applying? {
      var Applying(target, states, applied) := w.calls[c];
      ApplyingReply(w, c, reply, log);
      ApplyReplyLogOk(w, c, target, states, applied, reply, log);
    } else {
      var Restoring(states, next) := w.calls[c];
      RestoringReply(w, c, reply, log);
      RestoreReplyCases(w, c, states, next, reply);
      RestoreReplyLogOk(w, RestoreReply(w, c, states, next, reply), c, states, next, reply, log);
    }
  }

  lemma ReplyLogOk(w: World, c: nat, reply: Reply, log: Log)
    requires DataInv(w) && c in w.calls && UpdateLogOk(w, w.calls[c], log)
    ensures var w' := Step(w, Replied(c, reply));
            c in w'.calls && UpdateLogOk(w', w'.calls[c], ReplyLog(w, w', c, reply, log))
  {
    if w.calls[c].Applying? || w.calls[c].Restoring? {
      UpdateReplyLogOk(w, c, reply, log);
    } else if w.calls[c].Installing? || w.calls[c].Removing? {
      TemporaryReplyLogOk(w, c, reply, log);
    }
  }

  lemma ContinuedLogOk(w: World, event: Event, log: Log)
    requires DataInv(w) && Continues(w, event) && UpdateLogOk(w, w.calls[event.call], log)
    ensures var w' := Step(w, event);
            event.call in w'.calls && UpdateLogOk(w', w'.calls[event.call], NextLog(w, w', event, log))
  {
    match event
    case Granted(c, canApply) =>
      if w.calls[c].Locking? {
        GrantLogOk(w, c, canApply, log);
      } else if w.calls[c].TemporaryLocking? {
        TemporaryGrantLogOk(w, c, canApply, log);
      }
    case Replied(c, reply) => ReplyLogOk(w, c, reply, log);
    case CallbackDone(_, _) =>
  }

  lemma StepKeepsUpdateLogs(w: World, logs: map<nat, Log>, event: Event)
    requires Exclusive(w) && DataInv(w) && UpdateLogsOk(w, logs)
    ensures UpdateLogsOk(Step(w, event), LogsAfter(w, logs, event))
  {
    var w', c := Step(w, event), event.call;
    if Arrives(w, event) {
      StepChangesOneCall(w, event);
      OthersUntouched(w, event);
      ArrivalLogOk(w, event);
      LogStep(w, w', logs, c, ArrivalLog(w, w', event));
    } else if Continues(w, event) {
      StepChangesOneCall(w, event);
      OthersUntouched(w, event);
      ContinuedLogOk(w, event, logs[c]);
      LogStep(w, w', logs, c, NextLog(w, w', event, logs[c]));
    } else {
      NothingHappens(w, event);
    }
  }

  lemma {:induction false} RunKeepsUpdateLogs(w: World, events: seq<Event>)
    requires Initial(w)
    ensures UpdateLogsOk(Traced(w, events).w, Traced(w, events).logs)
  {
    if events != [] {
      var before, last := events[..|events| - 1], events[|events| - 1];
      RunKeepsUpdateLogs(w, before);
      RunKeepsInv(w, before);
      TraceIsRun(w, before);
      LocksExclude(Run(w, before));
      StepKeepsUpdateLogs(Run(w, before), Traced(w, before).logs, last);
    }
  }

  /** In every interleaving of any calls, with any adapter: each call that has finished has an answer; an update that threw
      before it began had no such breakpoint or no right to it, and changed nothing; and any other answered, and left its
      sources, as if it had run alone, in one of the three ways an update may end. */
  lemma FinishedUpdatesEndAsIfAlone(w: World, events: seq<Event>, c: nat)
    requires Initial(w)
    requires c in Run(w, events).calls && Run(w, events).calls[c].Finished?
    ensures var logs := Traced(w, events).logs;
            c in logs && (logs[c].TemporaryDone? || (logs[c].UpdateDone? && UpdateEnded(logs[c])))
  {
    TraceIsRun(w, events);
    RunKeepsUpdateLogs(w, events);
  }

  /** In every interleaving: a finished update that got past its checks was about the one record its patch asks for. It
      answered `Unchanged`, with no reply awaited, exactly when every field of the patch already had its value; and when it
      answered `Applied`, the target is that record but for what a reply states, and the differing fields are reported in
      order. */
  lemma FinishedUpdatesDoWhatIsAsked(w: World, events: seq<Event>, c: nat) returns (wanted: BreakpointRecord)
    requires Initial(w)
    requires c in Run(w, events).calls && Run(w, events).calls[c].Finished?
    requires c in Traced(w, events).logs && Traced(w, events).logs[c].UpdateDone? && Traced(w, events).logs[c].answer.Ended?
    ensures var log := Traced(w, events).logs[c];
            var target := Find(log.stores.before, log.patch.breakpointId);
            && target.Some? && Asked(log.patch, target.value, wanted)
            && AnswersTo(log.patch, target.value, wanted, log.replies, log.answer.result)
  {
    FinishedUpdatesEndAsIfAlone(w, events, c);
    var log := Traced(w, events).logs[c];
    wanted := EndedUpdateIsAsked(log, Find(log.stores.before, log.patch.breakpointId).value, log.answer.result);
  }

  ghost predicate AnswersTo(patch: Patch, target: BreakpointRecord, wanted: BreakpointRecord, replies: seq<Reply>, result: UpdateResult)
  {
    && (result.Unchanged? <==> AlreadyThere(patch, target)) && (result.Unchanged? ==> replies == [])
    && (result.Applied? ==>
          (exists response :: Answered(result.current, wanted, response)) && Reports(result.changed, target, result.current, 0, 7))
  }

  lemma EndedUpdateIsAsked(log: Log, target: BreakpointRecord, result: UpdateResult) returns (wanted: BreakpointRecord)
    requires log.UpdateDone? && UniqueIds(log.stores.last) && Find(log.stores.before, log.patch.breakpointId) == Some(target)
    requires EndsAsIfAlone(log.patch, target, log.stores, log.replies, result)
    ensures Asked(log.patch, target, wanted) && AnswersTo(log.patch, target, wanted, log.replies, result)
  {
    var alone := AdapterState(log.stores.held, log.replies, []);
    TargetIsStillThere(log.stores, target, log.patch);
    wanted := UpdateDoesWhatIsAsked(alone, log.stores.last, target, log.patch);
  }

  lemma TargetIsStillThere(s: Stores, target: BreakpointRecord, patch: Patch)
    requires target in s.before
    requires forall f | f in StateFiles(StatesOf(s.before, target, patch)) :: SourceList(s.last, f) == SourceList(s.before, f)
    ensures target in s.last
  {
    StatesOfFiles(s.before, target, patch);
    SourceListMembers(s.before, target.file);
    SourceListMembers(s.last, target.file);
  }
}
