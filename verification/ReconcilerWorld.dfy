/** Concurrent `update` and `withTemporaryBreakpoint` calls, interleaved at every `await`, over one local store and one
    adversarial debug adapter (src/sessions/BreakpointReconciler.ts): the steps, each being what one call does between two
    awaits, and the locks, which every step keeps in order. */
module ReconcilerWorld {
  import opened Basics
  import opened Breakpoints
  import opened Reconciler
  import opened Transactions
  import opened LockQueues

  // -------------------------------------------------------------------- the world

  /** Where a call stands, always at an `await`. */
  datatype Call =
    | Locking(patch: Patch, sources: seq<string>, held: nat)                        // update: awaiting `sources[held]`
    | Applying(target: BreakpointRecord, states: seq<SourceState>, applied: seq<Bucket>) // awaiting reply `|applied|`
    | Restoring(states: seq<SourceState>, next: nat)                                // awaiting rollback reply `next`
    | TemporaryLocking(file: string, temporary: BreakpointRecord)
    | Installing(file: string, original: Bucket, temporary: BreakpointRecord)
    | Running(file: string, original: Bucket, installed: Bucket)                    // awaiting the callback
    | Removing(file: string, original: Bucket, fallback: Bucket)                    // awaiting the restore
    | Finished

  /** `suspect` is a specification device: the sources whose last adapter call was not acknowledged. */
  datatype World = World(
    local: Bucket,
    adapter: map<string, Bucket>,
    suspect: set<string>,
    queues: Queues,
    calls: map<nat, Call>)

  datatype Event =
    | Update(call: nat, patch: Patch)
    | Temporary(call: nat, temporary: BreakpointRecord)
    | Granted(call: nat, canApply: bool)
    | Replied(call: nat, reply: Reply)
    | CallbackDone(call: nat, succeeds: bool)

  function AdapterList(w: World, file: string): (r: Bucket)
  {
    if file in w.adapter then w.adapter[file] else []
  }

  function StateSources(states: seq<SourceState>): (r: seq<string>)
    ensures |r| == |states|
    ensures forall i | 0 <= i < |r| :: r[i] == states[i].file
  {
    seq(|states|, i requires 0 <= i < |states| => states[i].file)
  }

  function HeldSources(call: Call): (r: seq<string>)
  {
    match call
    case Locking(_, sources, held) => if held <= |sources| then sources[..held] else sources
    case Applying(_, states, _) => StateSources(states)
    case Restoring(states, _) => StateSources(states)
    case TemporaryLocking(_, _) => []
    case Installing(file, _, _) => [file]
    case Running(file, _, _) => [file]
    case Removing(file, _, _) => [file]
    case Finished => []
  }

  function Elements(s: seq<string>): (r: set<string>)
    ensures forall x :: x in r <==> x in s
  {
    set x | x in s
  }

  function ViewOf(call: Call): (r: View)
  {
    View(Elements(HeldSources(call)),
         match call
         case Locking(_, sources, held) => if held < |sources| then Some(sources[held]) else None
         case TemporaryLocking(file, _) => Some(file)
         case _ => None)
  }

  function ViewsOf(calls: map<nat, Call>): (r: Views)
  {
    map c | c in calls :: ViewOf(calls[c])
  }

  /** The effect of an adapter reply to sending `records` for `file`. */
  function AfterReply(w: World, file: string, records: Bucket, reply: Reply): (r: World)
  {
    w.(adapter := if reply.applied || Acknowledges(reply, records) then w.adapter[file := records] else w.adapter,
       suspect := if Acknowledges(reply, records) then w.suspect - {file} else w.suspect + {file})
  }

  /** A call ends and its locks are released. */
  function Finish(w: World, c: nat): (r: World)
    requires c in w.calls
  {
    w.(queues := ReleasedAll(w.queues, HeldSources(w.calls[c])), calls := w.calls[c := Finished])
  }

  /** The top of the loop in `update`: read the target and queue for its first source. */
  function EnterUpdate(w: World, c: nat, patch: Patch): (r: World)
  {
    var target := Find(w.local, patch.breakpointId);
    if target.None? then w.(calls := w.calls[c := Finished])
    else
      var sources := AffectedSources(target.value, patch);
      w.(queues := Enqueued(w.queues, sources[0], c), calls := w.calls[c := Locking(patch, sources, 0)])
  }

  predicate OwnerAllowed(target: BreakpointRecord, patch: Patch)
  {
    var owner := if patch.owner.Some? then patch.owner.value else "agent";
    owner == "all" || target.owner == owner
  }

  /** All locks held: the rest of `update` up to its first adapter call. */
  function Locked(w: World, c: nat, patch: Patch, sources: seq<string>): (r: World)
    requires c in w.calls
  {
    var target := Find(w.local, patch.breakpointId);
    if target.None? then Finish(w, c)
    else if AffectedSources(target.value, patch) != sources then EnterUpdate(Finish(w, c), c, patch)
    else if !OwnerAllowed(target.value, patch) || Patched(target.value, patch) == target.value then Finish(w, c)
    else w.(calls := w.calls[c := Applying(target.value, SourceStates(w.local, target.value, Patched(target.value, patch), sources), [])])
  }

  function GrantStep(w: World, c: nat, canApply: bool): (r: World)
    requires c in w.calls
  {
    match w.calls[c]
    case Locking(patch, sources, held) =>
      if held < |sources| && sources[held] in w.queues && w.queues[sources[held]] != [] && w.queues[sources[held]][0] == c then
        var w1 := w.(calls := w.calls[c := Locking(patch, sources, held + 1)]);
        if held + 1 < |sources| then w1.(queues := Enqueued(w.queues, sources[held + 1], c))
        else Locked(w1, c, patch, sources)
      else w
    case TemporaryLocking(file, temporary) =>
      if file in w.queues && w.queues[file] != [] && w.queues[file][0] == c then
        var w1 := w.(calls := w.calls[c := Installing(file, SourceList(w.local, file), temporary)]);
        if canApply then w1 else Finish(w1, c)
      else w
    case _ => w
  }

  /** The last acknowledgement of an update: commit, or start the rollback if the store refuses. */
  ghost function Commit(w: World, c: nat, target: BreakpointRecord, states: seq<SourceState>, applied: seq<Bucket>): (r: World)
    requires c in w.calls && |applied| == |states|
  {
    if !Admissible(w.local, Replacements(states, applied)) then w.(calls := w.calls[c := Restoring(states, 0)])
    else
      var committed := w.(local := Replaced(w.local, Replacements(states, applied)));
      if Find(committed.local, target.id).None? then committed.(calls := w.calls[c := Restoring(states, 0)])
      else Finish(committed, c)
  }

  ghost function ApplyReply(w: World, c: nat, target: BreakpointRecord, states: seq<SourceState>, applied: seq<Bucket>, reply: Reply): (r: World)
    requires c in w.calls && |applied| < |states|
  {
    var state := states[|applied|];
    var w1 := AfterReply(w, state.file, state.desired, reply);
    if !Acknowledges(reply, state.desired) then w1.(calls := w.calls[c := Restoring(states, 0)])
    else
      var applied' := applied + [Project(state.desired, reply.evidence.value)];
      if |applied'| < |states| then w1.(calls := w.calls[c := Applying(target, states, applied')])
      else Commit(w1, c, target, states, applied')
  }

  ghost function RestoreReply(w: World, c: nat, states: seq<SourceState>, next: nat, reply: Reply): (r: World)
    requires c in w.calls && next < |states|
  {
    var w1 := AfterReply(w, states[next].file, states[next].original, reply);
    if next + 1 < |states| then w1.(calls := w.calls[c := Restoring(states, next + 1)]) else Finish(w1, c)
  }

  ghost function InstallReply(w: World, c: nat, file: string, original: Bucket, temporary: BreakpointRecord, reply: Reply): (r: World)
    requires c in w.calls
  {
    var desired := original + [temporary];
    var w1 := AfterReply(w, file, desired, reply);
    if !Acknowledges(reply, desired) then w1.(calls := w.calls[c := Removing(file, original, desired)])
    else
      var applied := Project(desired, reply.evidence.value);
      if Admissible(w.local, One(file, applied))
      then w1.(local := Replaced(w.local, One(file, applied)), calls := w.calls[c := Running(file, original, applied)])
      else w1.(calls := w.calls[c := Removing(file, original, applied)])
  }

  ghost function RemoveReply(w: World, c: nat, file: string, original: Bucket, fallback: Bucket, reply: Reply): (r: World)
    requires c in w.calls
  {
    var w1 := AfterReply(w, file, original, reply);
    if Acknowledges(reply, original) && Admissible(w.local, One(file, Project(original, reply.evidence.value)))
    then Finish(w1.(local := Replaced(w.local, One(file, Project(original, reply.evidence.value)))), c)
    else if Admissible(w.local, One(file, fallback)) then Finish(w1.(local := Replaced(w.local, One(file, fallback))), c)
    else Finish(w1, c)
  }

  /** One step; an event that is not enabled changes nothing. */
  ghost function Step(w: World, event: Event): (r: World)
  {
    match event
    case Update(c, patch) => if c in w.calls then w else EnterUpdate(w, c, patch)
    case Temporary(c, temporary) =>
      if c in w.calls then w
      else w.(queues := Enqueued(w.queues, temporary.file, c), calls := w.calls[c := TemporaryLocking(temporary.file, temporary)])
    case Granted(c, canApply) => if c in w.calls then GrantStep(w, c, canApply) else w
    case Replied(c, reply) =>
      if c !in w.calls then w
      else (match w.calls[c]
            case Applying(target, states, applied) => if |applied| < |states| then ApplyReply(w, c, target, states, applied, reply) else w
            case Restoring(states, next) => if next < |states| then RestoreReply(w, c, states, next, reply) else w
            case Installing(file, original, temporary) => InstallReply(w, c, file, original, temporary, reply)
            case Removing(file, original, fallback) => RemoveReply(w, c, file, original, fallback, reply)
            case _ => w)
    case CallbackDone(c, _) =>
      if c in w.calls && w.calls[c].Running?
      then w.(calls := w.calls[c := Removing(w.calls[c].file, w.calls[c].original, w.calls[c].installed)])
      else w
  }

  ghost function Run(w: World, events: seq<Event>): (r: World)
  {
    if events == [] then w else Step(Run(w, events[..|events| - 1]), events[|events| - 1])
  }

  // ------------------------------------------------------- invariant: the locks

  ghost predicate SortedSources(sources: seq<string>)
  {
    forall i, j | 0 <= i < j < |sources| :: Less(sources[i], sources[j]) && sources[i] != sources[j]
  }

  ghost predicate WellShaped(call: Call)
  {
    match call
    case Locking(_, sources, held) => SortedSources(sources) && held < |sources|
    case TemporaryLocking(file, temporary) => temporary.file == file
    case _ => Distinct(HeldSources(call))
  }

  ghost predicate LocksOk(q: Queues, calls: map<nat, Call>)
  {
    LockInv(q, ViewsOf(calls)) && AllWellShaped(calls)
  }

  ghost predicate AllWellShaped(calls: map<nat, Call>)
  {
    forall c | c in calls :: WellShaped(calls[c])
  }

  ghost predicate LocksInv(w: World)
  {
    LocksOk(w.queues, w.calls)
  }

  lemma ViewsUpdate(calls: map<nat, Call>, c: nat, call: Call)
    ensures ViewsOf(calls[c := call]) == ViewsOf(calls)[c := ViewOf(call)]
  {
  }

  lemma FinishKeepsLocks(q: Queues, calls: map<nat, Call>, c: nat)
    requires LockInv(q, ViewsOf(calls)) && c in calls
    requires forall d | d in calls && d != c :: WellShaped(calls[d])
    requires Distinct(HeldSources(calls[c])) && ViewOf(calls[c]).waits.None?
    ensures LocksOk(ReleasedAll(q, HeldSources(calls[c])), calls[c := Finished])
  {
    ViewsUpdate(calls, c, Finished);
    assert ViewOf(Finished) == View({}, None);
    ReleaseAllKeepsLockInv(q, ViewsOf(calls), c, HeldSources(calls[c]));
  }

  lemma NewFinished(q: Queues, calls: map<nat, Call>, c: nat)
    requires LocksOk(q, calls) && (c in calls ==> calls[c].Finished?)
    ensures LocksOk(q, calls[c := Finished])
  {
    if c in calls {
      assert calls[c := Finished] == calls;
    } else {
      ViewsUpdate(calls, c, Finished);
      assert ViewOf(Finished) == View({}, None);
      IdleKeepsLockInv(q, ViewsOf(calls), c);
    }
  }

  lemma NewWaiting(q: Queues, calls: map<nat, Call>, c: nat, next: Call, source: string)
    requires LocksOk(q, calls) && (c in calls ==> calls[c].Finished?)
    requires WellShaped(next) && ViewOf(next) == View({}, Some(source))
    ensures LocksOk(Enqueued(q, source, c), calls[c := next])
  {
    var v := ViewsOf(calls);
    ViewsUpdate(calls, c, next);
    assert ViewOf(Finished) == View({}, None);
    assert c in v ==> v[c] == View({}, None);
    EnqueueKeepsLockInv(q, v, c, source);
    WellShapedUpdate(calls, c, next);
  }

  lemma WellShapedUpdate(calls: map<nat, Call>, c: nat, next: Call)
    requires (forall d | d in calls && d != c :: WellShaped(calls[d])) && WellShaped(next)
    ensures AllWellShaped(calls[c := next])
  {
  }

  lemma EnterUpdateKeepsLocks(w: World, c: nat, patch: Patch)
    requires LocksInv(w) && (c in w.calls ==> w.calls[c].Finished?)
    ensures LocksInv(EnterUpdate(w, c, patch))
  {
    var target := Find(w.local, patch.breakpointId);
    if target.None? {
      NewFinished(w.queues, w.calls, c);
    } else {
      var sources := AffectedSources(target.value, patch);
      AffectedSourcesAreSorted(target.value, patch);
      assert HeldSources(Locking(patch, sources, 0)) == [];
      NewWaiting(w.queues, w.calls, c, Locking(patch, sources, 0), sources[0]);
    }
  }

  lemma SameViewOk(q: Queues, calls: map<nat, Call>, c: nat, next: Call)
    requires LockInv(q, ViewsOf(calls)) && c in calls && ViewOf(next) == ViewOf(calls[c]) && WellShaped(next)
    requires forall d | d in calls && d != c :: WellShaped(calls[d])
    ensures LocksOk(q, calls[c := next])
  {
    ViewsUpdate(calls, c, next);
    assert ViewsOf(calls)[c := ViewOf(next)] == ViewsOf(calls);
  }

  /** The last source is granted: the update goes on with all its sources held. */
  lemma AllHeldKeepsLocks(w: World, c: nat, patch: Patch, sources: seq<string>, next: Call)
    requires LockInv(w.queues, ViewsOf(w.calls)) && c in w.calls && w.calls[c] == Locking(patch, sources, |sources|)
    requires forall d | d in w.calls && d != c :: WellShaped(w.calls[d])
    requires SortedSources(sources) && next.Applying? && StateSources(next.states) == sources
    ensures LocksOk(w.queues, w.calls[c := next])
  {
    assert HeldSources(w.calls[c]) == sources == HeldSources(next);
    SameViewOk(w.queues, w.calls, c, next);
  }

  lemma AllHeldMayFinish(w: World, c: nat, patch: Patch, sources: seq<string>)
    requires LockInv(w.queues, ViewsOf(w.calls)) && c in w.calls && w.calls[c] == Locking(patch, sources, |sources|)
    requires SortedSources(sources)
    requires forall d | d in w.calls && d != c :: WellShaped(w.calls[d])
    ensures LocksInv(Finish(w, c))
  {
    assert HeldSources(w.calls[c]) == sources;
    FinishKeepsLocks(w.queues, w.calls, c);
  }

  lemma LockedKeepsLocks(w: World, c: nat, patch: Patch, sources: seq<string>)
    requires LockInv(w.queues, ViewsOf(w.calls)) && c in w.calls && w.calls[c] == Locking(patch, sources, |sources|)
    requires SortedSources(sources)
    requires forall d | d in w.calls && d != c :: WellShaped(w.calls[d])
    ensures LocksInv(Locked(w, c, patch, sources))
  {
    var target := Find(w.local, patch.breakpointId);
    if target.None? {
      AllHeldMayFinish(w, c, patch, sources);
    } else if AffectedSources(target.value, patch) != sources {
      AllHeldMayFinish(w, c, patch, sources);
      EnterUpdateKeepsLocks(Finish(w, c), c, patch);
    } else if !OwnerAllowed(target.value, patch) || Patched(target.value, patch) == target.value {
      AllHeldMayFinish(w, c, patch, sources);
    } else {
      var states := SourceStates(w.local, target.value, Patched(target.value, patch), sources);
      assert StateSources(states) == sources;
      AllHeldKeepsLocks(w, c, patch, sources, Applying(target.value, states, []));
    }
  }

  lemma TemporaryGranted(q: Queues, calls: map<nat, Call>, c: nat, next: Call)
    requires LocksOk(q, calls) && c in calls && calls[c].TemporaryLocking? && next.Installing? && next.file == calls[c].file
    requires calls[c].file in q && q[calls[c].file] != [] && q[calls[c].file][0] == c
    ensures LocksOk(q, calls[c := next])
  {
    var v := ViewsOf(calls);
    assert HeldSources(next) == [next.file] && HeldSources(calls[c]) == [];
    assert v[c] == View({}, Some(next.file));
    GrantKeepsLockInv(q, v, c);
    ViewsUpdate(calls, c, next);
    assert ViewOf(next) == View({} + {next.file}, None);
    WellShapedUpdate(calls, c, next);
  }

  lemma TemporaryGrantKeepsLocks(w: World, c: nat, canApply: bool)
    requires LocksInv(w) && c in w.calls && w.calls[c].TemporaryLocking?
    ensures LocksInv(GrantStep(w, c, canApply))
  {
    var file := w.calls[c].file;
    if file in w.queues && w.queues[file] != [] && w.queues[file][0] == c {
      var next := Installing(file, SourceList(w.local, file), w.calls[c].temporary);
      TemporaryGranted(w.queues, w.calls, c, next);
      if !canApply {
        FinishKeepsLocks(w.queues, w.calls[c := next], c);
      }
    }
  }

  lemma UpdateGrantKeepsLocks(w: World, c: nat, canApply: bool)
    requires LocksInv(w) && c in w.calls && w.calls[c].Locking?
    ensures LocksInv(GrantStep(w, c, canApply))
  {
    var Locking(patch, sources, held) := w.calls[c];
    if GrantStep(w, c, canApply) != w {
      GrantKeepsLockInv(w.queues, ViewsOf(w.calls), c);
      GrantedView(w.queues, w.calls, c, patch, sources, held);
      if held + 1 < |sources| {
        NextLock(w, c, patch, sources, held);
      } else {
        LockedKeepsLocks(w.(calls := w.calls[c := Locking(patch, sources, held + 1)]), c, patch, sources);
      }
    }
  }

  /** After a grant the call holds one source more; what it waits for next is accounted for separately. */
  lemma GrantedView(q: Queues, calls: map<nat, Call>, c: nat, patch: Patch, sources: seq<string>, held: nat)
    requires c in calls && calls[c] == Locking(patch, sources, held) && held < |sources|
    ensures ViewOf(calls[c]).waits == Some(sources[held])
    ensures ViewOf(Locking(patch, sources, held + 1)).held == ViewOf(calls[c]).held + {sources[held]}
    ensures held + 1 == |sources| ==>
              ViewsOf(calls[c := Locking(patch, sources, held + 1)]) == ViewsOf(calls)[c := View(ViewOf(calls[c]).held + {sources[held]}, None)]
  {
    assert sources[..held + 1] == sources[..held] + [sources[held]];
    assert HeldSources(Locking(patch, sources, held + 1)) == sources[..held] + [sources[held]];
    assert HeldSources(calls[c]) == sources[..held];
    ElementsOfAppend(sources[..held], sources[held]);
    ViewsUpdate(calls, c, Locking(patch, sources, held + 1));
  }

  lemma ElementsOfAppend(a: seq<string>, x: string)
    ensures Elements(a + [x]) == Elements(a) + {x}
  {
    assert (a + [x])[|a|] == x;
  }

  lemma NextLock(w: World, c: nat, patch: Patch, sources: seq<string>, held: nat)
    requires LocksInv(w) && c in w.calls && w.calls[c] == Locking(patch, sources, held) && held + 1 < |sources|
    requires LockInv(w.queues, ViewsOf(w.calls)[c := View(ViewOf(w.calls[c]).held + {sources[held]}, None)])
    ensures LocksInv(w.(queues := Enqueued(w.queues, sources[held + 1], c), calls := w.calls[c := Locking(patch, sources, held + 1)]))
  {
    var next := Locking(patch, sources, held + 1);
    var v := ViewsOf(w.calls)[c := View(ViewOf(w.calls[c]).held + {sources[held]}, None)];
    assert WellShaped(w.calls[c]);
    GrantedView(w.queues, w.calls, c, patch, sources, held);
    NextIsBeyondHeld(w.calls[c], sources, held);
    EnqueueKeepsLockInv(w.queues, v, c, sources[held + 1]);
    ViewsUpdate(w.calls, c, next);
    assert ViewOf(next) == View(v[c].held, Some(sources[held + 1]));
    OverwrittenView(ViewsOf(w.calls), c, v[c], ViewOf(next));
  }

  lemma OverwrittenView(v: Views, c: nat, first: View, second: View)
    ensures v[c := first][c := second] == v[c := second]
  {
  }

  /** Locks are taken in sorted order, so the next one is beyond every one held. */
  lemma NextIsBeyondHeld(call: Call, sources: seq<string>, held: nat)
    requires call.Locking? && call.sources == sources && call.held == held && held + 1 < |sources| && SortedSources(sources)
    ensures forall s | s in ViewOf(call).held + {sources[held]} :: Less(s, sources[held + 1])
  {
    forall s | s in ViewOf(call).held + {sources[held]} ensures Less(s, sources[held + 1]) {
      if s != sources[held] {
        var i :| 0 <= i < held && sources[i] == s;
      }
    }
  }

  lemma CommitEffect(w: World, c: nat, target: BreakpointRecord, states: seq<SourceState>, applied: seq<Bucket>)
    requires c in w.calls && |applied| == |states|
    ensures var w' := Commit(w, c, target, states, applied);
            || (w'.queues == w.queues && w'.calls == w.calls[c := Restoring(states, 0)])
            || (w'.queues == ReleasedAll(w.queues, HeldSources(w.calls[c])) && w'.calls == w.calls[c := Finished])
  {
  }

  lemma CommitKeepsLocks(w: World, c: nat, target: BreakpointRecord, states: seq<SourceState>, applied: seq<Bucket>)
    requires LocksInv(w) && c in w.calls && |applied| == |states|
    requires HeldSources(w.calls[c]) == StateSources(states) && ViewOf(w.calls[c]).waits.None? && WellShaped(w.calls[c])
    requires Distinct(StateSources(states))
    ensures LocksInv(Commit(w, c, target, states, applied))
  {
    CommitEffect(w, c, target, states, applied);
    if Commit(w, c, target, states, applied).calls == w.calls[c := Finished] {
      FinishKeepsLocks(w.queues, w.calls, c);
    }
    SameViewOk(w.queues, w.calls, c, Restoring(states, 0));
  }

  lemma ApplyReplyKeepsLocks(w: World, c: nat, target: BreakpointRecord, states: seq<SourceState>, applied: seq<Bucket>, reply: Reply)
    requires LocksInv(w) && c in w.calls && w.calls[c] == Applying(target, states, applied) && |applied| < |states|
    ensures LocksInv(ApplyReply(w, c, target, states, applied, reply))
  {
    assert WellShaped(w.calls[c]);
    SameViewOk(w.queues, w.calls, c, Restoring(states, 0));
    if Acknowledges(reply, states[|applied|].desired) {
      var applied' := applied + [Project(states[|applied|].desired, reply.evidence.value)];
      SameViewOk(w.queues, w.calls, c, Applying(target, states, applied'));
      if |applied'| == |states| {
        CommitKeepsLocks(AfterReply(w, states[|applied|].file, states[|applied|].desired, reply), c, target, states, applied');
      }
    }
  }

  lemma InstallReplyEffect(w: World, c: nat, file: string, original: Bucket, temporary: BreakpointRecord, reply: Reply)
    requires c in w.calls
    ensures var w' := InstallReply(w, c, file, original, temporary, reply);
            && w'.queues == w.queues && c in w'.calls && w'.calls == w.calls[c := w'.calls[c]]
            && (w'.calls[c].Running? || w'.calls[c].Removing?) && w'.calls[c].file == file
  {
  }

  lemma SameFileKeepsLocks(q: Queues, calls: map<nat, Call>, c: nat, next: Call)
    requires LocksOk(q, calls) && c in calls && (calls[c].Installing? || calls[c].Running?)
    requires (next.Running? || next.Removing?) && next.file == calls[c].file
    ensures LocksOk(q, calls[c := next])
  {
    assert ViewOf(next) == ViewOf(calls[c]);
    SameViewOk(q, calls, c, next);
  }

  lemma InstallReplyKeepsLocks(w: World, c: nat, file: string, original: Bucket, temporary: BreakpointRecord, reply: Reply)
    requires LocksInv(w) && c in w.calls && w.calls[c] == Installing(file, original, temporary)
    ensures LocksInv(InstallReply(w, c, file, original, temporary, reply))
  {
    InstallReplyEffect(w, c, file, original, temporary, reply);
    SameFileKeepsLocks(w.queues, w.calls, c, InstallReply(w, c, file, original, temporary, reply).calls[c]);
  }

  lemma RemoveReplyEffect(w: World, c: nat, file: string, original: Bucket, fallback: Bucket, reply: Reply)
    requires c in w.calls
    ensures var w' := RemoveReply(w, c, file, original, fallback, reply);
            w'.queues == ReleasedAll(w.queues, HeldSources(w.calls[c])) && w'.calls == w.calls[c := Finished]
  {
  }

  lemma RestoreReplyKeepsLocks(w: World, c: nat, states: seq<SourceState>, next: nat, reply: Reply)
    requires LocksInv(w) && c in w.calls && w.calls[c] == Restoring(states, next) && next < |states|
    ensures LocksInv(RestoreReply(w, c, states, next, reply))
  {
    assert WellShaped(w.calls[c]);
    if next + 1 < |states| {
      SameViewOk(w.queues, w.calls, c, Restoring(states, next + 1));
    } else {
      FinishKeepsLocks(w.queues, w.calls, c);
    }
  }

  lemma RemoveReplyKeepsLocks(w: World, c: nat, file: string, original: Bucket, fallback: Bucket, reply: Reply)
    requires LocksInv(w) && c in w.calls && w.calls[c] == Removing(file, original, fallback)
    ensures LocksInv(RemoveReply(w, c, file, original, fallback, reply))
  {
    RemoveReplyEffect(w, c, file, original, fallback, reply);
    assert HeldSources(w.calls[c]) == [file];
    FinishKeepsLocks(w.queues, w.calls, c);
  }

  lemma UpdateReplyKeepsLocks(w: World, c: nat, reply: Reply)
    requires LocksInv(w) && c in w.calls && (w.calls[c].Applying? || w.calls[c].Restoring?)
    ensures LocksInv(Step(w, Replied(c, reply)))
  {
    if w.calls[c].Applying? {
      var Applying(target, states, applied) := w.calls[c];
      if |applied| < |states| { ApplyReplyKeepsLocks(w, c, target, states, applied, reply); }
    } else {
      var Restoring(states, next) := w.calls[c];
      if next < |states| { RestoreReplyKeepsLocks(w, c, states, next, reply); }
    }
  }

  lemma ReplyKeepsLocks(w: World, c: nat, reply: Reply)
    requires LocksInv(w) && c in w.calls
    ensures LocksInv(Step(w, Replied(c, reply)))
  {
    match w.calls[c] {
      case Applying(_, _, _) => UpdateReplyKeepsLocks(w, c, reply);
      case Restoring(_, _) => UpdateReplyKeepsLocks(w, c, reply);
      case Installing(file, original, temporary) => InstallReplyKeepsLocks(w, c, file, original, temporary, reply);
      case Removing(file, original, fallback) => RemoveReplyKeepsLocks(w, c, file, original, fallback, reply);
      case _ =>
    }
  }

  lemma StepKeepsLocks(w: World, event: Event)
    requires LocksInv(w)
    ensures LocksInv(Step(w, event))
  {
    match event {
      case Update(c, patch) =>
        if c !in w.calls {
          EnterUpdateKeepsLocks(w, c, patch);
        }
      case Temporary(c, temporary) =>
        if c !in w.calls {
          var next := TemporaryLocking(temporary.file, temporary);
          assert HeldSources(next) == [];
          NewWaiting(w.queues, w.calls, c, next, temporary.file);
        }
      case Granted(c, canApply) =>
        if c in w.calls {
          if w.calls[c].Locking? {
            UpdateGrantKeepsLocks(w, c, canApply);
          } else if w.calls[c].TemporaryLocking? {
            TemporaryGrantKeepsLocks(w, c, canApply);
          }
        }
      case Replied(c, reply) =>
        if c in w.calls {
          ReplyKeepsLocks(w, c, reply);
        }
      case CallbackDone(c, _) =>
        if c in w.calls && w.calls[c].Running? {
          var next := Removing(w.calls[c].file, w.calls[c].original, w.calls[c].installed);
          SameFileKeepsLocks(w.queues, w.calls, c, next);
        }
    }
  }
}
