/** How a temporary breakpoint ends among many interleaved reconciler calls (src/sessions/BreakpointReconciler.ts): no
    interleaving makes it leak silently, as long as its id is fresh and no record of its source has an empty id. */
module TemporaryAnswers {
  import opened Basics
  import opened Breakpoints
  import opened Reconciler
  import opened Transactions
  import opened LockQueues
  import opened ReconcilerWorld
  import opened ReconcilerRuns
  import opened ReconcilerAnswers

  // -------------------------------------------------------------------- fresh ids

  ghost predicate Unused(local: Bucket, id: string)
  {
    id !in IdSet(local)
  }

  ghost predicate NowhereElse(local: Bucket, id: string, file: string)
  {
    forall r | r in local && r.id == id :: r.file == file
  }

  lemma UnusedMeansNone(local: Bucket, id: string)
    ensures Unused(local, id) <==> forall r | r in local :: r.id != id
    ensures Unused(local, id) <==> !HasId(local, id)
  {
    IdSetMembers(local);
    if i :| 0 <= i < |local| && local[i].id == id {
      assert local[i] in local;
    }
  }

  predicate IsTemporary(log: Log)
  {
    log.TemporaryWaits? || log.TemporaryRuns? || log.TemporaryDone?
  }

  /** The ids the store began with and those of the temporary breakpoints asked for so far. */
  ghost function KnownIds(w: World, events: seq<Event>): (r: set<string>)
  {
    if events == [] then IdSet(w.local)
    else
      var known, last := KnownIds(w, events[..|events| - 1]), events[|events| - 1];
      if last.Temporary? then known + {last.temporary.id} else known
  }

  /** Every temporary breakpoint gets a nonempty id that nothing had before, as generated ids are. */
  ghost predicate FreshRun(w: World, events: seq<Event>)
  {
    events == [] ||
      var before, last := events[..|events| - 1], events[|events| - 1];
      FreshRun(w, before) && (last.Temporary? ==> last.temporary.id != "" && last.temporary.id !in KnownIds(w, before))
  }

  // --------------------------------------------------------- how it must end

  /** The answer of a temporary breakpoint by its two replies and the callback. */
  function ResultOf(original: Bucket, temporary: BreakpointRecord, install: Reply, restore: Reply, callback: bool): (r: TemporaryResult)
  {
    if !Acknowledges(restore, original) then CleanupFailed
    else if !Acknowledges(install, original + [temporary]) then InstallFailed
    else if callback then Completed
    else CallbackFailed
  }

  /** The original list is back on both sides, or the error is the cleanup error and the temporary record is still in the
      local list, or nothing was done; and which of these, by the replies and the callback alone. */
  ghost predicate TemporaryEnded(log: Log)
    requires log.TemporaryDone?
  {
    var s, t := log.stores, log.temporary;
    var original, here := SourceList(s.before, t.file), AdapterState(s.held, [], []);
    NoEmptyId(original) ==>
      && NoSilentLeak(here, s.before, t.file, t, here, s.local, log.result)
      && (if log.result.Refused? then log.replies == []
          else |log.replies| == 2 && log.result == ResultOf(original, t, log.replies[0], log.replies[1], log.callback))
  }

  // ------------------------------------------------------------- invariant: the logs

  /** The call has its lock: what its source held then. */
  ghost predicate Started(log: Log, file: string, original: Bucket)
  {
    && log.TemporaryRuns? && log.temporary.file == file
    && UniqueIds(log.before) && Unused(log.before, log.temporary.id) && original == SourceList(log.before, file)
  }

  /** The install was answered: the list to fall back on. */
  ghost predicate Answered(log: Log, original: Bucket, fallback: Bucket)
    requires log.TemporaryRuns?
  {
    var desired := original + [log.temporary];
    && |log.replies| == 1
    && fallback == (if Acknowledges(log.replies[0], desired) then Project(desired, log.replies[0].evidence.value) else desired)
    && (log.committed ==> Acknowledges(log.replies[0], desired))
    && (Acknowledges(log.replies[0], desired) && NoEmptyId(original) ==> log.committed)
  }

  ghost predicate TemporaryLogOk(w: World, call: Call, log: Log)
  {
    match call
    case TemporaryLocking(file, temporary) => log == TemporaryWaits(temporary) && Unused(w.local, temporary.id)
    case Installing(file, original, temporary) =>
      && Started(log, file, original) && log.temporary == temporary && log.replies == [] && !log.committed
      && Unused(w.local, temporary.id)
    case Running(file, original, installed) =>
      && Started(log, file, original) && Answered(log, original, installed) && log.committed
      && NowhereElse(w.local, log.temporary.id, file)
    case Removing(file, original, fallback) =>
      && Started(log, file, original) && Answered(log, original, fallback)
      && SourceList(w.local, file) == (if log.committed then fallback else original)
      && NowhereElse(w.local, log.temporary.id, file)
    case Finished => log.TemporaryDone? ==> TemporaryEnded(log)
    case _ => !IsTemporary(log)
  }

  ghost predicate TemporaryLogsOk(w: World, logs: map<nat, Log>)
  {
    forall c | c in w.calls :: c in logs && TemporaryLogOk(w, w.calls[c], logs[c])
  }

  ghost predicate KnownTemporary(log: Log, known: set<string>)
  {
    IsTemporary(log) ==> log.temporary.id in known && log.temporary.id != ""
  }

  ghost predicate IdsOk(w: World, logs: map<nat, Log>, known: set<string>)
  {
    && IdSet(w.local) <= known
    && (forall c | c in logs :: c in w.calls && KnownTemporary(logs[c], known))
    && (forall c, d | c in logs && d in logs && IsTemporary(logs[c]) && IsTemporary(logs[d]) && logs[c].temporary.id == logs[d].temporary.id :: c == d)
  }

  // ---------------------------------------------------------- where ids can come from

  /** The record's id was there before, in the same source or in one the call owns along with it. */
  ghost predicate CameFrom(local: Bucket, owned: set<string>, r: BreakpointRecord)
  {
    exists before :: before in local && before.id == r.id && (before.file == r.file || (before.file in owned && r.file in owned))
  }

  /** Every record of the new store with this id came from the old one. */
  ghost predicate Preserved(local: Bucket, local': Bucket, owned: set<string>, id: string)
  {
    forall r | r in local' && r.id == id :: CameFrom(local, owned, r)
  }

  lemma SameIsPreserved(local: Bucket, owned: set<string>, id: string)
    ensures Preserved(local, local, owned, id)
  {
  }

  lemma UnusedStays(local: Bucket, local': Bucket, owned: set<string>, id: string)
    requires Unused(local, id) && Preserved(local, local', owned, id)
    ensures Unused(local', id)
  {
    UnusedMeansNone(local, id);
    UnusedMeansNone(local', id);
    forall r | r in local' ensures r.id != id {
      assert r.id == id ==> CameFrom(local, owned, r);
    }
  }

  lemma NowhereElseStays(local: Bucket, local': Bucket, owned: set<string>, id: string, file: string)
    requires NowhereElse(local, id, file) && Preserved(local, local', owned, id) && file !in owned
    ensures NowhereElse(local', id, file)
  {
    forall r | r in local' && r.id == id ensures r.file == file {
      assert CameFrom(local, owned, r);
    }
  }

  /** Replacing one source by a list whose ids are the source's own, but for one. */
  lemma OneSourceIds(local: Bucket, local': Bucket, file: string, list: Bucket, extra: string, id: string)
    requires SourceList(local', file) == list && forall f | f != file :: SourceList(local', f) == SourceList(local, f)
    requires IdSet(list) <= IdSet(SourceList(local, file)) + {extra} && id != extra
    ensures Preserved(local, local', {file}, id)
  {
    forall r | r in local' && r.id == id ensures CameFrom(local, {file}, r) {
      SourceListMembers(local', r.file);
      SourceListMembers(local, r.file);
      if r.file == file {
        IdSetMembers(list);
        IdSetMembers(SourceList(local, file));
        assert r in list && r.id in IdSet(SourceList(local, file));
      } else {
        assert r in local;
      }
    }
  }

  lemma CommitIds(w: World, w1: World, call: Call, states: seq<SourceState>, applied: seq<Bucket>, requested: BreakpointRecord, id: string)
    requires (call.Applying? || call.Restoring?) && call.states == states
    requires w1.local == w.local && StatesInv(w, states) && |applied| == |states|
    requires forall i | 0 <= i < |states| :: AppliedInv(w1, states[i], applied[i])
    requires Plan(w.local, requested, states)
    ensures Preserved(w.local, Replaced(w.local, Replacements(states, applied)), Owned(call), id)
  {
    var local' := Replaced(w.local, Replacements(states, applied));
    StatesInvFrame(w, w1, states);
    CommitInstallsApplied(w1, states, applied);
    forall r | r in local' && r.id == id ensures CameFrom(w.local, Owned(call), r) {
      SourceListMembers(local', r.file);
      SourceListMembers(w.local, r.file);
      if i :| 0 <= i < |states| && states[i].file == r.file {
        OwnsState(call, states, i);
        assert AppliedInv(w1, states[i], applied[i]) && r in applied[i];
        CommittedIdWasThere(w.local, call, states, i, applied[i], r);
      }
    }
  }

  lemma CommittedIdWasThere(local: Bucket, call: Call, states: seq<SourceState>, i: nat, applied: Bucket, r: BreakpointRecord)
    requires (call.Applying? || call.Restoring?) && call.states == states && i < |states| && r.file in Owned(call)
    requires Agree(applied, states[i].desired) && r in applied
    requires AllIds(DesiredLists(states)) == AllIds(OriginalLists(states))
    requires forall j | 0 <= j < |states| :: states[j].original == SourceList(local, states[j].file)
    ensures CameFrom(local, Owned(call), r)
  {
    var k :| 0 <= k < |applied| && applied[k] == r;
    assert SameBreakpoint(applied[k], states[i].desired[k]);
    assert r.id in IdSet(DesiredLists(states)[i]);
    AllIdsMembers(DesiredLists(states));
    AllIdsMembers(OriginalLists(states));
    var j :| 0 <= j < |states| && r.id in IdSet(OriginalLists(states)[j]);
    IdSetMembers(states[j].original);
    SourceListMembers(local, states[j].file);
    OwnsState(call, states, j);
    var before :| before in states[j].original && before.id == r.id;
    assert before in local && before.file == states[j].file;
  }

  function OwnedBy(w: World, c: nat): (r: set<string>)
  {
    if c in w.calls then Owned(w.calls[c]) else {}
  }

  lemma ApplyIds(w: World, c: nat, reply: Reply, log: Log, id: string)
    requires DataInv(w) && c in w.calls && w.calls[c].Applying? && UpdateLogOk(w, w.calls[c], log)
    ensures Preserved(w.local, Step(w, Replied(c, reply)).local, Owned(w.calls[c]), id)
  {
    var Applying(target, states, applied) := w.calls[c];
    assert CallInv(w, w.calls[c]);
    ApplyingReply(w, c, reply, log);
    var w' := ApplyReply(w, c, target, states, applied, reply);
    if w'.local == w.local {
      SameIsPreserved(w.local, Owned(w.calls[c]), id);
    } else {
      NoCommitBeforeLastReply(w, c, target, states, applied, reply);
      LastApplyIsCommit(w, c, target, states, applied, reply);
      LastApplyIds(w, c, target, states, applied, reply, log, id);
    }
  }

  lemma LastApplyIds(w: World, c: nat, target: BreakpointRecord, states: seq<SourceState>, applied: seq<Bucket>, reply: Reply, log: Log, id: string)
    requires DataInv(w) && c in w.calls && w.calls[c] == Applying(target, states, applied) && |applied| + 1 == |states|
    requires log.UpdateRuns? && ApplyingOk(log, target, states, applied) && Acknowledges(reply, states[|applied|].desired)
    ensures var w1 := AfterReply(w, states[|applied|].file, states[|applied|].desired, reply);
            var all := applied + [Project(states[|applied|].desired, reply.evidence.value)];
            Preserved(w.local, Commit(w1, c, target, states, all).local, Owned(w.calls[c]), id)
  {
    var k := |applied|;
    var w1 := AfterReply(w, states[k].file, states[k].desired, reply);
    var last := Project(states[k].desired, reply.evidence.value);
    assert CallInv(w, w.calls[c]);
    ReplyFrame(w, states[k].file, states[k].desired, reply);
    ProjectAgrees(states[k].desired, reply.evidence.value);
    AllAppliedAfterReply(w, w1, c, target, states, applied, last);
    CommittedTargetIsFound(w1, target, states, applied + [last]);
    CommitCases(w1, c, target, states, applied + [last]);
    OwnListsAreKept(w, log.before, log.patch, target, states);
    CommitIds(w, w1, w.calls[c], states, applied + [last], Patched(target, log.patch), id);
    SameIsPreserved(w.local, Owned(w.calls[c]), id);
  }

  /** The list with the temporary record adds its id and no other. */
  lemma IdsWithTemporary(original: Bucket, temporary: BreakpointRecord, list: Bucket)
    requires Agree(list, original + [temporary])
    ensures IdSet(list) == IdSet(original) + {temporary.id}
  {
    IdSetOfConcat(original, [temporary]);
    AgreeHasSameIds(list, original + [temporary]);
    assert [temporary][0].id == temporary.id;
  }

  lemma AgreeHasSameIds(a: Bucket, b: Bucket)
    requires Agree(a, b)
    ensures IdSet(a) == IdSet(b) && Ids(a) == Ids(b)
  {
    forall i | 0 <= i < |a| ensures a[i].id == b[i].id {
      assert SameBreakpoint(a[i], b[i]);
    }
    SameIdsSameSet(a, b);
  }

  lemma InstallLocal(w: World, c: nat, file: string, original: Bucket, temporary: BreakpointRecord, reply: Reply)
    requires c in w.calls
    ensures var desired := original + [temporary];
            var w' := InstallReply(w, c, file, original, temporary, reply);
            && c in w'.calls
            && (if !Acknowledges(reply, desired) then w'.local == w.local && w'.calls[c] == Removing(file, original, desired)
                else
                  var applied := Project(desired, reply.evidence.value);
                  if Admissible(w.local, One(file, applied))
                  then w'.local == Replaced(w.local, One(file, applied)) && w'.calls[c] == Running(file, original, applied)
                  else w'.local == w.local && w'.calls[c] == Removing(file, original, applied))
  {
  }

  lemma InstallIds(w: World, c: nat, file: string, original: Bucket, temporary: BreakpointRecord, reply: Reply, id: string)
    requires UniqueIds(w.local) && c in w.calls && temporary.file == file && original == SourceList(w.local, file) && id != temporary.id
    ensures Preserved(w.local, InstallReply(w, c, file, original, temporary, reply).local, {file}, id)
  {
    var desired := original + [temporary];
    InstallLocal(w, c, file, original, temporary, reply);
    SameIsPreserved(w.local, {file}, id);
    if Acknowledges(reply, desired) {
      var applied := Project(desired, reply.evidence.value);
      ProjectAgrees(desired, reply.evidence.value);
      DesiredIsOwnFile(w.local, file, temporary);
      EvidenceKeepsTheList(desired, applied, original, file);
      IdsWithTemporary(original, temporary, applied);
      if Admissible(w.local, One(file, applied)) {
        OneReplaced(w.local, file, applied);
        OneSourceIds(w.local, Replaced(w.local, One(file, applied)), file, applied, temporary.id, id);
      }
    }
  }

  lemma RestoredIds(local: Bucket, file: string, original: Bucket, restored: Bucket, extra: string, id: string)
    requires UniqueIds(local) && Admissible(local, One(file, restored)) && Agree(restored, original) && OwnFile(original, file)
    requires IdSet(original) <= IdSet(SourceList(local, file)) + {extra} && id != extra
    ensures Preserved(local, Replaced(local, One(file, restored)), {file}, id)
  {
    AgreeKeepsFileAndIds(restored, original, file);
    AgreeHasSameIds(restored, original);
    OneReplaced(local, file, restored);
    OneSourceIds(local, Replaced(local, One(file, restored)), file, restored, extra, id);
  }

  lemma RemoveIds(w: World, file: string, original: Bucket, fallback: Bucket, reply: Reply, extra: string, id: string)
    requires UniqueIds(w.local) && RemovingInv(w, file, original, fallback) && id != extra
    requires IdSet(fallback) == IdSet(original) + {extra}
    ensures Preserved(w.local, RemovedLocal(w, file, original, fallback, reply), {file}, id)
  {
    SameIsPreserved(w.local, {file}, id);
    if Acknowledges(reply, original) && Admissible(w.local, One(file, Project(original, reply.evidence.value))) {
      ProjectAgrees(original, reply.evidence.value);
      RestoredIds(w.local, file, original, Project(original, reply.evidence.value), extra, id);
    } else if Admissible(w.local, One(file, fallback)) {
      assert Agree(fallback, fallback);
      RestoredIds(w.local, file, fallback, fallback, extra, id);
    }
  }

  /** What a reply to a call that is removing its temporary breakpoint does. */
  lemma RemoveCases(w: World, c: nat, file: string, original: Bucket, fallback: Bucket, reply: Reply)
    requires c in w.calls
    ensures var w' := RemoveReply(w, c, file, original, fallback, reply);
            && c in w'.calls && w'.calls[c] == Finished && w'.local == RemovedLocal(w, file, original, fallback, reply)
            && w'.adapter == AfterReply(w, file, original, reply).adapter
  {
  }

  lemma AnsweredIds(log: Log, original: Bucket, fallback: Bucket)
    requires log.TemporaryRuns? && Answered(log, original, fallback)
    ensures Agree(fallback, original + [log.temporary]) && IdSet(fallback) == IdSet(original) + {log.temporary.id}
  {
    var desired := original + [log.temporary];
    if Acknowledges(log.replies[0], desired) {
      ProjectAgrees(desired, log.replies[0].evidence.value);
    } else {
      assert Agree(desired, desired);
    }
    IdsWithTemporary(original, log.temporary, fallback);
  }

  lemma TemporaryIds(w: World, c: nat, reply: Reply, log: Log, id: string)
    requires DataInv(w) && c in w.calls && (w.calls[c].Installing? || w.calls[c].Removing?) && TemporaryLogOk(w, w.calls[c], log)
    requires id != log.temporary.id
    ensures Preserved(w.local, Step(w, Replied(c, reply)).local, Owned(w.calls[c]), id)
  {
    assert CallInv(w, w.calls[c]);
    OwnsItsFile(w.calls[c], w.calls[c].file);
    if w.calls[c].Installing? {
      InstallIds(w, c, w.calls[c].file, w.calls[c].original, w.calls[c].temporary, reply, id);
    } else {
      var Removing(file, original, fallback) := w.calls[c];
      AnsweredIds(log, original, fallback);
      RemoveCases(w, c, file, original, fallback, reply);
      RemoveIds(w, file, original, fallback, reply, log.temporary.id, id);
    }
  }

  lemma OnlyRepliesWrite(w: World, event: Event)
    requires UniqueIds(w.local)
    requires !event.Replied? || event.call !in w.calls || !(w.calls[event.call].Applying? || w.calls[event.call].Installing? || w.calls[event.call].Removing?)
    ensures Step(w, event).local == w.local
  {
    match event
    case Granted(c, canApply) => if c in w.calls { GrantTouchesNothing(w, c, canApply); }
    case _ =>
  }

  /** A step brings no id to a source but the one of its own temporary breakpoint. */
  lemma StepPreserves(w: World, logs: map<nat, Log>, event: Event, id: string)
    requires DataInv(w) && UpdateLogsOk(w, logs) && TemporaryLogsOk(w, logs)
    requires event.call in logs && IsTemporary(logs[event.call]) ==> logs[event.call].temporary.id != id
    ensures Preserved(w.local, Step(w, event).local, OwnedBy(w, event.call), id)
  {
    var c := event.call;
    if event.Replied? && c in w.calls && w.calls[c].Applying? {
      ApplyIds(w, c, event.reply, logs[c], id);
    } else if event.Replied? && c in w.calls && (w.calls[c].Installing? || w.calls[c].Removing?) {
      TemporaryIds(w, c, event.reply, logs[c], id);
    } else {
      OnlyRepliesWrite(w, event);
      SameIsPreserved(w.local, OwnedBy(w, c), id);
    }
  }

  // ------------------------------------------------------- the steps of a temporary breakpoint

  lemma GrantedTemporaryLogOk(w: World, c: nat, canApply: bool, log: Log)
    requires DataInv(w) && c in w.calls && w.calls[c].TemporaryLocking? && w.calls[c].temporary.file == w.calls[c].file
    requires TemporaryLogOk(w, w.calls[c], log)
    ensures var w' := GrantStep(w, c, canApply);
            c in w'.calls && TemporaryLogOk(w', w'.calls[c], GrantLog(w, w', c, log))
  {
  }

  /** The temporary record arrives in the local list, and nowhere else. */
  lemma InstalledNowhereElse(local: Bucket, local': Bucket, file: string, id: string)
    requires Unused(local, id) && forall f | f != file :: SourceList(local', f) == SourceList(local, f)
    ensures NowhereElse(local', id, file)
  {
    UnusedMeansNone(local, id);
    forall r | r in local' && r.id == id ensures r.file == file {
      SourceListMembers(local', r.file);
      SourceListMembers(local, r.file);
    }
  }

  /** An acknowledged install is refused by the store only for an empty id. */
  lemma AcknowledgedIsInstalled(local: Bucket, file: string, temporary: BreakpointRecord, reply: Reply)
    requires UniqueIds(local) && Unused(local, temporary.id) && temporary.file == file && temporary.id != ""
    requires NoEmptyId(SourceList(local, file)) && Acknowledges(reply, SourceList(local, file) + [temporary])
    ensures Admissible(local, One(file, Project(SourceList(local, file) + [temporary], reply.evidence.value)))
  {
    UnusedMeansNone(local, temporary.id);
    ProjectAgrees(SourceList(local, file) + [temporary], reply.evidence.value);
    InstalledIsAdmissible(local, file, temporary, Project(SourceList(local, file) + [temporary], reply.evidence.value));
  }

  lemma InstallLogOk(w: World, c: nat, reply: Reply, log: Log)
    requires DataInv(w) && c in w.calls && w.calls[c].Installing? && TemporaryLogOk(w, w.calls[c], log) && log.temporary.id != ""
    ensures var w' := Step(w, Replied(c, reply));
            c in w'.calls && TemporaryLogOk(w', w'.calls[c], ReplyLog(w, w', c, reply, log))
  {
    var Installing(file, original, temporary) := w.calls[c];
    var w' := InstallReply(w, c, file, original, temporary, reply);
    assert CallInv(w, w.calls[c]);
    InstallLocal(w, c, file, original, temporary, reply);
    if Acknowledges(reply, original + [temporary]) {
      var applied := Project(original + [temporary], reply.evidence.value);
      if NoEmptyId(original) {
        AcknowledgedIsInstalled(w.local, file, temporary, reply);
      }
      if Admissible(w.local, One(file, applied)) {
        ProjectAgrees(original + [temporary], reply.evidence.value);
        DesiredIsOwnFile(w.local, file, temporary);
        EvidenceKeepsTheList(original + [temporary], applied, original, file);
        OneReplaced(w.local, file, applied);
      }
    }
    InstalledNowhereElse(w.local, w'.local, file, temporary.id);
  }

  lemma CallbackLogOk(w: World, c: nat, succeeds: bool, log: Log)
    requires DataInv(w) && c in w.calls && w.calls[c].Running? && TemporaryLogOk(w, w.calls[c], log)
    ensures var w' := Step(w, CallbackDone(c, succeeds));
            c in w'.calls && log.TemporaryRuns? && TemporaryLogOk(w', w'.calls[c], log.(succeeded := succeeds))
  {
    assert CallInv(w, w.calls[c]);
  }

  function SuccessOf(log: Log): (r: TemporaryResult)
    requires log.TemporaryRuns?
  {
    if !log.committed then InstallFailed else if log.succeeded then Completed else CallbackFailed
  }

  /** The last step is the restore of the sequential transaction. */
  lemma RemoveIsRestore(w: World, file: string, original: Bucket, fallback: Bucket, reply: Reply, log: Log)
    requires log.TemporaryRuns?
    ensures var (after, local', result) := Restore(AdapterState(w.adapter, [reply], []), w.local, file, original, fallback, SuccessOf(log));
            && local' == RemovedLocal(w, file, original, fallback, reply)
            && result == RemovedResult(w, file, original, fallback, reply, log)
            && after.held == AfterReply(w, file, original, reply).adapter
  {
  }

  /** The store at the last step is one from which the restore cannot fail silently. */
  lemma ReadyAtLast(w: World, log: Log, file: string, original: Bucket, fallback: Bucket)
    requires UniqueIds(w.local) && Started(log, file, original) && Answered(log, original, fallback) && log.temporary.id != ""
    requires SourceList(w.local, file) == (if log.committed then fallback else original)
    requires NowhereElse(w.local, log.temporary.id, file) && NoEmptyId(original)
    ensures OwnList(w.local, file, original, log.temporary.id) && OwnList(w.local, file, fallback, log.temporary.id)
    ensures forall r | r in original || r in fallback :: r.file == file
    ensures NoEmptyId(fallback)
  {
    AnsweredIds(log, original, fallback);
    UnusedMeansNone(log.before, log.temporary.id);
    if log.committed {
      ReadyToRestore(log.before, w.local, file, log.temporary, fallback);
    } else {
      StillUnused(w.local, log, file, original);
      ReadyToRestore(w.local, w.local, file, log.temporary, fallback);
    }
  }

  lemma StillUnused(local: Bucket, log: Log, file: string, original: Bucket)
    requires Started(log, file, original) && SourceList(local, file) == original && NowhereElse(local, log.temporary.id, file)
    ensures !HasId(local, log.temporary.id)
  {
    UnusedMeansNone(log.before, log.temporary.id);
    UnusedMeansNone(local, log.temporary.id);
    SourceListMembers(local, file);
    SourceListMembers(log.before, file);
  }

  lemma RestoreOfLogEnds(w: World, file: string, original: Bucket, fallback: Bucket, reply: Reply, log: Log)
    requires UniqueIds(w.local) && Started(log, file, original) && Answered(log, original, fallback) && log.temporary.id != ""
    requires SourceList(w.local, file) == (if log.committed then fallback else original)
    requires NowhereElse(w.local, log.temporary.id, file) && NoEmptyId(original)
    ensures var local' := RemovedLocal(w, file, original, fallback, reply);
            var result := RemovedResult(w, file, original, fallback, reply, log);
            if Acknowledges(reply, original) then result == SuccessOf(log) && Agree(SourceList(local', file), original)
            else result == CleanupFailed && SourceList(local', file) == fallback
  {
    ReadyAtLast(w, log, file, original, fallback);
    SourceListUnique(log.before, file);
    RemoveIsRestore(w, file, original, fallback, reply, log);
    RestoreEnds(AdapterState(w.adapter, [reply], []), w.local, file, original, fallback, SuccessOf(log), log.temporary.id);
  }

  /** What the last step leaves is as the sequential transaction leaves it. */
  lemma TemporaryEndsWell(w: World, held: map<string, Bucket>, file: string, original: Bucket, fallback: Bucket, reply: Reply, log: Log)
    requires UniqueIds(w.local) && Started(log, file, original) && Answered(log, original, fallback) && log.temporary.id != ""
    requires SourceList(w.local, file) == (if log.committed then fallback else original)
    requires NowhereElse(w.local, log.temporary.id, file)
    requires held == AfterReply(w, file, original, reply).adapter
    ensures TemporaryEnded(TemporaryDone(log.temporary, Stores(log.before, w.local, RemovedLocal(w, file, original, fallback, reply), held),
                                         log.replies + [reply], log.succeeded, RemovedResult(w, file, original, fallback, reply, log)))
  {
    if NoEmptyId(original) {
      var local' := RemovedLocal(w, file, original, fallback, reply);
      RestoreOfLogEnds(w, file, original, fallback, reply, log);
      AnsweredIds(log, original, fallback);
      assert (log.replies + [reply])[0] == log.replies[0] && (log.replies + [reply])[1] == reply;
      if Acknowledges(reply, original) {
        AgreeHasSameIds(SourceList(local', file), original);
        assert Holds(AdapterState(held, [], []), file) == original;
      }
    }
  }

  lemma RemoveLogOk(w: World, c: nat, reply: Reply, log: Log)
    requires DataInv(w) && c in w.calls && w.calls[c].Removing? && TemporaryLogOk(w, w.calls[c], log) && log.temporary.id != ""
    ensures var w' := Step(w, Replied(c, reply));
            c in w'.calls && TemporaryLogOk(w', w'.calls[c], ReplyLog(w, w', c, reply, log))
  {
    var Removing(file, original, fallback) := w.calls[c];
    RemoveCases(w, c, file, original, fallback, reply);
    TemporaryEndsWell(w, RemoveReply(w, c, file, original, fallback, reply).adapter, file, original, fallback, reply, log);
  }

  /** A temporary breakpoint at the head of its queue is refused exactly when its caller may no longer apply it; the grant
      touches neither side. */
  lemma GrantedIfApplicable(w: World, c: nat, canApply: bool, log: Log)
    requires DataInv(w) && c in w.calls && w.calls[c].TemporaryLocking? && AtHead(w, w.calls[c].file, c)
    ensures var w' := GrantStep(w, c, canApply);
            && w'.local == w.local && w'.adapter == w.adapter && c in w'.calls
            && (if canApply then w'.calls[c].Installing? && GrantLog(w, w', c, log).TemporaryRuns?
                else w'.calls[c].Finished? && GrantLog(w, w', c, log).TemporaryDone? && GrantLog(w, w', c, log).result.Refused?)
  {
  }

  // --------------------------------------------------------------------- whole runs

  /** Another call's step. */
  lemma TemporaryLogFrame(w: World, w': World, call: Call, log: Log, owned: set<string>)
    requires TemporaryLogOk(w, call, log) && Owned(call) !! owned && forall f | f in Owned(call) :: SameAt(w, w', f)
    requires IsTemporary(log) ==> Preserved(w.local, w'.local, owned, log.temporary.id)
    ensures TemporaryLogOk(w', call, log)
  {
    if call.TemporaryLocking? || call.Installing? {
      UnusedStays(w.local, w'.local, owned, log.temporary.id);
    } else if call.Running? || call.Removing? {
      OwnsItsFile(call, call.file);
      NowhereElseStays(w.local, w'.local, owned, log.temporary.id, call.file);
    }
  }

  /** What a call's own log becomes. */
  ghost function OwnLog(w: World, logs: map<nat, Log>, event: Event): (r: Log)
    requires Arrives(w, event) || (Continues(w, event) && event.call in Step(w, event).calls && event.call in logs)
  {
    if Arrives(w, event) then ArrivalLog(w, Step(w, event), event) else NextLog(w, Step(w, event), event, logs[event.call])
  }

  lemma NextLogKeepsKind(w: World, w': World, event: Event, log: Log)
    requires event.call in w.calls && event.call in w'.calls && UpdateLogOk(w, w.calls[event.call], log)
    ensures IsTemporary(NextLog(w, w', event, log)) == IsTemporary(log)
    ensures IsTemporary(log) ==> NextLog(w, w', event, log).temporary == log.temporary
  {
  }

  /** An update's log stays one. */
  lemma UpdateLogIsNotTemporary(w: World, call: Call, log: Log)
    requires UpdateLogOk(w, call, log) && !IsTemporary(log)
    ensures TemporaryLogOk(w, call, log)
  {
  }

  lemma ContinuedTemporaryLogOk(w: World, event: Event, log: Log)
    requires DataInv(w) && AllWellShaped(w.calls) && Continues(w, event) && event.call in Step(w, event).calls
    requires TemporaryLogOk(w, w.calls[event.call], log) && IsTemporary(log) && log.temporary.id != ""
    requires !w.calls[event.call].Finished?
    ensures TemporaryLogOk(Step(w, event), Step(w, event).calls[event.call], NextLog(w, Step(w, event), event, log))
  {
    var c := event.call;
    assert WellShaped(w.calls[c]);
    match event
    case Granted(_, canApply) =>
      if w.calls[c].TemporaryLocking? { GrantedTemporaryLogOk(w, c, canApply, log); }
    case Replied(_, reply) =>
      if w.calls[c].Installing? { InstallLogOk(w, c, reply, log); }
      else if w.calls[c].Removing? { RemoveLogOk(w, c, reply, log); }
    case CallbackDone(_, succeeds) =>
      if w.calls[c].Running? { CallbackLogOk(w, c, succeeds, log); }
  }

  lemma FinishedStays(w: World, event: Event, log: Log)
    requires Continues(w, event) && w.calls[event.call].Finished?
    ensures Step(w, event) == w && NextLog(w, w, event, log) == log
  {
  }

  ghost predicate LogsOk(w: World, logs: map<nat, Log>, known: set<string>)
  {
    UpdateLogsOk(w, logs) && TemporaryLogsOk(w, logs) && IdsOk(w, logs, known)
  }

  ghost predicate FreshEvent(event: Event, known: set<string>)
  {
    event.Temporary? ==> event.temporary.id != "" && event.temporary.id !in known
  }

  lemma ArrivedTemporaryLogOk(w: World, logs: map<nat, Log>, known: set<string>, event: Event)
    requires Arrives(w, event) && UniqueIds(w.local) && IdSet(w.local) <= known && FreshEvent(event, known)
    ensures var w' := Step(w, event);
            event.call in w'.calls && TemporaryLogOk(w', w'.calls[event.call], ArrivalLog(w, w', event))
  {
    if event.Update? {
      ArrivalLogOk(w, event);
      UpdateLogIsNotTemporary(Step(w, event), Step(w, event).calls[event.call], ArrivalLog(w, Step(w, event), event));
    }
  }

  lemma OwnTemporaryLogOk(w: World, logs: map<nat, Log>, known: set<string>, event: Event)
    requires DataInv(w) && AllWellShaped(w.calls) && LogsOk(w, logs, known) && Continues(w, event)
    requires event.call in Step(w, event).calls
    ensures TemporaryLogOk(Step(w, event), Step(w, event).calls[event.call], NextLog(w, Step(w, event), event, logs[event.call]))
  {
    var c := event.call;
    if !IsTemporary(logs[c]) {
      ContinuedLogOk(w, event, logs[c]);
      NextLogKeepsKind(w, Step(w, event), event, logs[c]);
      UpdateLogIsNotTemporary(Step(w, event), Step(w, event).calls[c], NextLog(w, Step(w, event), event, logs[c]));
    } else if w.calls[c].Finished? {
      FinishedStays(w, event, logs[c]);
    } else {
      assert KnownTemporary(logs[c], known);
      ContinuedTemporaryLogOk(w, event, logs[c]);
    }
  }

  lemma OtherTemporaryLogOk(w: World, logs: map<nat, Log>, known: set<string>, event: Event, d: nat)
    requires Exclusive(w) && DataInv(w) && LogsOk(w, logs, known) && d in w.calls && d != event.call
    ensures TemporaryLogOk(Step(w, event), w.calls[d], logs[d])
  {
    var c := event.call;
    OthersUntouched(w, event);
    forall f | f in Owned(w.calls[d]) ensures f !in OwnedBy(w, c) {
      if f in OwnedBy(w, c) {
        OwnersAreDisjoint(w, c, d, f);
      }
    }
    if IsTemporary(logs[d]) {
      StepPreserves(w, logs, event, logs[d].temporary.id);
    }
    TemporaryLogFrame(w, Step(w, event), w.calls[d], logs[d], OwnedBy(w, c));
  }

  lemma TemporaryLogStep(w: World, w': World, logs: map<nat, Log>, c: nat, log: Log)
    requires TemporaryLogsOk(w, logs) && c in w'.calls && w'.calls == w.calls[c := w'.calls[c]]
    requires TemporaryLogOk(w', w'.calls[c], log)
    requires forall d | d in w.calls && d != c :: d in logs && TemporaryLogOk(w', w.calls[d], logs[d])
    ensures TemporaryLogsOk(w', logs[c := log])
  {
    forall d | d in w'.calls ensures d in logs[c := log] && TemporaryLogOk(w', w'.calls[d], logs[c := log][d]) {
      if d != c {
        assert w'.calls[d] == w.calls[d];
      }
    }
  }

  lemma StepKeepsTemporaryLogs(w: World, logs: map<nat, Log>, known: set<string>, event: Event)
    requires Exclusive(w) && DataInv(w) && LogsOk(w, logs, known) && FreshEvent(event, known)
    ensures TemporaryLogsOk(Step(w, event), LogsAfter(w, logs, event))
  {
    var w', c := Step(w, event), event.call;
    forall d | d in w.calls && d != c ensures d in logs && TemporaryLogOk(w', w.calls[d], logs[d]) {
      OtherTemporaryLogOk(w, logs, known, event, d);
    }
    if Arrives(w, event) {
      StepChangesOneCall(w, event);
      ArrivedTemporaryLogOk(w, logs, known, event);
      TemporaryLogStep(w, w', logs, c, ArrivalLog(w, w', event));
    } else if Continues(w, event) {
      StepChangesOneCall(w, event);
      OwnTemporaryLogOk(w, logs, known, event);
      TemporaryLogStep(w, w', logs, c, NextLog(w, w', event, logs[c]));
    } else {
      NothingHappens(w, event);
    }
  }

  function MoreKnown(event: Event, known: set<string>): (r: set<string>)
  {
    if event.Temporary? then known + {event.temporary.id} else known
  }

  lemma StepKeepsKnown(w: World, logs: map<nat, Log>, known: set<string>, event: Event)
    requires DataInv(w) && LogsOk(w, logs, known)
    ensures IdSet(Step(w, event).local) <= known
  {
    var w', c := Step(w, event), event.call;
    forall id | id in IdSet(w'.local) ensures id in known {
      if c in logs && IsTemporary(logs[c]) && logs[c].temporary.id == id {
        assert KnownTemporary(logs[c], known);
      } else {
        StepPreserves(w, logs, event, id);
        PreservedIdWasThere(w.local, w'.local, OwnedBy(w, c), id);
      }
    }
  }

  lemma PreservedIdWasThere(local: Bucket, local': Bucket, owned: set<string>, id: string)
    requires Preserved(local, local', owned, id) && id in IdSet(local')
    ensures id in IdSet(local)
  {
    IdSetMembers(local');
    IdSetMembers(local);
    var r :| r in local' && r.id == id;
    assert CameFrom(local, owned, r);
  }

  /** The log of one call changes, keeping its kind and its id, or a new call comes with a fresh id. */
  lemma LogsKeepIds(w: World, w': World, logs: map<nat, Log>, known: set<string>, known': set<string>, c: nat, log: Log)
    requires IdsOk(w, logs, known) && known <= known' && IdSet(w'.local) <= known'
    requires c in w'.calls && w'.calls == w.calls[c := w'.calls[c]] && KnownTemporary(log, known')
    requires if c in logs then IsTemporary(log) == IsTemporary(logs[c]) && (IsTemporary(log) ==> log.temporary == logs[c].temporary)
             else IsTemporary(log) ==> log.temporary.id !in known
    ensures IdsOk(w', logs[c := log], known')
  {
    var logs' := logs[c := log];
    forall d | d in logs' ensures d in w'.calls && KnownTemporary(logs'[d], known') {
      if d != c {
        assert KnownTemporary(logs[d], known);
      }
    }
    forall d, e | d in logs' && e in logs' && IsTemporary(logs'[d]) && IsTemporary(logs'[e]) && logs'[d].temporary.id == logs'[e].temporary.id
      ensures d == e
    {
      if d != c { assert KnownTemporary(logs[d], known); }
      if e != c { assert KnownTemporary(logs[e], known); }
    }
  }

  lemma StepKeepsIds(w: World, logs: map<nat, Log>, known: set<string>, event: Event)
    requires DataInv(w) && LogsOk(w, logs, known) && FreshEvent(event, known)
    ensures IdsOk(Step(w, event), LogsAfter(w, logs, event), MoreKnown(event, known))
  {
    var w', c := Step(w, event), event.call;
    StepKeepsKnown(w, logs, known, event);
    if Arrives(w, event) {
      StepChangesOneCall(w, event);
      LogsKeepIds(w, w', logs, known, MoreKnown(event, known), c, ArrivalLog(w, w', event));
    } else if Continues(w, event) {
      StepChangesOneCall(w, event);
      NextLogKeepsKind(w, w', event, logs[c]);
      assert KnownTemporary(logs[c], known);
      LogsKeepIds(w, w', logs, known, known, c, NextLog(w, w', event, logs[c]));
    } else {
      NothingHappens(w, event);
      MoreKnownIsOk(w, logs, known, MoreKnown(event, known));
    }
  }

  lemma MoreKnownIsOk(w: World, logs: map<nat, Log>, known: set<string>, known': set<string>)
    requires IdsOk(w, logs, known) && known <= known'
    ensures IdsOk(w, logs, known')
  {
    forall c | c in logs ensures KnownTemporary(logs[c], known') {
      assert KnownTemporary(logs[c], known);
    }
  }

  lemma {:induction false} RunKeepsLogs(w: World, events: seq<Event>)
    requires Initial(w) && FreshRun(w, events)
    ensures LogsOk(Traced(w, events).w, Traced(w, events).logs, KnownIds(w, events))
  {
    RunKeepsUpdateLogs(w, events);
    if events != [] {
      var before, last := events[..|events| - 1], events[|events| - 1];
      RunKeepsLogs(w, before);
      RunKeepsInv(w, before);
      TraceIsRun(w, before);
      LocksExclude(Run(w, before));
      StepKeepsTemporaryLogs(Run(w, before), Traced(w, before).logs, KnownIds(w, before), last);
      StepKeepsIds(Run(w, before), Traced(w, before).logs, KnownIds(w, before), last);
    }
  }

  /** In every interleaving of any calls, with any adapter and any callbacks: a temporary breakpoint with a fresh id, in a
      source without an empty id, never leaks silently, and its answer is the one its own two replies and its callback
      determine. */
  lemma FinishedTemporariesNeverLeakSilently(w: World, events: seq<Event>, c: nat)
    requires Initial(w) && FreshRun(w, events)
    requires c in Run(w, events).calls && Run(w, events).calls[c].Finished?
    ensures var logs := Traced(w, events).logs;
            c in logs && (logs[c].TemporaryDone? ==> TemporaryEnded(logs[c]))
  {
    TraceIsRun(w, events);
    RunKeepsLogs(w, events);
  }
}
