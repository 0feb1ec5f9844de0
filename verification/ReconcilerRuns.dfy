/** What every interleaving of concurrent reconciler calls keeps about the local store and the adapter
    (src/sessions/BreakpointReconciler.ts). */
module ReconcilerRuns {
  import opened Basics
  import opened Breakpoints
  import opened Reconciler
  import opened Transactions
  import opened LockQueues
  import SourceLocks
  import opened ReconcilerWorld

  // -------------------------------------------------------- invariant: the data

  /** The sources whose adapter list and local list a call may be changing. */
  function Owned(call: Call): (r: set<string>)
  {
    if call.Locking? || call.TemporaryLocking? then {} else Elements(HeldSources(call))
  }

  ghost predicate OwnFile(records: Bucket, file: string)
  {
    forall r | r in records :: r.file == file
  }

  /** What the adapter holds for a source agrees with the local list, unless its last call was not acknowledged. */
  ghost predicate InStep(w: World, file: string)
  {
    file !in w.suspect ==> Agree(AdapterList(w, file), SourceList(w.local, file))
  }

  ghost predicate StatesInv(w: World, states: seq<SourceState>)
  {
    && DistinctStates(states)
    && forall i | 0 <= i < |states| ::
         states[i].original == SourceList(w.local, states[i].file) && OwnFile(states[i].desired, states[i].file)
  }

  ghost predicate AppliedInv(w: World, state: SourceState, applied: Bucket)
  {
    state.file !in w.suspect && AdapterList(w, state.file) == state.desired && Agree(applied, state.desired)
  }

  ghost predicate RemovingInv(w: World, file: string, original: Bucket, fallback: Bucket)
  {
    && OwnFile(original, file) && OwnFile(fallback, file) && UniqueIds(original)
    && IdSet(original) <= IdSet(SourceList(w.local, file))
    && (SourceList(w.local, file) == original || NoEmptyId(original))
    && (NoEmptyId(fallback) ==> NoEmptyId(original))
  }

  ghost predicate CallInv(w: World, call: Call)
  {
    match call
    case Locking(_, _, _) => true
    case TemporaryLocking(_, _) => true
    case Finished => true
    case Applying(target, states, applied) =>
      && |applied| < |states| && StatesInv(w, states)
      && (exists i :: 0 <= i < |states| && target.id in IdSet(states[i].desired))
      && (forall i | 0 <= i < |applied| :: AppliedInv(w, states[i], applied[i]))
      && (forall i | |applied| <= i < |states| :: InStep(w, states[i].file))
    case Restoring(states, next) =>
      && next < |states| && StatesInv(w, states)
      && (forall i | 0 <= i < next :: InStep(w, states[i].file))
    case Installing(file, original, temporary) =>
      temporary.file == file && original == SourceList(w.local, file) && InStep(w, file)
    case Running(file, original, installed) =>
      && InStep(w, file) && file !in w.suspect
      && SourceList(w.local, file) == installed
      && RemovingInv(w, file, original, installed)
    case Removing(file, original, fallback) =>
      RemovingInv(w, file, original, fallback)
  }

  ghost predicate Free(w: World, file: string)
  {
    forall c | c in w.calls :: file !in Owned(w.calls[c])
  }

  ghost predicate DataInv(w: World)
  {
    && UniqueIds(w.local)
    && (forall c | c in w.calls :: CallInv(w, w.calls[c]))
    && (forall f | Free(w, f) :: InStep(w, f))
  }

  ghost predicate SameAt(w: World, w': World, file: string)
  {
    && SourceList(w'.local, file) == SourceList(w.local, file)
    && AdapterList(w', file) == AdapterList(w, file)
    && (file in w'.suspect <==> file in w.suspect)
  }

  /** A call's part of the invariant depends on its own sources only. */
  lemma CallInvFrame(w: World, w': World, call: Call)
    requires CallInv(w, call) && forall f | f in Owned(call) :: SameAt(w, w', f)
    ensures CallInv(w', call)
  {
    match call {
      case Applying(target, states, applied) => StatesFrame(w, w', states);
      case Restoring(states, next) => StatesFrame(w, w', states);
      case Installing(file, _, _) => OwnsItsFile(call, file);
      case Running(file, _, _) => OwnsItsFile(call, file);
      case Removing(file, _, _) => OwnsItsFile(call, file);
      case _ =>
    }
  }

  lemma OwnsItsFile(call: Call, file: string)
    requires (call.Installing? || call.Running? || call.Removing?) && call.file == file
    ensures Owned(call) == {file}
  {
    assert HeldSources(call) == [file];
    assert [file][0] in [file];
  }

  lemma StatesFrame(w: World, w': World, states: seq<SourceState>)
    requires forall f | f in Elements(StateSources(states)) :: SameAt(w, w', f)
    ensures forall i | 0 <= i < |states| :: SameAt(w, w', states[i].file)
  {
    forall i | 0 <= i < |states| ensures SameAt(w, w', states[i].file) {
      assert StateSources(states)[i] in StateSources(states);
    }
  }

  /** No two calls own a source; this is all that the data lemmas need of the locks. */
  ghost predicate Exclusive(w: World)
  {
    && AllWellShaped(w.calls)
    && forall c, d, file | c in w.calls && d in w.calls && file in Owned(w.calls[c]) && file in Owned(w.calls[d]) :: c == d
  }

  lemma LocksExclude(w: World)
    requires LocksInv(w)
    ensures Exclusive(w)
  {
    var v := ViewsOf(w.calls);
    forall c, d, file | c in w.calls && d in w.calls && file in Owned(w.calls[c]) && file in Owned(w.calls[d]) ensures c == d {
      assert v[c] == ViewOf(w.calls[c]) && v[d] == ViewOf(w.calls[d]);
      OneHolder(w.queues, v, c, d, file);
    }
  }

  lemma OwnersAreDisjoint(w: World, c: nat, d: nat, file: string)
    requires Exclusive(w) && c in w.calls && d in w.calls && file in Owned(w.calls[c]) && file in Owned(w.calls[d])
    ensures c == d
  {
  }

  /** How one call's step preserves the data invariant: it touches only sources it owns before or after the step, it
      re-establishes its own part, and it leaves the sources it gives up in step. */
  lemma DataStep(w: World, w': World, c: nat)
    requires Exclusive(w) && DataInv(w) && Exclusive(w') && c in w'.calls
    requires UniqueIds(w'.local)
    requires w'.calls == w.calls[c := w'.calls[c]]
    requires CallInv(w', w'.calls[c])
    requires forall f | !(c in w.calls && f in Owned(w.calls[c])) :: SameAt(w, w', f)
    requires c in w.calls ==> forall f | f in Owned(w.calls[c]) && f !in Owned(w'.calls[c]) :: InStep(w', f)
    ensures DataInv(w')
  {
    forall d | d in w'.calls ensures CallInv(w', w'.calls[d]) {
      if d != c {
        forall f | f in Owned(w.calls[d]) ensures SameAt(w, w', f) {
          if c in w.calls && f in Owned(w.calls[c]) {
            OwnersAreDisjoint(w, c, d, f);
          }
        }
        CallInvFrame(w, w', w.calls[d]);
      }
    }
    forall f | Free(w', f) ensures InStep(w', f) {
      if c in w.calls && f in Owned(w.calls[c]) {
      } else {
        assert SameAt(w, w', f);
        assert Free(w, f) by {
          forall d | d in w.calls ensures f !in Owned(w.calls[d]) {
            assert d in w'.calls && (d != c ==> w'.calls[d] == w.calls[d]);
          }
        }
      }
    }
  }

  // ------------------------------------------------- every step keeps the data

  lemma AgreeIsSymmetric(a: Bucket, b: Bucket)
    requires Agree(a, b)
    ensures Agree(b, a)
  {
    forall i | 0 <= i < |b| ensures SameBreakpoint(b[i], a[i]) {
      assert SameBreakpoint(a[i], b[i]);
    }
  }

  lemma FinishedOwnsNothing()
    ensures Owned(Finished) == {}
  {
    assert HeldSources(Finished) == [];
  }

  /** A source that a call starts to own was owned by nobody. */
  lemma NewlyOwnedWasFree(w: World, w': World, c: nat, file: string)
    requires Exclusive(w') && c in w'.calls && w'.calls == w.calls[c := w'.calls[c]]
    requires file in Owned(w'.calls[c])
    requires c in w.calls ==> file !in Owned(w.calls[c])
    ensures Free(w, file)
  {
    forall d | d in w.calls ensures file !in Owned(w.calls[d]) {
      if d != c {
        assert w'.calls[d] == w.calls[d];
      }
    }
  }

  /** A step that changes nothing but one call which owned nothing and owns nothing. */
  lemma IdleDataStep(w: World, w': World, c: nat)
    requires Exclusive(w) && DataInv(w) && Exclusive(w') && c in w'.calls
    requires w'.calls == w.calls[c := w'.calls[c]]
    requires w'.local == w.local && w'.adapter == w.adapter && w'.suspect == w.suspect
    requires w'.calls[c].Finished? || w'.calls[c].Locking? || w'.calls[c].TemporaryLocking?
    requires c in w.calls ==> w.calls[c].Locking? || w.calls[c].TemporaryLocking?
    ensures DataInv(w')
  {
    DataStep(w, w', c);
  }

  /** A step that changes nothing but one call, which starts to own sources. */
  ghost predicate OnlyCallChanges(w: World, w': World, c: nat)
  {
    && c in w'.calls && w'.calls == w.calls[c := w'.calls[c]]
    && w'.local == w.local && w'.adapter == w.adapter && w'.suspect == w.suspect
    && (c in w.calls ==> Owned(w.calls[c]) == {})
  }

  lemma BeginsApplying(w: World, w': World, c: nat, target: BreakpointRecord, states: seq<SourceState>)
    requires Exclusive(w) && DataInv(w) && Exclusive(w') && OnlyCallChanges(w, w', c)
    requires w'.calls[c] == Applying(target, states, [])
    requires StatesInv(w, states) && |states| > 0 && exists i :: 0 <= i < |states| && target.id in IdSet(states[i].desired)
    ensures DataInv(w')
  {
    forall i | 0 <= i < |states| ensures InStep(w', states[i].file) {
      OwnsState(w'.calls[c], states, i);
      NewlyOwnedWasFree(w, w', c, states[i].file);
      assert InStep(w, states[i].file);
    }
    StatesInvFrame(w, w', states);
    DataStep(w, w', c);
  }

  lemma BeginsInstalling(w: World, w': World, c: nat, file: string, temporary: BreakpointRecord)
    requires Exclusive(w) && DataInv(w) && Exclusive(w') && OnlyCallChanges(w, w', c)
    requires w'.calls[c] == Installing(file, SourceList(w.local, file), temporary) && temporary.file == file
    ensures DataInv(w')
  {
    OwnsItsFile(w'.calls[c], file);
    NewlyOwnedWasFree(w, w', c, file);
    assert InStep(w, file);
    DataStep(w, w', c);
  }

  /** What the locked part of `update` can do before its first adapter call. */
  ghost predicate LockedOutcome(w: World, w': World, c: nat)
  {
    && c in w'.calls && w'.calls == w.calls[c := w'.calls[c]]
    && w'.local == w.local && w'.adapter == w.adapter && w'.suspect == w.suspect
    && (w'.calls[c].Finished? || w'.calls[c].Locking?
        || (w'.calls[c].Applying? && w'.calls[c].applied == [] && |w'.calls[c].states| > 0 && StatesInv(w, w'.calls[c].states)
            && exists i :: 0 <= i < |w'.calls[c].states| && w'.calls[c].target.id in IdSet(w'.calls[c].states[i].desired)))
  }

  lemma LockedCases(w: World, c: nat, patch: Patch, sources: seq<string>)
    requires UniqueIds(w.local) && c in w.calls
    ensures LockedOutcome(w, Locked(w, c, patch, sources), c)
  {
    var target := Find(w.local, patch.breakpointId);
    if target.Some? {
      StartsApplying(w, target.value, patch);
      var states := SourceStates(w.local, target.value, Patched(target.value, patch), AffectedSources(target.value, patch));
      assert w.calls[c := Finished][c := Locking(patch, AffectedSources(target.value, patch), 0)]
             == w.calls[c := Locking(patch, AffectedSources(target.value, patch), 0)];
    }
  }

  lemma LockedKeepsData(w: World, w': World, c: nat)
    requires Exclusive(w) && DataInv(w) && Exclusive(w') && c in w.calls && w.calls[c].Locking? && LockedOutcome(w, w', c)
    ensures DataInv(w')
  {
    if w'.calls[c].Applying? {
      BeginsApplying(w, w', c, w'.calls[c].target, w'.calls[c].states);
    } else {
      IdleDataStep(w, w', c);
    }
  }

  lemma StatesInvFrame(w: World, w': World, states: seq<SourceState>)
    requires StatesInv(w, states) && w'.local == w.local
    ensures StatesInv(w', states)
  {
  }

  lemma StartsApplying(w: World, target: BreakpointRecord, patch: Patch)
    requires UniqueIds(w.local) && target in w.local
    ensures var states := SourceStates(w.local, target, Patched(target, patch), AffectedSources(target, patch));
            && StatesInv(w, states) && |states| > 0
            && exists i :: 0 <= i < |states| && target.id in IdSet(states[i].desired)
  {
    var requested := Patched(target, patch);
    var paths := AffectedSources(target, patch);
    var states := SourceStates(w.local, target, requested, paths);
    AffectedSourcesAreSorted(target, patch);
    forall i | 0 <= i < |states| ensures MovesOnlyTheTarget(w.local, target, requested, paths[i]) {
      assert paths[i] in paths;
      DesiredMovesOnlyTheTarget(w.local, target, requested, paths[i]);
    }
    assert requested.file in paths;
    var i :| 0 <= i < |paths| && paths[i] == requested.file;
    assert target.id in IdSet(states[i].desired);
  }

  lemma UpdateGrantKeepsData(w: World, w': World, c: nat, canApply: bool)
    requires Exclusive(w) && DataInv(w) && Exclusive(w') && c in w.calls && w.calls[c].Locking?
    requires w' == GrantStep(w, c, canApply)
    ensures DataInv(w')
  {
    if w' != w {
      var Locking(patch, sources, held) := w.calls[c];
      GrantIsBelowEnd(w, c, canApply);
      if held + 1 < |sources| {
        WaitingGrantKeepsData(w, w', c, canApply);
      } else {
        LastGrantEffect(w, c, canApply);
        LastGrantKeepsData(w, w', c, patch, sources, held);
      }
    }
  }

  lemma GrantIsBelowEnd(w: World, c: nat, canApply: bool)
    requires c in w.calls && w.calls[c].Locking? && GrantStep(w, c, canApply) != w
    ensures w.calls[c].held < |w.calls[c].sources|
  {
  }

  /** A grant that leaves more sources to lock changes only the call and the queues. */
  lemma WaitingGrantEffect(w: World, c: nat, canApply: bool)
    requires c in w.calls && w.calls[c].Locking? && w.calls[c].held + 1 < |w.calls[c].sources| && GrantStep(w, c, canApply) != w
    ensures var w' := GrantStep(w, c, canApply);
            && w'.local == w.local && w'.adapter == w.adapter && w'.suspect == w.suspect
            && w'.calls == w.calls[c := w.calls[c].(held := w.calls[c].held + 1)]
  {
  }

  lemma WaitingGrantKeepsData(w: World, w': World, c: nat, canApply: bool)
    requires Exclusive(w) && DataInv(w) && Exclusive(w')
    requires c in w.calls && w.calls[c].Locking? && w.calls[c].held + 1 < |w.calls[c].sources|
    requires w' == GrantStep(w, c, canApply) && w' != w
    ensures DataInv(w')
  {
    WaitingGrantEffect(w, c, canApply);
    IdleDataStep(w, w', c);
  }

  /** The last grant goes on to the locked part. */
  lemma LastGrantEffect(w: World, c: nat, canApply: bool)
    requires c in w.calls && w.calls[c].Locking? && w.calls[c].held + 1 == |w.calls[c].sources| && GrantStep(w, c, canApply) != w
    ensures var Locking(patch, sources, held) := w.calls[c];
            GrantStep(w, c, canApply) == Locked(w.(calls := w.calls[c := Locking(patch, sources, held + 1)]), c, patch, sources)
  {
  }

  lemma LastGrantKeepsData(w: World, w': World, c: nat, patch: Patch, sources: seq<string>, held: nat)
    requires Exclusive(w) && DataInv(w) && c in w.calls && w.calls[c] == Locking(patch, sources, held) && held + 1 == |sources|
    requires w' == Locked(w.(calls := w.calls[c := Locking(patch, sources, held + 1)]), c, patch, sources) && Exclusive(w')
    ensures DataInv(w')
  {
    var w1 := w.(calls := w.calls[c := Locking(patch, sources, held + 1)]);
    LockedCases(w1, c, patch, sources);
    OutcomeBefore(w, w1, w', c);
    LockedKeepsData(w, w', c);
  }

  lemma OutcomeBefore(w: World, w1: World, w': World, c: nat)
    requires LockedOutcome(w1, w', c) && c in w.calls && c in w1.calls && w1 == w.(calls := w1.calls) && w1.calls == w.calls[c := w1.calls[c]]
    ensures LockedOutcome(w, w', c)
  {
    assert w'.calls == w.calls[c := w'.calls[c]];
    if w'.calls[c].Applying? {
      StatesInvFrame(w1, w, w'.calls[c].states);
    }
  }

  lemma TemporaryGrantKeepsData(w: World, c: nat, canApply: bool)
    requires Exclusive(w) && DataInv(w) && c in w.calls && w.calls[c].TemporaryLocking? && Exclusive(GrantStep(w, c, canApply))
    ensures DataInv(GrantStep(w, c, canApply))
  {
    var w' := GrantStep(w, c, canApply);
    var TemporaryLocking(file, temporary) := w.calls[c];
    assert WellShaped(w.calls[c]);
    if w' != w {
      TemporaryGrantEffect(w, c, canApply);
      if canApply {
        BeginsInstalling(w, w', c, file, temporary);
      } else {
        IdleDataStep(w, w', c);
      }
    }
  }

  lemma TemporaryGrantEffect(w: World, c: nat, canApply: bool)
    requires c in w.calls && w.calls[c].TemporaryLocking? && GrantStep(w, c, canApply) != w
    ensures var w', call := GrantStep(w, c, canApply), w.calls[c];
            && w'.local == w.local && w'.adapter == w.adapter && w'.suspect == w.suspect
            && w'.calls == w.calls[c := if canApply then Installing(call.file, SourceList(w.local, call.file), call.temporary) else Finished]
  {
  }

  /** An adapter reply concerns one source. */
  lemma ReplyFrame(w: World, file: string, records: Bucket, reply: Reply)
    ensures var w1 := AfterReply(w, file, records, reply);
            && (forall f | f != file :: SameAt(w, w1, f))
            && (Acknowledges(reply, records) ==> file !in w1.suspect && AdapterList(w1, file) == records)
            && (!Acknowledges(reply, records) ==> file in w1.suspect)
  {
  }

  lemma OwnsState(call: Call, states: seq<SourceState>, i: nat)
    requires (call.Applying? || call.Restoring?) && call.states == states && i < |states|
    ensures states[i].file in Owned(call)
  {
    assert StateSources(states)[i] in HeldSources(call);
  }

  lemma OwnedIsAState(call: Call, states: seq<SourceState>, file: string)
    requires (call.Applying? || call.Restoring?) && call.states == states && file in Owned(call)
    ensures exists i :: 0 <= i < |states| && states[i].file == file
  {
    var i :| 0 <= i < |states| && HeldSources(call)[i] == file;
    assert states[i].file == file;
  }

  lemma StartRestoringKeepsData(w: World, w': World, c: nat, target: BreakpointRecord, states: seq<SourceState>, applied: seq<Bucket>)
    requires Exclusive(w) && DataInv(w) && Exclusive(w') && c in w.calls
    requires w.calls[c] == Applying(target, states, applied) && w'.calls == w.calls[c := Restoring(states, 0)]
    requires w'.local == w.local
    requires forall f | f != states[|applied|].file :: SameAt(w, w', f)
    ensures DataInv(w')
  {
    assert CallInv(w, w.calls[c]);
    StatesInvFrame(w, w', states);
    OwnsState(w.calls[c], states, |applied|);
    assert Owned(w'.calls[c]) == Owned(w.calls[c]);
    DataStep(w, w', c);
  }

  lemma NextApplyOk(w: World, w': World, target: BreakpointRecord, states: seq<SourceState>, applied: seq<Bucket>, last: Bucket)
    requires CallInv(w, Applying(target, states, applied)) && |applied| + 1 < |states| && w'.local == w.local
    requires forall f | f != states[|applied|].file :: SameAt(w, w', f)
    requires AppliedInv(w', states[|applied|], last)
    ensures CallInv(w', Applying(target, states, applied + [last]))
  {
    StatesInvFrame(w, w', states);
    forall i | 0 <= i < |applied| ensures AppliedInv(w', states[i], applied[i]) {
      assert SameAt(w, w', states[i].file) && AppliedInv(w, states[i], applied[i]);
    }
    forall i | |applied| + 1 <= i < |states| ensures InStep(w', states[i].file) {
      assert SameAt(w, w', states[i].file) && InStep(w, states[i].file);
    }
  }

  lemma NextApplyKeepsData(w: World, w': World, c: nat, target: BreakpointRecord, states: seq<SourceState>, applied: seq<Bucket>, last: Bucket)
    requires Exclusive(w) && DataInv(w) && Exclusive(w') && c in w.calls && |applied| + 1 < |states|
    requires w.calls[c] == Applying(target, states, applied) && w'.calls == w.calls[c := Applying(target, states, applied + [last])]
    requires w'.local == w.local
    requires forall f | f != states[|applied|].file :: SameAt(w, w', f)
    requires AppliedInv(w', states[|applied|], last)
    ensures DataInv(w')
  {
    assert CallInv(w, w.calls[c]);
    NextApplyOk(w, w', target, states, applied, last);
    OwnsState(w.calls[c], states, |applied|);
    assert Owned(w'.calls[c]) == Owned(w.calls[c]);
    DataStep(w, w', c);
  }

  /** All lists acknowledged and the store accepts them: local and adapter lists agree afterwards. */
  lemma CommitKeepsData(w: World, w1: World, w': World, c: nat, target: BreakpointRecord, states: seq<SourceState>, applied: seq<Bucket>)
    requires Exclusive(w) && DataInv(w) && Exclusive(w') && c in w.calls && |applied| == |states| > 0
    requires w.calls[c] == Applying(target, states, applied[..|states| - 1])
    requires w1.local == w.local && StatesInv(w1, states)
    requires forall f | f != states[|states| - 1].file :: SameAt(w, w1, f)
    requires forall i | 0 <= i < |states| :: AppliedInv(w1, states[i], applied[i])
    requires Admissible(w.local, Replacements(states, applied))
    requires w'.local == Replaced(w.local, Replacements(states, applied)) && w'.adapter == w1.adapter && w'.suspect == w1.suspect
    requires w'.calls == w.calls[c := Finished]
    ensures DataInv(w')
  {
    ReplacementKeepsIdsUnique(w.local, Replacements(states, applied));
    FinishedOwnsNothing();
    CommitInStep(w, w1, w', w.calls[c], states, applied);
    DataStep(w, w', c);
  }

  lemma CommitInStep(w: World, w1: World, w': World, call: Call, states: seq<SourceState>, applied: seq<Bucket>)
    requires |applied| == |states| > 0 && call.Applying? && call.states == states
    requires w1.local == w.local && StatesInv(w1, states)
    requires forall f | f != states[|states| - 1].file :: SameAt(w, w1, f)
    requires forall i | 0 <= i < |states| :: AppliedInv(w1, states[i], applied[i])
    requires w'.local == Replaced(w.local, Replacements(states, applied)) && w'.adapter == w1.adapter && w'.suspect == w1.suspect
    ensures forall f | f !in Owned(call) :: SameAt(w, w', f)
    ensures forall f | f in Owned(call) :: InStep(w', f)
  {
    CommitInstallsApplied(w1, states, applied);
    forall f | f !in Owned(call) ensures SameAt(w, w', f) {
      forall i | 0 <= i < |states| ensures states[i].file != f { OwnsState(call, states, i); }
      assert SameAt(w, w1, f);
    }
    forall f | f in Owned(call) ensures InStep(w', f) {
      OwnedIsAState(call, states, f);
      var i :| 0 <= i < |states| && states[i].file == f;
      assert AppliedInv(w1, states[i], applied[i]);
      AgreeIsSymmetric(applied[i], states[i].desired);
    }
  }

  lemma CommitInstallsApplied(w: World, states: seq<SourceState>, applied: seq<Bucket>)
    requires StatesInv(w, states) && |applied| == |states|
    requires forall i | 0 <= i < |states| :: AppliedInv(w, states[i], applied[i])
    ensures var local' := Replaced(w.local, Replacements(states, applied));
            && (forall i | 0 <= i < |states| :: SourceList(local', states[i].file) == applied[i])
            && (forall f | (forall i | 0 <= i < |states| :: states[i].file != f) :: SourceList(local', f) == SourceList(w.local, f))
  {
    var replacements := Replacements(states, applied);
    forall i | 0 <= i < |states| ensures SourceList(Replaced(w.local, replacements), states[i].file) == applied[i] {
      ReplacementIsExact(w.local, replacements, states[i].file);
      StampOfAgreeing(applied[i], states[i].desired, states[i].file);
      assert replacements[i].file == states[i].file;
    }
    forall f | (forall i | 0 <= i < |states| :: states[i].file != f)
      ensures SourceList(Replaced(w.local, replacements), f) == SourceList(w.local, f)
    {
      ReplacementIsExact(w.local, replacements, f);
    }
  }

  lemma CommittedTargetIsFound(w: World, target: BreakpointRecord, states: seq<SourceState>, applied: seq<Bucket>)
    requires StatesInv(w, states) && |applied| == |states|
    requires forall i | 0 <= i < |states| :: AppliedInv(w, states[i], applied[i])
    requires exists i :: 0 <= i < |states| && target.id in IdSet(states[i].desired)
    ensures Find(Replaced(w.local, Replacements(states, applied)), target.id).Some?
  {
    var local' := Replaced(w.local, Replacements(states, applied));
    CommitInstallsApplied(w, states, applied);
    var i :| 0 <= i < |states| && target.id in IdSet(states[i].desired);
    var k :| 0 <= k < |states[i].desired| && states[i].desired[k].id == target.id;
    assert SameBreakpoint(applied[i][k], states[i].desired[k]);
    assert applied[i][k] in SourceList(local', states[i].file);
    TemporaryIsFound(local', states[i].file, applied[i][k], target.id);
  }

  lemma ApplyReplyKeepsData(w: World, c: nat, target: BreakpointRecord, states: seq<SourceState>, applied: seq<Bucket>, reply: Reply)
    requires Exclusive(w) && DataInv(w) && c in w.calls && w.calls[c] == Applying(target, states, applied) && |applied| < |states|
    requires Exclusive(ApplyReply(w, c, target, states, applied, reply))
    ensures DataInv(ApplyReply(w, c, target, states, applied, reply))
  {
    assert CallInv(w, w.calls[c]);
    var k := |applied|;
    var w1 := AfterReply(w, states[k].file, states[k].desired, reply);
    var w' := ApplyReply(w, c, target, states, applied, reply);
    ReplyFrame(w, states[k].file, states[k].desired, reply);
    if !Acknowledges(reply, states[k].desired) {
      StartRestoringKeepsData(w, w', c, target, states, applied);
    } else {
      var last := Project(states[k].desired, reply.evidence.value);
      ProjectAgrees(states[k].desired, reply.evidence.value);
      if k + 1 < |states| {
        NextApplyKeepsData(w, w', c, target, states, applied, last);
      } else {
        LastReplyKeepsData(w, w1, c, target, states, applied, last);
      }
    }
  }

  lemma AllAppliedAfterReply(w: World, w1: World, c: nat, target: BreakpointRecord, states: seq<SourceState>, applied: seq<Bucket>, last: Bucket)
    requires DataInv(w) && c in w.calls && w.calls[c] == Applying(target, states, applied) && |applied| + 1 == |states|
    requires w1.local == w.local
    requires forall f | f != states[|applied|].file :: SameAt(w, w1, f)
    requires AppliedInv(w1, states[|applied|], last)
    ensures StatesInv(w1, states)
    ensures forall i | 0 <= i < |states| :: AppliedInv(w1, states[i], (applied + [last])[i])
    ensures exists i :: 0 <= i < |states| && target.id in IdSet(states[i].desired)
  {
    assert CallInv(w, w.calls[c]);
    StatesInvFrame(w, w1, states);
    forall i | 0 <= i < |states| ensures AppliedInv(w1, states[i], (applied + [last])[i]) {
      if i < |applied| {
        assert AppliedInv(w, states[i], applied[i]) && SameAt(w, w1, states[i].file);
      }
    }
  }

  lemma LastReplyKeepsData(w: World, w1: World, c: nat, target: BreakpointRecord, states: seq<SourceState>, applied: seq<Bucket>, last: Bucket)
    requires Exclusive(w) && DataInv(w) && c in w.calls && w.calls[c] == Applying(target, states, applied) && |applied| + 1 == |states|
    requires w1.local == w.local && w1.calls == w.calls && w1.queues == w.queues
    requires forall f | f != states[|applied|].file :: SameAt(w, w1, f)
    requires AppliedInv(w1, states[|applied|], last)
    requires Exclusive(Commit(w1, c, target, states, applied + [last]))
    ensures DataInv(Commit(w1, c, target, states, applied + [last]))
  {
    var all := applied + [last];
    AllAppliedAfterReply(w, w1, c, target, states, applied, last);
    if Admissible(w1.local, Replacements(states, all)) {
      LastReplyCommits(w, w1, c, target, states, applied, last);
    } else {
      LastReplyRestores(w, w1, Commit(w1, c, target, states, all), c, target, states, applied);
    }
  }

  lemma LastReplyCommits(w: World, w1: World, c: nat, target: BreakpointRecord, states: seq<SourceState>, applied: seq<Bucket>, last: Bucket)
    requires Exclusive(w) && DataInv(w) && c in w.calls && w.calls[c] == Applying(target, states, applied) && |applied| + 1 == |states|
    requires w1.local == w.local && w1.calls == w.calls
    requires forall f | f != states[|applied|].file :: SameAt(w, w1, f)
    requires StatesInv(w1, states) && forall i | 0 <= i < |states| :: AppliedInv(w1, states[i], (applied + [last])[i])
    requires exists i :: 0 <= i < |states| && target.id in IdSet(states[i].desired)
    requires Admissible(w1.local, Replacements(states, applied + [last]))
    requires Exclusive(Commit(w1, c, target, states, applied + [last]))
    ensures DataInv(Commit(w1, c, target, states, applied + [last]))
  {
    var all := applied + [last];
    CommittedTargetIsFound(w1, target, states, all);
    assert all[..|states| - 1] == applied;
    CommitKeepsData(w, w1, Commit(w1, c, target, states, all), c, target, states, all);
  }

  lemma LastReplyRestores(w: World, w1: World, w': World, c: nat, target: BreakpointRecord, states: seq<SourceState>, applied: seq<Bucket>)
    requires Exclusive(w) && DataInv(w) && Exclusive(w') && c in w.calls && |applied| < |states|
    requires w.calls[c] == Applying(target, states, applied) && w1.local == w.local && w1.calls == w.calls
    requires w' == w1.(calls := w1.calls[c := Restoring(states, 0)])
    requires forall f | f != states[|applied|].file :: SameAt(w, w1, f)
    ensures DataInv(w')
  {
    forall f | f != states[|applied|].file ensures SameAt(w, w', f) {
      assert SameAt(w, w1, f);
    }
    StartRestoringKeepsData(w, w', c, target, states, applied);
  }

  lemma RestoreReplyKeepsData(w: World, c: nat, states: seq<SourceState>, next: nat, reply: Reply)
    requires Exclusive(w) && DataInv(w) && c in w.calls && w.calls[c] == Restoring(states, next) && next < |states|
    requires Exclusive(RestoreReply(w, c, states, next, reply))
    ensures DataInv(RestoreReply(w, c, states, next, reply))
  {
    assert CallInv(w, w.calls[c]);
    var w' := RestoreReply(w, c, states, next, reply);
    ReplyFrame(w, states[next].file, states[next].original, reply);
    OwnsState(w.calls[c], states, next);
    StatesInvFrame(w, w', states);
    forall f | f != states[next].file ensures SameAt(w, w', f) {
      assert SameAt(w, AfterReply(w, states[next].file, states[next].original, reply), f);
    }
    forall i | 0 <= i < next + 1 ensures InStep(w', states[i].file) {
      if i < next {
        assert SameAt(w, w', states[i].file) && InStep(w, states[i].file);
      } else {
        assert Agree(states[i].original, states[i].original);
      }
    }
    FinishedOwnsNothing();
    if next + 1 < |states| {
      assert Owned(w'.calls[c]) == Owned(w.calls[c]);
    }
    forall f | f in Owned(w.calls[c]) && f !in Owned(w'.calls[c]) ensures InStep(w', f) {
      OwnedIsAState(w.calls[c], states, f);
    }
    DataStep(w, w', c);
  }

  // ------------------------------------------------ steps of temporary breakpoints

  lemma AdmissibleHasNoEmptyId(local: Bucket, file: string, records: Bucket)
    requires Admissible(local, One(file, records))
    ensures NoEmptyId(records)
  {
    FlattenOne(file, records);
    forall i | 0 <= i < |records| ensures records[i].id != "" {
      assert Stamp(records, file)[i].id == records[i].id;
    }
  }

  /** The original list can be put back exactly when it has no empty id. */
  lemma RestoredIsAdmissible(local: Bucket, file: string, original: Bucket, restored: Bucket)
    requires UniqueIds(local) && UniqueIds(original) && Ids(restored) == Ids(original)
    requires IdSet(original) <= IdSet(SourceList(local, file))
    ensures Admissible(local, One(file, restored)) <==> NoEmptyId(original)
  {
    SameIdsSameSet(original, restored);
    SourceListMembers(local, file);
    IdSetMembers(SourceList(local, file));
    forall i, j | 0 <= i < |local| && 0 <= j < |restored| && local[i].id == restored[j].id ensures local[i].file == file {
      assert restored[j].id in IdSet(restored);
      var r :| r in SourceList(local, file) && r.id == restored[j].id;
      IdDetermines(local, r, local[i]);
    }
    OneIsAdmissible(local, file, restored);
    NoEmptyIdMeansNotInSet(original);
    NoEmptyIdMeansNotInSet(restored);
  }

  lemma EvidenceKeepsTheList(desired: Bucket, applied: Bucket, original: Bucket, file: string)
    requires Agree(applied, desired) && OwnFile(desired, file) && original <= desired
    ensures OwnFile(applied, file) && OwnFile(original, file) && IdSet(original) <= IdSet(applied)
    ensures NoEmptyId(applied) ==> NoEmptyId(original)
  {
    AgreeKeepsFileAndIds(applied, desired, file);
    forall r | r in original ensures r.file == file {
      assert r in desired;
    }
    forall i | 0 <= i < |original| ensures applied[i].id == original[i].id {
      assert SameBreakpoint(applied[i], desired[i]) && desired[i] == original[i];
    }
  }

  lemma DesiredIsOwnFile(local: Bucket, file: string, temporary: BreakpointRecord)
    requires UniqueIds(local) && temporary.file == file
    ensures var original := SourceList(local, file);
            OwnFile(original + [temporary], file) && UniqueIds(original) && original <= original + [temporary]
  {
    SourceListMembers(local, file);
    SourceListUnique(local, file);
  }

  lemma InstallRefusedKeepsData(w: World, w': World, c: nat, file: string, original: Bucket, temporary: BreakpointRecord, fallback: Bucket)
    requires Exclusive(w) && DataInv(w) && Exclusive(w') && c in w.calls && w.calls[c] == Installing(file, original, temporary)
    requires w'.local == w.local && w'.calls == w.calls[c := Removing(file, original, fallback)]
    requires forall f | f != file :: SameAt(w, w', f)
    requires Agree(fallback, original + [temporary])
    ensures DataInv(w')
  {
    assert CallInv(w, w.calls[c]);
    DesiredIsOwnFile(w.local, file, temporary);
    EvidenceKeepsTheList(original + [temporary], fallback, original, file);
    OwnsItsFile(w.calls[c], file);
    OwnsItsFile(w'.calls[c], file);
    DataStep(w, w', c);
  }

  lemma InstallAcceptedKeepsData(w: World, w': World, c: nat, file: string, original: Bucket, temporary: BreakpointRecord, installed: Bucket)
    requires Exclusive(w) && DataInv(w) && Exclusive(w') && c in w.calls && w.calls[c] == Installing(file, original, temporary)
    requires Admissible(w.local, One(file, installed)) && w'.local == Replaced(w.local, One(file, installed))
    requires w'.calls == w.calls[c := Running(file, original, installed)]
    requires forall f | f != file :: AdapterList(w', f) == AdapterList(w, f) && (f in w'.suspect <==> f in w.suspect)
    requires file !in w'.suspect && AdapterList(w', file) == original + [temporary]
    requires Agree(installed, original + [temporary])
    ensures DataInv(w')
  {
    assert CallInv(w, w.calls[c]);
    DesiredIsOwnFile(w.local, file, temporary);
    EvidenceKeepsTheList(original + [temporary], installed, original, file);
    AgreeIsSymmetric(installed, original + [temporary]);
    AdmissibleHasNoEmptyId(w.local, file, installed);
    OneReplaced(w.local, file, installed);
    OwnsItsFile(w.calls[c], file);
    OwnsItsFile(w'.calls[c], file);
    DataStep(w, w', c);
  }

  lemma InstallReplyKeepsData(w: World, c: nat, file: string, original: Bucket, temporary: BreakpointRecord, reply: Reply)
    requires Exclusive(w) && DataInv(w) && c in w.calls && w.calls[c] == Installing(file, original, temporary)
    requires Exclusive(InstallReply(w, c, file, original, temporary, reply))
    ensures DataInv(InstallReply(w, c, file, original, temporary, reply))
  {
    var desired := original + [temporary];
    var w1 := AfterReply(w, file, desired, reply);
    var w' := InstallReply(w, c, file, original, temporary, reply);
    ReplyFrame(w, file, desired, reply);
    forall f | f != file ensures AdapterList(w', f) == AdapterList(w, f) && (f in w'.suspect <==> f in w.suspect) {
      assert SameAt(w, w1, f);
    }
    if !Acknowledges(reply, desired) {
      InstallRefusedKeepsData(w, w', c, file, original, temporary, desired);
    } else {
      var applied := Project(desired, reply.evidence.value);
      ProjectAgrees(desired, reply.evidence.value);
      if Admissible(w.local, One(file, applied)) {
        InstallAcceptedKeepsData(w, w', c, file, original, temporary, applied);
      } else {
        InstallRefusedKeepsData(w, w', c, file, original, temporary, applied);
      }
    }
  }

  lemma CallbackKeepsData(w: World, c: nat, succeeds: bool)
    requires Exclusive(w) && DataInv(w) && c in w.calls && w.calls[c].Running? && Exclusive(Step(w, CallbackDone(c, succeeds)))
    ensures DataInv(Step(w, CallbackDone(c, succeeds)))
  {
    assert CallInv(w, w.calls[c]);
    var w' := Step(w, CallbackDone(c, succeeds));
    OwnsItsFile(w.calls[c], w.calls[c].file);
    OwnsItsFile(w'.calls[c], w.calls[c].file);
    DataStep(w, w', c);
  }

  /** The end of a temporary breakpoint: the list finally recorded is in step unless the restore was not acknowledged. */
  lemma RemoveEndsKeepsData(w: World, w': World, c: nat, file: string, original: Bucket, fallback: Bucket)
    requires Exclusive(w) && DataInv(w) && Exclusive(w') && c in w.calls && w.calls[c] == Removing(file, original, fallback)
    requires w'.calls == w.calls[c := Finished]
    requires UniqueIds(w'.local) && InStep(w', file)
    requires forall f | f != file :: SameAt(w, w', f)
    ensures DataInv(w')
  {
    OwnsItsFile(w.calls[c], file);
    FinishedOwnsNothing();
    DataStep(w, w', c);
  }

  /** The local list that a restore leaves. */
  ghost function RemovedLocal(w: World, file: string, original: Bucket, fallback: Bucket, reply: Reply): (r: Bucket)
  {
    if Acknowledges(reply, original) && Admissible(w.local, One(file, Project(original, reply.evidence.value)))
    then Replaced(w.local, One(file, Project(original, reply.evidence.value)))
    else if Admissible(w.local, One(file, fallback)) then Replaced(w.local, One(file, fallback))
    else w.local
  }

  lemma RemovedLocalIsInStep(w: World, file: string, original: Bucket, fallback: Bucket, reply: Reply)
    requires UniqueIds(w.local) && RemovingInv(w, file, original, fallback)
    ensures var local' := RemovedLocal(w, file, original, fallback, reply);
            && UniqueIds(local')
            && (forall f | f != file :: SourceList(local', f) == SourceList(w.local, f))
            && (Acknowledges(reply, original) ==> Agree(original, SourceList(local', file)))
  {
    if Acknowledges(reply, original) {
      var restored := Project(original, reply.evidence.value);
      ProjectAgrees(original, reply.evidence.value);
      AgreeIsSymmetric(restored, original);
      EvidenceKeepsTheList(original, restored, original, file);
      RestoredIsAdmissible(w.local, file, original, restored);
      if NoEmptyId(original) {
        OneReplaced(w.local, file, restored);
      } else if Admissible(w.local, One(file, fallback)) {
        AdmissibleHasNoEmptyId(w.local, file, fallback);
      }
    } else if Admissible(w.local, One(file, fallback)) {
      OneReplaced(w.local, file, fallback);
    }
  }

  lemma RemoveReplyKeepsData(w: World, c: nat, file: string, original: Bucket, fallback: Bucket, reply: Reply)
    requires Exclusive(w) && DataInv(w) && c in w.calls && w.calls[c] == Removing(file, original, fallback)
    requires Exclusive(RemoveReply(w, c, file, original, fallback, reply))
    ensures DataInv(RemoveReply(w, c, file, original, fallback, reply))
  {
    assert CallInv(w, w.calls[c]);
    var w1 := AfterReply(w, file, original, reply);
    var w' := RemoveReply(w, c, file, original, fallback, reply);
    assert w'.local == RemovedLocal(w, file, original, fallback, reply);
    ReplyFrame(w, file, original, reply);
    RemovedLocalIsInStep(w, file, original, fallback, reply);
    forall f | f != file ensures SameAt(w, w', f) {
      assert SameAt(w, w1, f);
    }
    RemoveEndsKeepsData(w, w', c, file, original, fallback);
  }

  // --------------------------------------------------------------- whole runs

  ghost predicate Inv(w: World)
  {
    LocksInv(w) && DataInv(w)
  }

  lemma ReplyKeepsData(w: World, c: nat, reply: Reply)
    requires Exclusive(w) && DataInv(w) && c in w.calls && Exclusive(Step(w, Replied(c, reply)))
    ensures DataInv(Step(w, Replied(c, reply)))
  {
    match w.calls[c] {
      case Applying(target, states, applied) =>
        if |applied| < |states| { ApplyReplyKeepsData(w, c, target, states, applied, reply); }
      case Restoring(states, next) =>
        if next < |states| { RestoreReplyKeepsData(w, c, states, next, reply); }
      case Installing(file, original, temporary) => InstallReplyKeepsData(w, c, file, original, temporary, reply);
      case Removing(file, original, fallback) => RemoveReplyKeepsData(w, c, file, original, fallback, reply);
      case _ =>
    }
  }

  lemma ArrivalKeepsData(w: World, event: Event)
    requires Exclusive(w) && DataInv(w) && (event.Update? || event.Temporary?) && Exclusive(Step(w, event))
    ensures DataInv(Step(w, event))
  {
    if event.call !in w.calls {
      if event.Update? {
        UpdateArrivalKeepsData(w, event.call, event.patch);
      } else {
        TemporaryArrivalKeepsData(w, event.call, event.temporary);
      }
    }
  }

  lemma UpdateArrivalKeepsData(w: World, c: nat, patch: Patch)
    requires Exclusive(w) && DataInv(w) && c !in w.calls && Exclusive(EnterUpdate(w, c, patch))
    ensures DataInv(EnterUpdate(w, c, patch))
  {
    IdleDataStep(w, EnterUpdate(w, c, patch), c);
  }

  lemma TemporaryArrivalKeepsData(w: World, c: nat, temporary: BreakpointRecord)
    requires Exclusive(w) && DataInv(w) && c !in w.calls && Exclusive(Step(w, Temporary(c, temporary)))
    ensures DataInv(Step(w, Temporary(c, temporary)))
  {
    IdleDataStep(w, Step(w, Temporary(c, temporary)), c);
  }

  lemma StepKeepsInv(w: World, event: Event)
    requires Inv(w)
    ensures Inv(Step(w, event))
  {
    StepKeepsLocks(w, event);
    LocksExclude(w);
    LocksExclude(Step(w, event));
    StepKeepsData(w, event);
  }

  lemma StepKeepsData(w: World, event: Event)
    requires Exclusive(w) && DataInv(w) && Exclusive(Step(w, event))
    ensures DataInv(Step(w, event))
  {
    if event.Update? || event.Temporary? {
      ArrivalKeepsData(w, event);
    } else if event.call !in w.calls {
    } else if event.Granted? {
      if w.calls[event.call].Locking? {
        UpdateGrantKeepsData(w, Step(w, event), event.call, event.canApply);
      } else if w.calls[event.call].TemporaryLocking? {
        TemporaryGrantKeepsData(w, event.call, event.canApply);
      }
    } else if event.Replied? {
      ReplyKeepsData(w, event.call, event.reply);
    } else if w.calls[event.call].Running? {
      CallbackKeepsData(w, event.call, event.succeeds);
    }
  }

  /** No call yet; every source whose last adapter call was acknowledged is in step. */
  ghost predicate Initial(w: World)
  {
    w.queues == map[] && w.calls == map[] && UniqueIds(w.local) && forall f :: InStep(w, f)
  }

  lemma {:induction false} RunKeepsInv(w: World, events: seq<Event>)
    requires Initial(w)
    ensures Inv(Run(w, events))
  {
    if events == [] {
      assert ViewsOf(w.calls) == map[];
      NothingIsChained();
    } else {
      RunKeepsInv(w, events[..|events| - 1]);
      StepKeepsInv(Run(w, events[..|events| - 1]), events[|events| - 1]);
    }
  }

  /** Over every run of concurrent calls, whatever the adapter does: whenever nobody holds or waits for a source and
      its last adapter call was acknowledged, the list the adapter really holds and the local list agree on ids, order
      and every field except line, column and evidence; and ids are unique over the session. */
  lemma UnlockedSourcesAgree(w: World, events: seq<Event>, file: string)
    requires Initial(w)
    ensures var w' := Run(w, events);
            && UniqueIds(w'.local)
            && (file !in w'.queues && file !in w'.suspect ==> Agree(AdapterList(w', file), SourceList(w'.local, file)))
  {
    RunKeepsInv(w, events);
    UnlockedSourceAgrees(Run(w, events), file);
  }

  lemma UnlockedSourceAgrees(w: World, file: string)
    requires Inv(w)
    ensures UniqueIds(w.local)
    ensures file !in w.queues && file !in w.suspect ==> Agree(AdapterList(w, file), SourceList(w.local, file))
  {
    if file !in w.queues {
      UnlockedIsFree(w, file);
      assert InStep(w, file);
    }
  }

  lemma UnlockedIsFree(w: World, file: string)
    requires LocksInv(w) && file !in w.queues
    ensures Free(w, file)
  {
    forall c | c in w.calls ensures file !in Owned(w.calls[c]) {
      assert c in ViewsOf(w.calls) && ViewsOf(w.calls)[c] == ViewOf(w.calls[c]);
    }
  }

  /** Over every run: at most one call holds a source, it is the oldest in the queue, calls wait in sorted order, and the
      wait-for graph has no cycle, so while some call is blocked some holder is not. */
  lemma RunsAreExclusiveAndDeadlockFree(w: World, events: seq<Event>)
    requires Initial(w)
    ensures var w' := Run(w, events);
            var v := ViewsOf(w'.calls);
            && (forall c, d, s | c in v && d in v && s in v[c].held && s in v[d].held :: c == d)
            && (forall s | s in w'.queues :: w'.queues[s] != [])
            && (forall path: seq<nat> | |path| >= 2 && (forall i | 0 <= i < |path| - 1 :: BlockedBy(v, path[i], path[i + 1])) ::
                  path[0] != path[|path| - 1])
            && ((exists c, d :: BlockedBy(v, c, d)) ==> exists d :: d in v && v[d].held != {} && !exists b :: BlockedBy(v, d, b))
  {
    RunKeepsInv(w, events);
    var w' := Run(w, events);
    var v := ViewsOf(w'.calls);
    forall c, d, s | c in v && d in v && s in v[c].held && s in v[d].held ensures c == d {
      OneHolder(w'.queues, v, c, d, s);
    }
    forall path: seq<nat> | |path| >= 2 && (forall i | 0 <= i < |path| - 1 :: BlockedBy(v, path[i], path[i + 1]))
      ensures path[0] != path[|path| - 1]
    {
      NoWaitCycle(w'.queues, v, path);
    }
    if c, d :| BlockedBy(v, c, d) {
      var free := SomeHolderIsNotBlocked(w'.queues, v, c);
    }
  }

  /** Over every run: some run of the promise chains, with a call for each ticket, shows exactly these queues; and the chain
      lets a waiting ticket through exactly when its call is at the head of its source's queue. */
  lemma RunsFollowTheChains(w: World, events: seq<Event>) returns (locks: seq<SourceLocks.LockEvent>, owner: seq<nat>)
    requires Initial(w)
    ensures var w' := Run(w, events);
            var l := SourceLocks.Run(locks);
            && Shows(l, owner, w'.queues, ViewsOf(w'.calls))
            && forall t: nat | t < |l.tickets| && !l.tickets[t].granted ::
                 var s := l.tickets[t].source;
                 s in w'.queues && w'.queues[s] != [] && (SourceLocks.MayResume(l, t) <==> w'.queues[s][0] == owner[t])
  {
    RunKeepsInv(w, events);
    var w' := Run(w, events);
    var q, v := w'.queues, ViewsOf(w'.calls);
    locks, owner :| Shows(SourceLocks.Run(locks), owner, q, v);
    var l := SourceLocks.Run(locks);
    forall t: nat | t < |l.tickets| && !l.tickets[t].granted
      ensures l.tickets[t].source in q && q[l.tickets[t].source] != []
      ensures SourceLocks.MayResume(l, t) <==> q[l.tickets[t].source][0] == owner[t]
    {
      MayResumeIffHead(l, owner, q, v, t);
    }
  }

  lemma ReplaceTouchesOnly(local: Bucket, replacements: seq<SourceReplacement>, file: string)
    requires Admissible(local, replacements) && forall i | 0 <= i < |replacements| :: replacements[i].file != file
    ensures SourceList(Replaced(local, replacements), file) == SourceList(local, file)
  {
    ReplacementIsExact(local, replacements, file);
  }

  lemma ApplyTouchesOnlyOwned(w: World, c: nat, target: BreakpointRecord, states: seq<SourceState>, applied: seq<Bucket>, reply: Reply, file: string)
    requires c in w.calls && w.calls[c] == Applying(target, states, applied) && |applied| < |states|
    requires file !in Owned(w.calls[c])
    ensures SameAt(w, ApplyReply(w, c, target, states, applied, reply), file)
  {
    forall i | 0 <= i < |states| ensures states[i].file != file { OwnsState(w.calls[c], states, i); }
    var state := states[|applied|];
    ReplyFrame(w, state.file, state.desired, reply);
    if Acknowledges(reply, state.desired) && |applied| + 1 == |states| {
      var all := applied + [Project(state.desired, reply.evidence.value)];
      if Admissible(w.local, Replacements(states, all)) {
        ReplaceTouchesOnly(w.local, Replacements(states, all), file);
      }
    }
  }

  lemma RestoreTouchesOnlyOwned(w: World, c: nat, states: seq<SourceState>, next: nat, reply: Reply, file: string)
    requires c in w.calls && w.calls[c] == Restoring(states, next) && next < |states| && file !in Owned(w.calls[c])
    ensures SameAt(w, RestoreReply(w, c, states, next, reply), file)
  {
    OwnsState(w.calls[c], states, next);
  }

  lemma ReplaceOneTouchesOnly(local: Bucket, own: string, file: string)
    requires file != own
    ensures forall records: Bucket | Admissible(local, One(own, records)) :: SourceList(Replaced(local, One(own, records)), file) == SourceList(local, file)
  {
    forall records: Bucket | Admissible(local, One(own, records))
      ensures SourceList(Replaced(local, One(own, records)), file) == SourceList(local, file)
    {
      ReplaceTouchesOnly(local, One(own, records), file);
    }
  }

  lemma InstallTouchesOnlyOwned(w: World, c: nat, reply: Reply, file: string)
    requires c in w.calls && w.calls[c].Installing? && file !in Owned(w.calls[c])
    ensures SameAt(w, Step(w, Replied(c, reply)), file)
  {
    OwnsItsFile(w.calls[c], w.calls[c].file);
    ReplaceOneTouchesOnly(w.local, w.calls[c].file, file);
  }

  lemma RemoveTouchesOnlyOwned(w: World, c: nat, reply: Reply, file: string)
    requires c in w.calls && w.calls[c].Removing? && file !in Owned(w.calls[c])
    ensures SameAt(w, Step(w, Replied(c, reply)), file)
  {
    OwnsItsFile(w.calls[c], w.calls[c].file);
    ReplaceOneTouchesOnly(w.local, w.calls[c].file, file);
  }

  lemma GrantTouchesNothing(w: World, c: nat, canApply: bool)
    requires UniqueIds(w.local) && c in w.calls
    ensures var w' := GrantStep(w, c, canApply);
            w'.local == w.local && w'.adapter == w.adapter && w'.suspect == w.suspect
  {
  }

  /** A step changes a source's local list, its adapter list or its mark only when an adapter reply reaches a call that
      then holds the source's lock. */
  lemma StepTouchesOnlyOwnedSources(w: World, event: Event, file: string)
    requires DataInv(w) && !SameAt(w, Step(w, event), file)
    ensures event.Replied? && event.call in w.calls && file in Owned(w.calls[event.call])
  {
    match event {
      case Update(c, patch) =>
      case Temporary(c, temporary) =>
      case Granted(c, canApply) => if c in w.calls { GrantTouchesNothing(w, c, canApply); }
      case CallbackDone(c, _) =>
      case Replied(c, reply) =>
        if c in w.calls && file !in Owned(w.calls[c]) {
          match w.calls[c] {
            case Applying(target, states, applied) =>
              if |applied| < |states| { ApplyTouchesOnlyOwned(w, c, target, states, applied, reply, file); }
            case Restoring(states, next) =>
              if next < |states| { RestoreTouchesOnlyOwned(w, c, states, next, reply, file); }
            case Installing(_, _, _) => InstallTouchesOnlyOwned(w, c, reply, file);
            case Removing(_, _, _) => RemoveTouchesOnlyOwned(w, c, reply, file);
            case _ =>
          }
        }
    }
  }

  lemma CommitFinishes(w: World, c: nat, target: BreakpointRecord, states: seq<SourceState>, applied: seq<Bucket>)
    requires c in w.calls && |applied| == |states| && StatesInv(w, states)
    requires forall i | 0 <= i < |states| :: AppliedInv(w, states[i], applied[i])
    requires exists i :: 0 <= i < |states| && target.id in IdSet(states[i].desired)
    ensures Commit(w, c, target, states, applied).local != w.local ==> Commit(w, c, target, states, applied).calls[c] == Finished
  {
    CommittedTargetIsFound(w, target, states, applied);
  }

  /** While an update still waits for a reply after this one, the local store does not change. */
  lemma NoCommitBeforeLastReply(w: World, c: nat, target: BreakpointRecord, states: seq<SourceState>, applied: seq<Bucket>, reply: Reply)
    requires DataInv(w) && c in w.calls && w.calls[c] == Applying(target, states, applied) && |applied| < |states|
    requires ApplyReply(w, c, target, states, applied, reply).local != w.local
    ensures |applied| + 1 == |states| && Acknowledges(reply, states[|applied|].desired)
    ensures ApplyReply(w, c, target, states, applied, reply).calls[c] == Finished
  {
    var state := states[|applied|];
    var last := Project(state.desired, reply.evidence.value);
    var w1 := AfterReply(w, state.file, state.desired, reply);
    ProjectAgrees(state.desired, reply.evidence.value);
    ReplyFrame(w, state.file, state.desired, reply);
    AllAppliedAfterReply(w, w1, c, target, states, applied, last);
    CommitFinishes(w1, c, target, states, applied + [last]);
  }

  /** The adapter call a call is waiting for: source and list sent. */
  function Pending(call: Call): (r: Option<(string, Bucket)>)
  {
    match call
    case Applying(_, states, applied) =>
      if |applied| < |states| then Some((states[|applied|].file, states[|applied|].desired)) else None
    case Restoring(states, next) => if next < |states| then Some((states[next].file, states[next].original)) else None
    case Installing(file, original, temporary) => Some((file, original + [temporary]))
    case Removing(file, original, _) => Some((file, original))
    case _ => None
  }

  lemma ApplyMarks(w: World, c: nat, target: BreakpointRecord, states: seq<SourceState>, applied: seq<Bucket>, reply: Reply)
    requires c in w.calls && |applied| < |states|
    ensures ApplyReply(w, c, target, states, applied, reply).suspect
            == AfterReply(w, states[|applied|].file, states[|applied|].desired, reply).suspect
  {
  }

  lemma TemporaryMarks(w: World, c: nat, reply: Reply)
    requires c in w.calls && (w.calls[c].Installing? || w.calls[c].Removing?)
    ensures var (file, records) := Pending(w.calls[c]).value;
            Step(w, Replied(c, reply)).suspect == AfterReply(w, file, records, reply).suspect
  {
  }

  /** A reply with complete evidence clears the mark of its source, any other sets it; no other mark changes. */
  lemma MarkFollowsReply(w: World, c: nat, reply: Reply, file: string)
    requires c in w.calls && Pending(w.calls[c]).Some?
    ensures file in Step(w, Replied(c, reply)).suspect <==>
              if file == Pending(w.calls[c]).value.0 then !Acknowledges(reply, Pending(w.calls[c]).value.1) else file in w.suspect
  {
    match w.calls[c] {
      case Applying(target, states, applied) => ApplyMarks(w, c, target, states, applied, reply);
      case Restoring(_, _) =>
      case _ => TemporaryMarks(w, c, reply);
    }
  }
}
