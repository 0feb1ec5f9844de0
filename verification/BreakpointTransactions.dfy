/** The two transactions of `BreakpointReconciler` as the source runs them: `#updateLocked` and
    `withTemporaryBreakpoint`, against a `BreakpointManager` and a debug adapter. */
module Transactions {
  import opened Basics
  import opened Breakpoints
  import opened Reconciler

  // ------------------------------------------------------ temporary breakpoints

  datatype TemporaryResult =
    | Refused          // the caller's precondition failed once the lock was held
    | Completed        // callback done, original list restored
    | CallbackFailed   // callback failed, original list restored
    | InstallFailed    // temporary breakpoint not installed, original list restored
    | CleanupFailed    // RUN_TO_LINE_CLEANUP_FAILED
    | Crashed          // the store threw its own error, on an id it refuses, while the failure was being recorded

  function One(file: string, records: Bucket): (r: seq<SourceReplacement>)
  {
    [SourceReplacement(file, records)]
  }

  /** Installing: the adapter, the local bucket and, if acknowledged, the list with evidence. */
  ghost function Install(a: AdapterState, local: Bucket, file: string, desired: Bucket)
    : (r: (AdapterState, Bucket, Option<Bucket>))
    ensures r.2.Some? ==> Acknowledges(NextReply(a), desired) && r.2.value == Project(desired, NextReply(a).evidence.value)
  {
    var sent := Sent(a, file, desired, local);
    if !Acknowledges(NextReply(a), desired) then (sent, local, None)
    else
      var applied := Project(desired, NextReply(a).evidence.value);
      (sent, if Admissible(local, One(file, applied)) then Replaced(local, One(file, applied)) else local, Some(applied))
  }

  /** Restoring: `fallback` is the list kept locally when the original cannot be proved restored. */
  ghost function Restore(a: AdapterState, local: Bucket, file: string, original: Bucket, fallback: Bucket, success: TemporaryResult)
    : (r: (AdapterState, Bucket, TemporaryResult))
  {
    var sent := Sent(a, file, original, local);
    if Acknowledges(NextReply(a), original)
       && Admissible(local, One(file, Project(original, NextReply(a).evidence.value))) then
      (sent, Replaced(local, One(file, Project(original, NextReply(a).evidence.value))), success)
    else if Admissible(local, One(file, fallback)) then (sent, Replaced(local, One(file, fallback)), CleanupFailed)
    else (sent, local, Crashed)
  }

  /** The locked part of `withTemporaryBreakpoint`, on values. */
  ghost function TemporaryRun(a: AdapterState, local: Bucket, file: string, temporary: BreakpointRecord,
                              canApply: bool, callbackSucceeds: bool)
    : (r: (AdapterState, Bucket, TemporaryResult))
  {
    if !canApply then (a, local, Refused)
    else
      var original := SourceList(local, file);
      var desired := original + [temporary];
      var (installed, during, applied) := Install(a, local, file, desired);
      var committed := applied.Some? && Admissible(local, One(file, applied.value)) && HasId(during, temporary.id);
      Restore(installed, during, file, original,
              if applied.Some? then applied.value else desired,
              if !committed then InstallFailed else if callbackSucceeds then Completed else CallbackFailed)
  }

  /** What the caller may rely on: the adapter and the local store hold exactly the original list again, or the
      temporary record is still in the local store and the error is the cleanup error, or nothing was done at all. A leak
      is silent here when the adapter may keep the record while the local store has no trace of it and the error, if it is
      another one, does not speak of cleanup. */
  ghost predicate NoSilentLeak(a: AdapterState, local: Bucket, file: string, temporary: BreakpointRecord,
                               after: AdapterState, local': Bucket, result: TemporaryResult)
  {
    match result
    case Refused => after == a && local' == local
    case Completed | CallbackFailed | InstallFailed =>
      && Holds(after, file) == SourceList(local, file)
      && Agree(SourceList(local', file), SourceList(local, file))
      && Ids(SourceList(local', file)) == Ids(SourceList(local, file))
    case CleanupFailed => temporary.id in IdSet(SourceList(local', file))
    case Crashed => false
  }

  /** A caller that may no longer apply makes no adapter call; otherwise there are exactly two, the source's list with the
      temporary record at its end and the list as it was. */
  lemma TemporaryCalls(a: AdapterState, local: Bucket, file: string, temporary: BreakpointRecord, canApply: bool, callbackSucceeds: bool)
    ensures var (after, local', result) := TemporaryRun(a, local, file, temporary, canApply, callbackSucceeds);
            if canApply then
              && !result.Refused? && |after.calls| == |a.calls| + 2 && after.calls[..|a.calls|] == a.calls
              && after.calls[|a.calls|] == AdapterCall(file, SourceList(local, file) + [temporary], local)
              && after.calls[|a.calls| + 1].file == file && after.calls[|a.calls| + 1].sent == SourceList(local, file)
            else result.Refused? && after == a && local' == local
  {
    if canApply {
      var desired := SourceList(local, file) + [temporary];
      var (installed, during, applied) := Install(a, local, file, desired);
      assert installed.calls == a.calls + [AdapterCall(file, desired, local)];
    }
  }

  lemma OneIsAdmissible(local: Bucket, file: string, records: Bucket)
    requires UniqueIds(records)
    requires forall i, j | 0 <= i < |local| && 0 <= j < |records| && local[i].id == records[j].id :: local[i].file == file
    ensures Admissible(local, One(file, records)) <==> NoEmptyId(records)
  {
    FlattenOne(file, records);
    FilesOfOne(file, records);
    StampedIds(local, file, records);
  }

  lemma StampedIds(local: Bucket, file: string, records: Bucket)
    requires UniqueIds(records)
    requires forall i, j | 0 <= i < |local| && 0 <= j < |records| && local[i].id == records[j].id :: local[i].file == file
    ensures UniqueIds(Stamp(records, file)) && NoForeignId(local, Stamp(records, file), {file})
    ensures NoEmptyId(Stamp(records, file)) <==> NoEmptyId(records)
  {
    IdSetOfStamp(records, file);
    NoEmptyIdMeansNotInSet(records);
    NoEmptyIdMeansNotInSet(Stamp(records, file));
  }

  lemma FilesOfOne(file: string, records: Bucket)
    ensures Files(One(file, records)) == {file}
  {
    assert One(file, records)[0].file == file;
  }

  lemma FlattenOne(file: string, records: Bucket)
    ensures Flatten(One(file, records)) == Stamp(records, file)
  {
    var one := One(file, records);
    assert one[..0] == [];
  }

  /** A list made of a source's own records and perhaps one extra record, with or without evidence. */
  ghost predicate OwnList(local: Bucket, file: string, records: Bucket, extra: string)
  {
    && UniqueIds(records)
    && forall j | 0 <= j < |records| :: records[j].id == extra || records[j].id in IdSet(SourceList(local, file))
  }

  lemma OwnListIsAdmissible(local: Bucket, file: string, records: Bucket, extra: string)
    requires UniqueIds(local) && OwnList(local, file, records, extra)
    requires forall r | r in local && r.id == extra :: r.file == file
    ensures Admissible(local, One(file, records)) <==> NoEmptyId(records)
  {
    SourceListMembers(local, file);
    IdSetMembers(SourceList(local, file));
    forall i, j | 0 <= i < |local| && 0 <= j < |records| && local[i].id == records[j].id ensures local[i].file == file {
      assert local[i] in local;
      if records[j].id != extra {
        var r :| r in SourceList(local, file) && r.id == records[j].id;
        IdDetermines(local, r, local[i]);
      }
    }
    OneIsAdmissible(local, file, records);
  }

  /** A successful replacement of one source by a list of records of that source. */
  lemma OneReplaced(local: Bucket, file: string, records: Bucket)
    requires UniqueIds(local) && Admissible(local, One(file, records))
    requires forall r | r in records :: r.file == file
    ensures var local' := Replaced(local, One(file, records));
            && UniqueIds(local')
            && SourceList(local', file) == records
            && forall f | f != file :: SourceList(local', f) == SourceList(local, f)
  {
    var one := One(file, records);
    ReplacementKeepsIdsUnique(local, one);
    ReplacementIsExact(local, one, file);
    assert one[0].file == file;
    assert Stamp(records, file) == records by {
      forall i | 0 <= i < |records| ensures records[i].file == file { assert records[i] in records; }
    }
    forall f | f != file ensures SourceList(Replaced(local, one), f) == SourceList(local, f) {
      ReplacementIsExact(local, one, f);
    }
  }

  lemma AgreeKeepsFileAndIds(a: Bucket, b: Bucket, file: string)
    requires Agree(a, b) && forall r | r in b :: r.file == file
    ensures (forall r | r in a :: r.file == file) && Ids(a) == Ids(b) && (UniqueIds(b) ==> UniqueIds(a))
    ensures NoEmptyId(a) <==> NoEmptyId(b)
  {
    forall r | r in a ensures r.file == file {
      var i :| 0 <= i < |a| && a[i] == r;
      assert b[i] in b;
    }
    SameIdsSameSet(b, a) by { assert forall i | 0 <= i < |a| :: SameBreakpoint(a[i], b[i]); }
    NoEmptyIdMeansNotInSet(a);
    NoEmptyIdMeansNotInSet(b);
  }

  /** Facts about the list `withTemporaryBreakpoint` sends. */
  lemma DesiredWithTemporary(local: Bucket, file: string, temporary: BreakpointRecord)
    requires UniqueIds(local) && !HasId(local, temporary.id) && temporary.file == file
    ensures var desired := SourceList(local, file) + [temporary];
            && UniqueIds(desired) && OwnList(local, file, desired, temporary.id)
            && (forall r | r in desired :: r.file == file)
            && temporary.id in IdSet(desired)
            && (temporary.id != "" ==> (NoEmptyId(desired) <==> NoEmptyId(SourceList(local, file))))
  {
    var original := SourceList(local, file);
    var desired := original + [temporary];
    SourceListMembers(local, file);
    SourceListUnique(local, file);
    IdSetMembers(original);
    forall i | 0 <= i < |original| ensures original[i].id != temporary.id && original[i].id in IdSet(original) {
      assert original[i] in local;
    }
    assert desired[|original|] == temporary;
    forall i | 0 <= i < |original| ensures desired[i] == original[i] { }
  }

  /** How one restore ends, seen from a local bucket that holds either the original list or the installed one. */
  lemma RestoreEnds(a: AdapterState, local: Bucket, file: string, original: Bucket, fallback: Bucket, success: TemporaryResult, extra: string)
    requires UniqueIds(local) && UniqueIds(original) && OwnList(local, file, original, extra) && OwnList(local, file, fallback, extra)
    requires forall r | r in local && r.id == extra :: r.file == file
    requires forall r | r in original || r in fallback :: r.file == file
    requires NoEmptyId(original) && NoEmptyId(fallback)
    ensures var (after, local', result) := Restore(a, local, file, original, fallback, success);
            && UniqueIds(local')
            && (forall f | f != file :: SourceList(local', f) == SourceList(local, f))
            && (if Acknowledges(NextReply(a), original)
                then result == success && Holds(after, file) == original && Agree(SourceList(local', file), original)
                else result == CleanupFailed && SourceList(local', file) == fallback)
  {
    if Acknowledges(NextReply(a), original) {
      var restored := Project(original, NextReply(a).evidence.value);
      ProjectAgrees(original, NextReply(a).evidence.value);
      AgreeKeepsFileAndIds(restored, original, file);
      assert OwnList(local, file, restored, extra) by {
        forall j | 0 <= j < |restored| ensures restored[j].id == original[j].id { }
      }
      OwnListIsAdmissible(local, file, restored, extra);
      OneReplaced(local, file, restored);
    } else {
      OwnListIsAdmissible(local, file, fallback, extra);
      OneReplaced(local, file, fallback);
    }
  }

  /** The install and the callback: what the local bucket holds when the restore begins. */
  lemma InstallEnds(a: AdapterState, local: Bucket, file: string, temporary: BreakpointRecord)
    requires UniqueIds(local) && !HasId(local, temporary.id) && temporary.file == file
    requires temporary.id != "" && NoEmptyId(SourceList(local, file))
    ensures var desired := SourceList(local, file) + [temporary];
            var (installed, during, applied) := Install(a, local, file, desired);
            var fallback := if applied.Some? then applied.value else desired;
            && UniqueIds(during)
            && (forall f | f != file :: SourceList(during, f) == SourceList(local, f) && Holds(installed, f) == Holds(a, f))
            && (applied.Some? ==> SourceList(during, file) == applied.value && Holds(installed, file) == desired)
            && (applied.Some? ==> Admissible(local, One(file, applied.value)) && HasId(during, temporary.id))
            && (applied.None? ==> during == local)
            && Agree(fallback, desired) && Ids(fallback) == Ids(desired)
  {
    var desired := SourceList(local, file) + [temporary];
    DesiredWithTemporary(local, file, temporary);
    if Acknowledges(NextReply(a), desired) {
      var applied := Project(desired, NextReply(a).evidence.value);
      ProjectAgrees(desired, NextReply(a).evidence.value);
      AgreeKeepsFileAndIds(applied, desired, file);
      InstalledIsAdmissible(local, file, temporary, applied);
      OneReplaced(local, file, applied);
      var n := |SourceList(local, file)|;
      assert SameBreakpoint(applied[n], desired[n]);
      TemporaryIsFound(Replaced(local, One(file, applied)), file, applied[n], temporary.id);
    }
  }

  lemma InstalledIsAdmissible(local: Bucket, file: string, temporary: BreakpointRecord, applied: Bucket)
    requires UniqueIds(local) && !HasId(local, temporary.id) && temporary.file == file
    requires temporary.id != "" && NoEmptyId(SourceList(local, file))
    requires Agree(applied, SourceList(local, file) + [temporary])
    ensures Admissible(local, One(file, applied))
  {
    var desired := SourceList(local, file) + [temporary];
    DesiredWithTemporary(local, file, temporary);
    AgreeKeepsFileAndIds(applied, desired, file);
    assert OwnList(local, file, applied, temporary.id) by {
      forall j | 0 <= j < |applied| ensures applied[j].id == desired[j].id { }
    }
    OwnListIsAdmissible(local, file, applied, temporary.id) by {
      forall r | r in local ensures r.id != temporary.id {
        var i :| 0 <= i < |local| && local[i] == r;
      }
    }
  }

  lemma TemporaryIsFound(bucket: Bucket, file: string, record: BreakpointRecord, id: string)
    requires record in SourceList(bucket, file) && record.id == id
    ensures HasId(bucket, id)
  {
    SourceListMembers(bucket, file);
    var i :| 0 <= i < |bucket| && bucket[i] == record;
  }

  /** The bucket at the start of the restore satisfies what `RestoreEnds` asks for. */
  lemma ReadyToRestore(local: Bucket, during: Bucket, file: string, temporary: BreakpointRecord, fallback: Bucket)
    requires UniqueIds(local) && !HasId(local, temporary.id) && temporary.file == file
    requires temporary.id != "" && NoEmptyId(SourceList(local, file))
    requires UniqueIds(during) && (during == local || SourceList(during, file) == fallback)
    requires Agree(fallback, SourceList(local, file) + [temporary])
    ensures OwnList(during, file, SourceList(local, file), temporary.id)
    ensures OwnList(during, file, fallback, temporary.id)
    ensures forall r | r in SourceList(local, file) || r in fallback :: r.file == file
    ensures NoEmptyId(fallback)
  {
    var original := SourceList(local, file);
    var desired := original + [temporary];
    DesiredWithTemporary(local, file, temporary);
    AgreeKeepsFileAndIds(fallback, desired, file);
    SourceListMembers(local, file);
    SourceListUnique(local, file);
    forall j | 0 <= j < |original| ensures original[j].id in IdSet(SourceList(during, file)) && fallback[j].id == original[j].id {
      assert SameBreakpoint(fallback[j], desired[j]);
      assert SourceList(during, file)[j].id == original[j].id;
    }
    assert SameBreakpoint(fallback[|original|], desired[|original|]);
  }

  lemma TemporaryOnlyInFile(local: Bucket, during: Bucket, file: string, temporary: BreakpointRecord, fallback: Bucket)
    requires UniqueIds(during) && !HasId(local, temporary.id)
    requires during == local || SourceList(during, file) == fallback
    requires Agree(fallback, SourceList(local, file) + [temporary])
    ensures forall r | r in during && r.id == temporary.id :: r.file == file
  {
    var n := |SourceList(local, file)|;
    assert SameBreakpoint(fallback[n], (SourceList(local, file) + [temporary])[n]);
    SourceListMembers(during, file);
    forall r | r in during && r.id == temporary.id ensures r.file == file {
      if during != local {
        assert fallback[n] in SourceList(during, file);
        IdDetermines(during, r, fallback[n]);
      }
    }
  }

  lemma AfterInstall(a: AdapterState, local: Bucket, file: string, temporary: BreakpointRecord,
                     installed: AdapterState, during: Bucket, fallback: Bucket, success: TemporaryResult)
    requires UniqueIds(local) && !HasId(local, temporary.id) && temporary.file == file
    requires temporary.id != "" && NoEmptyId(SourceList(local, file))
    requires UniqueIds(during) && (during == local || SourceList(during, file) == fallback)
    requires Agree(fallback, SourceList(local, file) + [temporary])
    requires success.Completed? || success.CallbackFailed? || success.InstallFailed?
    ensures var (after, local', result) := Restore(installed, during, file, SourceList(local, file), fallback, success);
            && NoSilentLeak(a, local, file, temporary, after, local', result)
            && UniqueIds(local')
            && (forall f | f != file :: SourceList(local', f) == SourceList(during, f) && Holds(after, f) == Holds(installed, f))
            && result == if Acknowledges(NextReply(installed), SourceList(local, file)) then success else CleanupFailed
  {
    var original := SourceList(local, file);
    ReadyToRestore(local, during, file, temporary, fallback);
    SourceListUnique(local, file);
    TemporaryOnlyInFile(local, during, file, temporary, fallback);
    RestoreEnds(installed, during, file, original, fallback, success, temporary.id);
    var (after, local', result) := Restore(installed, during, file, original, fallback, success);
    if Acknowledges(NextReply(installed), original) {
      AgreeKeepsFileAndIds(SourceList(local', file), original, file);
    } else {
      assert SameBreakpoint(fallback[|original|], (original + [temporary])[|original|]);
    }
  }

  /** A temporary breakpoint never leaks silently, for every adapter behaviour and callback outcome, provided no record
      of its source has an empty id; and no other source is touched. */
  lemma TemporaryNeverLeaksSilently(a: AdapterState, local: Bucket, file: string, temporary: BreakpointRecord,
                                    canApply: bool, callbackSucceeds: bool)
    requires UniqueIds(local) && !HasId(local, temporary.id) && temporary.file == file
    requires temporary.id != "" && NoEmptyId(SourceList(local, file))
    ensures var (after, local', result) := TemporaryRun(a, local, file, temporary, canApply, callbackSucceeds);
            && NoSilentLeak(a, local, file, temporary, after, local', result)
            && UniqueIds(local')
            && (forall f | f != file :: SourceList(local', f) == SourceList(local, f) && Holds(after, f) == Holds(a, f))
            && (canApply ==>
                  var desired := SourceList(local, file) + [temporary];
                  var installed := Acknowledges(NextReply(a), desired);
                  result == if !Acknowledges(NextReply(Sent(a, file, desired, local)), SourceList(local, file)) then CleanupFailed
                            else if !installed then InstallFailed
                            else if callbackSucceeds then Completed else CallbackFailed)
  {
    if canApply {
      var original := SourceList(local, file);
      var desired := original + [temporary];
      var (installed, during, applied) := Install(a, local, file, desired);
      var committed := applied.Some? && Admissible(local, One(file, applied.value)) && HasId(during, temporary.id);
      InstallEnds(a, local, file, temporary);
      AfterInstall(a, local, file, temporary, installed, during, if applied.Some? then applied.value else desired,
                   if !committed then InstallFailed else if callbackSucceeds then Completed else CallbackFailed);
    }
  }

  /** With an empty id in the source list, an adapter that applies the install without acknowledging it and then
      goes silent keeps the temporary breakpoint, while the local store has no trace of it and the caller gets the store's
      complaint about the id instead of the cleanup error. No operation of the repository stores an empty id, since ids are
      generated; only a direct call of the public `add` with one does. */
  lemma TemporaryLeaksWithEmptyId(held: map<string, Bucket>, calls: seq<AdapterCall>, local: Bucket, file: string,
                                  temporary: BreakpointRecord, callbackSucceeds: bool)
    requires !NoEmptyId(SourceList(local, file))
    ensures var a := AdapterState(held, [Reply(true, None)], calls);
            var (after, local', result) := TemporaryRun(a, local, file, temporary, true, callbackSucceeds);
            result.Crashed? && local' == local && Holds(after, file) == SourceList(local, file) + [temporary]
  {
    var a := AdapterState(held, [Reply(true, None)], calls);
    var original := SourceList(local, file);
    var desired := original + [temporary];
    InstallGoesUnanswered(a, local, file, desired);
    EmptyIdIsNotAdmissible(local, file, original, temporary);
    RestoreGoesUnanswered(Install(a, local, file, desired).0, local, file, original, desired, InstallFailed);
  }

  lemma InstallGoesUnanswered(a: AdapterState, local: Bucket, file: string, desired: Bucket)
    requires a.script == [Reply(true, None)]
    ensures var (installed, during, applied) := Install(a, local, file, desired);
            during == local && applied.None? && installed.script == [] && Holds(installed, file) == desired
  {
  }

  lemma EmptyIdIsNotAdmissible(local: Bucket, file: string, original: Bucket, temporary: BreakpointRecord)
    requires !NoEmptyId(original)
    ensures !Admissible(local, One(file, original + [temporary]))
  {
    var desired := original + [temporary];
    var i :| 0 <= i < |original| && original[i].id == "";
    assert desired[i].id == "";
    FlattenOne(file, desired);
    assert Stamp(desired, file)[i].id == "";
  }

  lemma RestoreGoesUnanswered(a: AdapterState, local: Bucket, file: string, original: Bucket, fallback: Bucket, success: TemporaryResult)
    requires a.script == [] && !Admissible(local, One(file, fallback))
    ensures var (after, local', result) := Restore(a, local, file, original, fallback, success);
            result == Crashed && local' == local && Holds(after, file) == Holds(a, file)
  {
  }

  ghost predicate SafeUnder(held: map<string, Bucket>, calls: seq<AdapterCall>, local: Bucket, file: string,
                            temporary: BreakpointRecord, script: seq<Reply>, callbackSucceeds: bool)
  {
    var a := AdapterState(held, script, calls);
    var (after, local', result) := TemporaryRun(a, local, file, temporary, true, callbackSucceeds);
    NoSilentLeak(a, local, file, temporary, after, local', result)
  }

  /** Exactly when it is safe: `withTemporaryBreakpoint` never leaves the temporary record on the adapter without the
      cleanup error and a local trace, whatever the adapter and the callback do, if and only if no record of the source has
      an empty id. */
  lemma TemporarySafeIffNoEmptyId(held: map<string, Bucket>, calls: seq<AdapterCall>, local: Bucket, file: string,
                                  temporary: BreakpointRecord)
    requires UniqueIds(local) && !HasId(local, temporary.id) && temporary.file == file && temporary.id != ""
    ensures (forall script, ok :: SafeUnder(held, calls, local, file, temporary, script, ok)) <==> NoEmptyId(SourceList(local, file))
  {
    if NoEmptyId(SourceList(local, file)) {
      forall script, ok ensures SafeUnder(held, calls, local, file, temporary, script, ok) {
        TemporaryNeverLeaksSilently(AdapterState(held, script, calls), local, file, temporary, true, ok);
      }
    } else {
      TemporaryLeaksWithEmptyId(held, calls, local, file, temporary, true);
      assert !SafeUnder(held, calls, local, file, temporary, [Reply(true, None)], true);
    }
  }

  // --------------------------------------------------------------- the service

  class BreakpointReconciler {
    const breakpoints: BreakpointManager
    const adapter: DebugAdapter

    constructor (breakpoints: BreakpointManager, adapter: DebugAdapter)
      ensures this.breakpoints == breakpoints && this.adapter == adapter
    {
      this.breakpoints, this.adapter := breakpoints, adapter;
    }

    /** Snapshot every affected source and compute the list it should hold. */
    method MakeSourceStates(sessionId: string, target: BreakpointRecord, requested: BreakpointRecord, paths: seq<string>)
      returns (states: seq<SourceState>)
      ensures states == SourceStates(breakpoints.BucketOf(sessionId), target, requested, paths)
    {
      states := [];
      for i := 0 to |paths|
        invariant |states| == i
        invariant forall k | 0 <= k < i :: states[k] == StateFor(breakpoints.BucketOf(sessionId), target, requested, paths[k])
      {
        var original := breakpoints.ListSource(sessionId, paths[i]);
        states := states + [SourceState(paths[i], original, Desired(original, paths[i], target, requested))];
      }
    }

    /** The forward pass. */
    method SendDesired(sessionId: string, states: seq<SourceState>) returns (applied: Option<seq<Bucket>>)
      modifies adapter
      ensures (adapter.State(), applied) == ApplyFrom(old(adapter.State()), states, old(breakpoints.BucketOf(sessionId)), [])
    {
      ghost var local := breakpoints.BucketOf(sessionId);
      var lists: seq<Bucket> := [];
      while |lists| < |states|
        invariant |lists| <= |states|
        invariant ApplyFrom(old(adapter.State()), states, local, []) == ApplyFrom(adapter.State(), states, local, lists)
      {
        var state := states[|lists|];
        var evidence := adapter.SetBreakpoints(state.file, state.desired, local);
        if evidence.None? {
          return None;
        }
        lists := lists + [Project(state.desired, evidence.value)];
      }
      return Some(lists);
    }

    method RestoreOriginalSources(sessionId: string, states: seq<SourceState>) returns (restored: bool)
      modifies adapter
      ensures (adapter.State(), restored) == RestoreFrom(old(adapter.State()), states, old(breakpoints.BucketOf(sessionId)), 0)
    {
      ghost var local := breakpoints.BucketOf(sessionId);
      ghost var start := adapter.State();
      restored := true;
      for i := 0 to |states|
        invariant RestoreFrom(start, states, local, 0).0 == RestoreFrom(adapter.State(), states, local, i).0
        invariant RestoreFrom(start, states, local, 0).1 == (restored && RestoreFrom(adapter.State(), states, local, i).1)
      {
        var evidence := adapter.SetBreakpoints(states[i].file, states[i].original, local);
        if evidence.None? {
          restored := false;
        }
      }
    }

    /** `#updateLocked`: called with the locks of all affected sources held and the target just read. */
    method UpdateLocked(sessionId: string, target: BreakpointRecord, patch: Patch) returns (result: UpdateResult)
      requires breakpoints.Valid() && Find(breakpoints.BucketOf(sessionId), target.id) == Some(target)
      modifies breakpoints, adapter
      ensures breakpoints.Valid()
      ensures (adapter.State(), breakpoints.BucketOf(sessionId), result)
              == UpdateRun(old(adapter.State()), old(breakpoints.BucketOf(sessionId)), target, patch)
      ensures forall other | other != sessionId :: breakpoints.BucketOf(other) == old(breakpoints.BucketOf(other))
    {
      var requested, changed := ApplyPatch(target, patch);
      NoDifferenceMeansEqual(target, patch);
      if |changed| == 0 {
        return Unchanged;
      }
      var paths := AffectedSources(target, patch);
      var states := MakeSourceStates(sessionId, target, requested, paths);
      result := TransactLocked(sessionId, target, states);
    }

    /** Send every desired list, commit once, and roll back when either does not succeed. */
    method TransactLocked(sessionId: string, target: BreakpointRecord, states: seq<SourceState>) returns (result: UpdateResult)
      requires breakpoints.Valid() && states != []
      modifies breakpoints, adapter
      ensures breakpoints.Valid()
      ensures (adapter.State(), breakpoints.BucketOf(sessionId), result)
              == Transact(old(adapter.State()), old(breakpoints.BucketOf(sessionId)), target, states)
      ensures forall other | other != sessionId :: breakpoints.BucketOf(other) == old(breakpoints.BucketOf(other))
    {
      var applied := SendDesired(sessionId, states);
      var committed := false;
      if applied.Some? {
        committed := breakpoints.ReplaceSources(sessionId, Replacements(states, applied.value));
      }
      if committed {
        var current := breakpoints.Get(sessionId, target.id);
        if current.Some? {
          return Applied(current.value, Difference(target, current.value));
        }
      }
      var restored := RestoreOriginalSources(sessionId, states);
      return if restored then Restored else Indeterminate;
    }

    method ReplaceSourceWithEvidence(sessionId: string, file: string, desired: Bucket) returns (applied: Option<Bucket>)
      modifies adapter
      ensures adapter.State() == Sent(old(adapter.State()), file, desired, old(breakpoints.BucketOf(sessionId)))
      ensures applied.Some? <==> Acknowledges(NextReply(old(adapter.State())), desired)
      ensures applied.Some? ==> applied.value == Project(desired, NextReply(old(adapter.State())).evidence.value)
    {
      var evidence := adapter.SetBreakpoints(file, desired, breakpoints.BucketOf(sessionId));
      applied := if evidence.None? then None else Some(Project(desired, evidence.value));
    }

    /** `withTemporaryBreakpoint` once the lock is held; `canApply` is the outcome of the caller's precondition and
        `callbackSucceeds` that of the callback, which runs only after the temporary record is committed. */
    method WithTemporaryBreakpoint(sessionId: string, file: string, temporary: BreakpointRecord,
                                   canApply: bool, callbackSucceeds: bool)
      returns (result: TemporaryResult)
      requires breakpoints.Valid()
      modifies breakpoints, adapter
      ensures breakpoints.Valid()
      ensures (adapter.State(), breakpoints.BucketOf(sessionId), result)
              == TemporaryRun(old(adapter.State()), old(breakpoints.BucketOf(sessionId)), file, temporary, canApply, callbackSucceeds)
      ensures !canApply ==> result.Refused? && adapter.State() == old(adapter.State())
                            && breakpoints.BucketOf(sessionId) == old(breakpoints.BucketOf(sessionId))
      ensures forall other | other != sessionId :: breakpoints.BucketOf(other) == old(breakpoints.BucketOf(other))
    {
      var original := breakpoints.ListSource(sessionId, file);
      var desired := original + [temporary];
      if !canApply {
        return Refused;
      }
      var committed: Option<BreakpointRecord> := None;
      var applied := ReplaceSourceWithEvidence(sessionId, file, desired);
      if applied.Some? {
        var installed := breakpoints.ReplaceSources(sessionId, One(file, applied.value));
        if installed {
          committed := breakpoints.Get(sessionId, temporary.id);
        }
      }
      result := RestoreAfterCallback(sessionId, file, original, if applied.Some? then applied.value else desired,
                                     if committed.None? then InstallFailed
                                     else if callbackSucceeds then Completed else CallbackFailed);
    }

    /** The cleanup half of `withTemporaryBreakpoint`. */
    method RestoreAfterCallback(sessionId: string, file: string, original: Bucket, fallback: Bucket, success: TemporaryResult)
      returns (result: TemporaryResult)
      requires breakpoints.Valid()
      modifies breakpoints, adapter
      ensures breakpoints.Valid()
      ensures (adapter.State(), breakpoints.BucketOf(sessionId), result)
              == Restore(old(adapter.State()), old(breakpoints.BucketOf(sessionId)), file, original, fallback, success)
      ensures forall other | other != sessionId :: breakpoints.BucketOf(other) == old(breakpoints.BucketOf(other))
    {
      var restored := ReplaceSourceWithEvidence(sessionId, file, original);
      if restored.Some? {
        var done := breakpoints.ReplaceSources(sessionId, One(file, restored.value));
        if done {
          return success;
        }
      }
      var recorded := breakpoints.ReplaceSources(sessionId, One(file, fallback));
      return if recorded then CleanupFailed else Crashed;
    }
  }
}
