/** What an update means to its caller (src/sessions/BreakpointReconciler.ts): which record a patch asks for, field by field,
    what is sent to the adapter for it, what the store shows afterwards, and what is reported as changed. */
module UpdateMeaning {
  import opened Basics
  import opened Breakpoints
  import opened Reconciler

  // ------------------------------------------------------------------ what is asked

  predicate ColumnAsked(change: Change<int>, before: Option<int>, after: Option<int>)
  {
    && (change.Keep? ==> after == before)
    && (change.Clear? ==> after == None)
    && (change.Set? ==> after == Some(change.value))
  }

  predicate TextAsked(change: Change<string>, before: Text, after: Text)
  {
    && (change.Keep? ==> after == before)
    && (change.Clear? ==> after == Absent)
    && (change.Set? ==> after == Text(change.value))
  }

  predicate Asked(patch: Patch, target: BreakpointRecord, wanted: BreakpointRecord)
  {
    && (patch.file.Some? ==> wanted.file == patch.file.value) && (patch.file.None? ==> wanted.file == target.file)
    && (patch.line.Some? ==> wanted.line == patch.line.value) && (patch.line.None? ==> wanted.line == target.line)
    && (patch.enabled.Some? ==> wanted.enabled == patch.enabled.value) && (patch.enabled.None? ==> wanted.enabled == target.enabled)
    && ColumnAsked(patch.column, target.column, wanted.column)
    && TextAsked(patch.condition, target.condition, wanted.condition)
    && TextAsked(patch.hitCondition, target.hitCondition, wanted.hitCondition)
    && TextAsked(patch.logMessage, target.logMessage, wanted.logMessage)
    && wanted.id == target.id && wanted.temporary == target.temporary && wanted.owner == target.owner && wanted.details == target.details
    && wanted.verified == target.verified && wanted.message == target.message && wanted.adapterBreakpointId == target.adapterBreakpointId
  }

  predicate TextThere(change: Change<string>, current: Text)
  {
    (change.Clear? ==> current == Absent) && (change.Set? ==> current == Text(change.value))
  }

  /** Every field the patch has already has its value. */
  predicate AlreadyThere(patch: Patch, target: BreakpointRecord)
  {
    && (patch.file.Some? ==> target.file == patch.file.value)
    && (patch.line.Some? ==> target.line == patch.line.value)
    && (patch.enabled.Some? ==> target.enabled == patch.enabled.value)
    && (patch.column.Clear? ==> target.column == None) && (patch.column.Set? ==> target.column == Some(patch.column.value))
    && TextThere(patch.condition, target.condition)
    && TextThere(patch.hitCondition, target.hitCondition)
    && TextThere(patch.logMessage, target.logMessage)
  }

  lemma PatchedIsAsked(patch: Patch, target: BreakpointRecord)
    ensures Asked(patch, target, Patched(target, patch))
    ensures Patched(target, patch) == target <==> AlreadyThere(patch, target)
  {
  }

  // ------------------------------------------------------------------- what is sent

  /** The source's list with the target replaced at its place, cut out, or put at the end. */
  ghost predicate Carries(local: Bucket, target: BreakpointRecord, wanted: BreakpointRecord, file: string, sent: Bucket)
  {
    var before := SourceList(local, file);
    && (file == target.file || file == wanted.file)
    && (file == target.file == wanted.file ==> exists k :: 0 <= k < |before| && before[k] == target && sent == before[k := wanted])
    && (file == target.file != wanted.file ==> exists k :: 0 <= k < |before| && before[k] == target && sent == before[..k] + before[k + 1..])
    && (file != target.file ==> sent == before + [wanted])
  }

  ghost predicate CallCarries(local: Bucket, target: BreakpointRecord, wanted: BreakpointRecord, call: AdapterCall)
  {
    Carries(local, target, wanted, call.file, call.sent)
  }

  ghost predicate CallPutsBack(local: Bucket, call: AdapterCall)
  {
    call.sent == SourceList(local, call.file)
  }

  lemma {:induction false} NothingToCut(records: Bucket, id: string)
    requires forall i | 0 <= i < |records| :: records[i].id != id
    ensures WithoutId(records, id) == records
  {
    if records != [] {
      NothingToCut(records[1..], id);
    }
  }

  lemma {:induction false} CutOut(records: Bucket, k: nat)
    requires UniqueIds(records) && k < |records|
    ensures WithoutId(records, records[k].id) == records[..k] + records[k + 1..]
  {
    if k == 0 {
      NothingToCut(records[1..], records[0].id);
    } else {
      CutOut(records[1..], k - 1);
      assert records[1..][k - 1] == records[k] && records[0].id != records[k].id;
      assert records[..k] == [records[0]] + records[1..][..k - 1] && records[k + 1..] == records[1..][k..];
    }
  }

  lemma SubstitutedAtPlace(records: Bucket, k: nat, record: BreakpointRecord)
    requires UniqueIds(records) && k < |records|
    ensures Substituted(records, records[k].id, record) == records[k := record]
  {
    forall i | 0 <= i < |records| && i != k ensures records[i].id != records[k].id {
      assert i < k || k < i;
    }
  }

  lemma DesiredCarries(local: Bucket, target: BreakpointRecord, wanted: BreakpointRecord, file: string)
    requires UniqueIds(local) && target in local && wanted.id == target.id && (file == target.file || file == wanted.file)
    ensures Carries(local, target, wanted, file, Desired(SourceList(local, file), file, target, wanted))
  {
    var before := SourceList(local, file);
    SourceListMembers(local, file);
    SourceListUnique(local, file);
    if file == target.file {
      var k :| 0 <= k < |before| && before[k] == target;
      SubstitutedAtPlace(before, k, wanted);
      CutOut(before, k);
    } else {
      forall i | 0 <= i < |before| ensures before[i].id != target.id {
        assert before[i] in before;
        if before[i].id == target.id { IdDetermines(local, before[i], target); }
      }
      NothingToCut(before, target.id);
    }
  }

  /** The calls of the forward pass, from the `k`-th state to the `n`-th. */
  function ForwardCalls(states: seq<SourceState>, local: Bucket, k: nat, n: nat): (r: seq<AdapterCall>)
    requires k <= n <= |states|
    ensures |r| == n - k
    decreases n - k
  {
    if k == n then [] else [AdapterCall(states[k].file, states[k].desired, local)] + ForwardCalls(states, local, k + 1, n)
  }

  function BackCalls(states: seq<SourceState>, local: Bucket, k: nat): (r: seq<AdapterCall>)
    requires k <= |states|
    ensures |r| == |states| - k
    decreases |states| - k
  {
    if k == |states| then [] else [AdapterCall(states[k].file, states[k].original, local)] + BackCalls(states, local, k + 1)
  }

  lemma OneMoreCall(before: seq<AdapterCall>, call: AdapterCall, rest: seq<AdapterCall>)
    ensures before + ([call] + rest) == (before + [call]) + rest
    ensures rest == [] ==> before + ([call] + rest) == before + [call]
  {
  }

  lemma {:induction false} ApplyFromSends(a: AdapterState, states: seq<SourceState>, local: Bucket, applied: seq<Bucket>) returns (n: nat)
    requires |applied| <= |states|
    ensures |applied| <= n <= |states| && (|applied| < |states| ==> |applied| < n)
    ensures ApplyFrom(a, states, local, applied).0.calls == a.calls + ForwardCalls(states, local, |applied|, n)
    ensures ApplyFrom(a, states, local, applied).1.Some? ==> n == |states|
    decreases |states| - |applied|
  {
    var k := |applied|;
    n := k;
    if k < |states| {
      var sent := Sent(a, states[k].file, states[k].desired, local);
      var call := AdapterCall(states[k].file, states[k].desired, local);
      if Acknowledges(NextReply(a), states[k].desired) {
        n := ApplyFromSends(sent, states, local, applied + [Project(states[k].desired, NextReply(a).evidence.value)]);
        OneMoreCall(a.calls, call, ForwardCalls(states, local, k + 1, n));
      } else {
        n := k + 1;
        OneMoreCall(a.calls, call, ForwardCalls(states, local, n, n));
      }
    }
  }

  lemma {:induction false} RestoreFromSends(a: AdapterState, states: seq<SourceState>, local: Bucket, next: nat)
    requires next <= |states|
    ensures RestoreFrom(a, states, local, next).0.calls == a.calls + BackCalls(states, local, next)
    decreases |states| - next
  {
    if next < |states| {
      var call := AdapterCall(states[next].file, states[next].original, local);
      RestoreFromSends(Sent(a, states[next].file, states[next].original, local), states, local, next + 1);
      OneMoreCall(a.calls, call, BackCalls(states, local, next + 1));
    }
  }

  /** The states carry the update's lists and the lists to put back. */
  ghost predicate StatesCarry(local: Bucket, target: BreakpointRecord, wanted: BreakpointRecord, states: seq<SourceState>)
  {
    forall k | 0 <= k < |states| ::
      Carries(local, target, wanted, states[k].file, states[k].desired) && states[k].original == SourceList(local, states[k].file)
  }

  lemma {:induction false} ForwardCallAt(states: seq<SourceState>, local: Bucket, k: nat, n: nat, j: nat)
    requires k <= j < n <= |states|
    ensures ForwardCalls(states, local, k, n)[j - k] == AdapterCall(states[j].file, states[j].desired, local)
    decreases n - k
  {
    if k < j {
      ForwardCallAt(states, local, k + 1, n, j);
    }
  }

  lemma {:induction false} BackCallAt(states: seq<SourceState>, local: Bucket, k: nat, j: nat)
    requires k <= j < |states|
    ensures BackCalls(states, local, k)[j - k] == AdapterCall(states[j].file, states[j].original, local)
    decreases |states| - k
  {
    if k < j {
      BackCallAt(states, local, k + 1, j);
    }
  }

  lemma StatesOfCarry(local: Bucket, target: BreakpointRecord, patch: Patch)
    requires UniqueIds(local) && target in local
    ensures StatesCarry(local, target, Patched(target, patch), StatesOf(local, target, patch))
    ensures |StatesOf(local, target, patch)| > 0
    ensures StateFiles(StatesOf(local, target, patch)) == {target.file, Patched(target, patch).file}
  {
    var paths, states := AffectedSources(target, patch), StatesOf(local, target, patch);
    AffectedSourcesAreSorted(target, patch);
    StatesOfFiles(local, target, patch);
    forall k | 0 <= k < |states|
      ensures Carries(local, target, Patched(target, patch), states[k].file, states[k].desired)
    {
      assert paths[k] in paths;
      DesiredCarries(local, target, Patched(target, patch), paths[k]);
    }
  }

  // -------------------------------------------------------------- what comes of it

  /** A record after its evidence: the response decides what it states, the rest is as sent. */
  predicate Answered(record: BreakpointRecord, sent: BreakpointRecord, response: DapBreakpoint)
  {
    && record.verified == response.verified
    && (response.message.Some? ==> record.message == response.message) && (response.message.None? ==> record.message == sent.message)
    && (response.id.Some? ==> record.adapterBreakpointId == response.id)
    && (response.id.None? ==> record.adapterBreakpointId == sent.adapterBreakpointId)
    && (response.line.Some? ==> record.line == response.line.value) && (response.line.None? ==> record.line == sent.line)
    && (response.column.Some? ==> record.column == response.column) && (response.column.None? ==> record.column == sent.column)
    && record.id == sent.id && record.file == sent.file && record.enabled == sent.enabled && record.temporary == sent.temporary
    && record.condition == sent.condition && record.hitCondition == sent.hitCondition && record.logMessage == sent.logMessage
    && record.owner == sent.owner && record.details == sent.details
  }

  /** A list after its evidence, position by position. */
  predicate AllAnswered(records: Bucket, sent: Bucket, reply: Reply)
  {
    && reply.evidence.Some? && |records| == |sent| == |reply.evidence.value|
    && forall k | 0 <= k < |sent| :: Answered(records[k], sent[k], reply.evidence.value[k])
  }

  lemma ProjectionIsAnswered(sent: Bucket, reply: Reply)
    requires Acknowledges(reply, sent)
    ensures AllAnswered(Project(sent, reply.evidence.value), sent, reply)
  {
  }

  predicate Differs(field: PatchField, previous: BreakpointRecord, current: BreakpointRecord)
  {
    match field
    case FilePath => previous.file != current.file
    case Line => previous.line != current.line
    case Column => previous.column != current.column
    case Condition => previous.condition != current.condition
    case HitCondition => previous.hitCondition != current.hitCondition
    case LogMessage => previous.logMessage != current.logMessage
    case Enabled => previous.enabled != current.enabled
  }

  function Rank(field: PatchField): (r: nat)
  {
    match field
    case FilePath => 0
    case Line => 1
    case Column => 2
    case Condition => 3
    case HitCondition => 4
    case LogMessage => 5
    case Enabled => 6
  }

  /** Fields of the given ranks, each once, in order, and exactly those that differ. */
  ghost predicate Reports(changed: seq<PatchField>, previous: BreakpointRecord, current: BreakpointRecord, low: nat, high: nat)
  {
    && (forall f :: f in changed <==> low <= Rank(f) < high && Differs(f, previous, current))
    && (forall i, j | 0 <= i < j < |changed| :: Rank(changed[i]) < Rank(changed[j]))
  }

  lemma ReportsInParts(a: seq<PatchField>, b: seq<PatchField>, previous: BreakpointRecord, current: BreakpointRecord, low: nat, mid: nat, high: nat)
    requires low <= mid <= high && Reports(a, previous, current, low, mid) && Reports(b, previous, current, mid, high)
    ensures Reports(a + b, previous, current, low, high)
  {
    forall i, j | 0 <= i < j < |a + b| ensures Rank((a + b)[i]) < Rank((a + b)[j]) {
      if i < |a| <= j {
        assert (a + b)[i] in a && (a + b)[j] in b;
      }
    }
  }

  lemma PositionIsReported(previous: BreakpointRecord, current: BreakpointRecord)
    ensures Reports(PositionDifference(previous, current), previous, current, 0, 3)
  {
  }

  lemma TextIsReported(previous: BreakpointRecord, current: BreakpointRecord)
    ensures Reports(TextDifference(previous, current), previous, current, 3, 6)
  {
  }

  /** The reported fields are those that differ, in the documented order. */
  lemma DifferenceIsReported(previous: BreakpointRecord, current: BreakpointRecord)
    ensures Reports(Difference(previous, current), previous, current, 0, 7)
  {
    PositionIsReported(previous, current);
    TextIsReported(previous, current);
    ReportsInParts(PositionDifference(previous, current), TextDifference(previous, current), previous, current, 0, 3, 6);
    var last := if previous.enabled != current.enabled then [Enabled] else [];
    assert Reports(last, previous, current, 6, 7);
    ReportsInParts(PositionDifference(previous, current) + TextDifference(previous, current), last, previous, current, 0, 6, 7);
  }

  /** The calls made since the given ones. */
  ghost function Made(before: AdapterState, after: AdapterState): (r: seq<AdapterCall>)
  {
    if before.calls <= after.calls then after.calls[|before.calls|..] else []
  }

  /** What the adapter is told: nothing when nothing is to be done, otherwise the new lists, and lists put back only after them. */
  ghost predicate Told(local: Bucket, target: BreakpointRecord, wanted: BreakpointRecord, made: seq<AdapterCall>, result: UpdateResult)
  {
    && (result.Unchanged? <==> made == [])
    && (made != [] ==> CallCarries(local, target, wanted, made[0]))
    && (forall i | 0 <= i < |made| :: CallCarries(local, target, wanted, made[i]) || (CallPutsBack(local, made[i]) && !result.Applied?))
    && (result.Applied? ==> Covered(made, target.file) && Covered(made, wanted.file))
  }

  ghost predicate Covered(made: seq<AdapterCall>, file: string)
  {
    exists i :: 0 <= i < |made| && made[i].file == file
  }

  lemma {:induction false} ApplyFromMade(a: AdapterState, states: seq<SourceState>, local: Bucket, target: BreakpointRecord, wanted: BreakpointRecord)
    returns (n: nat)
    requires StatesCarry(local, target, wanted, states) && states != []
    ensures 0 < n <= |states|
    ensures ApplyFrom(a, states, local, []).0.calls == a.calls + ForwardCalls(states, local, 0, n)
    ensures forall i | 0 <= i < n :: CallCarries(local, target, wanted, ForwardCalls(states, local, 0, n)[i])
                                     && ForwardCalls(states, local, 0, n)[i].file == states[i].file
    ensures ApplyFrom(a, states, local, []).1.Some? ==> n == |states|
  {
    n := ApplyFromSends(a, states, local, []);
    forall i | 0 <= i < n ensures CallCarries(local, target, wanted, ForwardCalls(states, local, 0, n)[i])
                                  && ForwardCalls(states, local, 0, n)[i].file == states[i].file
    {
      ForwardCallAt(states, local, 0, n, i);
    }
  }

  /** The forward calls, and if need be the calls that put the original lists back. */
  lemma CallsAreTold(states: seq<SourceState>, local: Bucket, target: BreakpointRecord, wanted: BreakpointRecord,
                     n: nat, made: seq<AdapterCall>, result: UpdateResult)
    requires StatesCarry(local, target, wanted, states) && 0 < n <= |states| && !result.Unchanged?
    requires StateFiles(states) == {target.file, wanted.file}
    requires forall i | 0 <= i < n :: CallCarries(local, target, wanted, ForwardCalls(states, local, 0, n)[i])
                                      && ForwardCalls(states, local, 0, n)[i].file == states[i].file
    requires if result.Applied? then n == |states| && made == ForwardCalls(states, local, 0, n)
             else made == ForwardCalls(states, local, 0, n) + BackCalls(states, local, 0)
    ensures Told(local, target, wanted, made, result)
  {
    var forward := ForwardCalls(states, local, 0, n);
    forall i | 0 <= i < |made| ensures CallCarries(local, target, wanted, made[i]) || (CallPutsBack(local, made[i]) && !result.Applied?) {
      if i >= n {
        BackCallAt(states, local, 0, i - n);
        assert made[i] == BackCalls(states, local, 0)[i - n];
      } else {
        assert made[i] == forward[i];
      }
    }
    if result.Applied? {
      forall file | file == target.file || file == wanted.file ensures Covered(made, file) {
        assert file in StateFiles(states);
        var i :| 0 <= i < |states| && states[i].file == file;
        assert made[i].file == file;
      }
    }
  }

  lemma MadeSince(before: AdapterState, after: AdapterState, made: seq<AdapterCall>)
    requires after.calls == before.calls + made
    ensures Made(before, after) == made
  {
  }

  lemma CommitTells(a: AdapterState, local: Bucket, target: BreakpointRecord, wanted: BreakpointRecord, states: seq<SourceState>,
                    sent: AdapterState, applied: seq<Bucket>)
    requires UniqueIds(local) && wanted.id == target.id && Plan(local, wanted, states)
    requires StatesCarry(local, target, wanted, states) && states != [] && StateFiles(states) == {target.file, wanted.file}
    requires ApplyFrom(a, states, local, []) == (sent, Some(applied)) && Admissible(local, Replacements(states, applied))
    ensures var (after, local', result) := Transact(a, local, target, states);
            result.Applied? && Told(local, target, wanted, Made(a, after), result)
  {
    var n := ApplyFromMade(a, states, local, target, wanted);
    ApplyFromEffect(a, states, local, []);
    CommitFindsTheTarget(local, wanted, states, sent, applied);
    var forward := ForwardCalls(states, local, 0, n);
    MadeSince(a, sent, forward);
    CallsAreTold(states, local, target, wanted, n, forward, Transact(a, local, target, states).2);
  }

  lemma RollbackMakes(a: AdapterState, local: Bucket, states: seq<SourceState>, forward: seq<AdapterCall>)
    requires ApplyFrom(a, states, local, []).0.calls == a.calls + forward
    ensures var (after, local', result) := Rollback(ApplyFrom(a, states, local, []).0, states, local);
            (result.Restored? || result.Indeterminate?) && Made(a, after) == forward + BackCalls(states, local, 0)
  {
    var sent := ApplyFrom(a, states, local, []).0;
    var back := BackCalls(states, local, 0);
    RestoreFromSends(sent, states, local, 0);
    assert (a.calls + forward) + back == a.calls + (forward + back);
    MadeSince(a, RestoreFrom(sent, states, local, 0).0, forward + back);
  }

  lemma RollbackTells(a: AdapterState, local: Bucket, target: BreakpointRecord, wanted: BreakpointRecord, states: seq<SourceState>)
    requires StatesCarry(local, target, wanted, states) && states != [] && StateFiles(states) == {target.file, wanted.file}
    ensures var (after, local', result) := Rollback(ApplyFrom(a, states, local, []).0, states, local);
            (result.Restored? || result.Indeterminate?) && Told(local, target, wanted, Made(a, after), result)
  {
    var n := ApplyFromMade(a, states, local, target, wanted);
    var forward := ForwardCalls(states, local, 0, n);
    RollbackMakes(a, local, states, forward);
    var (after, local', result) := Rollback(ApplyFrom(a, states, local, []).0, states, local);
    CallsAreTold(states, local, target, wanted, n, Made(a, after), result);
  }

  lemma TransactTells(a: AdapterState, local: Bucket, target: BreakpointRecord, wanted: BreakpointRecord, states: seq<SourceState>)
    requires UniqueIds(local) && wanted.id == target.id && Plan(local, wanted, states)
    requires StatesCarry(local, target, wanted, states) && states != [] && StateFiles(states) == {target.file, wanted.file}
    ensures var (after, local', result) := Transact(a, local, target, states);
            !result.Unchanged? && Told(local, target, wanted, Made(a, after), result)
  {
    var (sent, applied) := ApplyFrom(a, states, local, []);
    if applied.Some? && Admissible(local, Replacements(states, applied.value)) {
      CommitTells(a, local, target, wanted, states, sent, applied.value);
    } else {
      RollbackTells(a, local, target, wanted, states);
    }
  }

  /** The store after an applied update: every list that was sent, as its reply answers it; the target as asked for, but for
      what the adapter's answer states; and the fields in which it then differs, in order. */
  ghost predicate Shown(local': Bucket, target: BreakpointRecord, wanted: BreakpointRecord, made: seq<AdapterCall>, script: seq<Reply>,
                        current: BreakpointRecord, changed: seq<PatchField>)
  {
    && |made| <= |script|
    && (forall i | 0 <= i < |made| :: AllAnswered(SourceList(local', made[i].file), made[i].sent, script[i]))
    && (exists response :: Answered(current, wanted, response))
    && current in local' && current.file == wanted.file && current.id == wanted.id
    && Reports(changed, target, current, 0, 7)
  }

  lemma {:induction false} ApplyFromProjects(a: AdapterState, states: seq<SourceState>, local: Bucket, applied: seq<Bucket>, j: nat)
    requires |applied| <= |states| && ApplyFrom(a, states, local, applied).1.Some?
    ensures |a.script| >= |states| - |applied|
    ensures j < |applied| ==> ApplyFrom(a, states, local, applied).1.value[j] == applied[j]
    ensures |applied| <= j < |states| ==>
              var reply := a.script[j - |applied|];
              Acknowledges(reply, states[j].desired)
              && ApplyFrom(a, states, local, applied).1.value[j] == Project(states[j].desired, reply.evidence.value)
    decreases |states| - |applied|
  {
    var k := |applied|;
    if k < |states| {
      var next := applied + [Project(states[k].desired, NextReply(a).evidence.value)];
      ApplyFromProjects(Sent(a, states[k].file, states[k].desired, local), states, local, next, j);
    }
  }

  /** After a commit every source shows its applied list. */
  ghost predicate Installed(local': Bucket, states: seq<SourceState>, applied: seq<Bucket>)
  {
    && UniqueIds(local') && |applied| == |states|
    && forall i | 0 <= i < |states| :: SourceList(local', states[i].file) == applied[i]
  }

  lemma CommitInstalls(a: AdapterState, local: Bucket, wanted: BreakpointRecord, states: seq<SourceState>, sent: AdapterState, applied: seq<Bucket>)
    requires UniqueIds(local) && Plan(local, wanted, states)
    requires ApplyFrom(a, states, local, []) == (sent, Some(applied)) && Admissible(local, Replacements(states, applied))
    ensures Installed(Replaced(local, Replacements(states, applied)), states, applied)
  {
    ApplyFromEffect(a, states, local, []);
    CommittedLists(local, wanted, states, sent, applied);
    ReplacementKeepsIdsUnique(local, Replacements(states, applied));
  }

  /** The target's own record in the store after a commit. */
  lemma CommitAnswersTarget(a: AdapterState, local: Bucket, local': Bucket, wanted: BreakpointRecord, states: seq<SourceState>, applied: seq<Bucket>, t: nat)
    requires Installed(local', states, applied) && ApplyFrom(a, states, local, []).1 == Some(applied)
    requires t < |states| && wanted in states[t].desired
    ensures var current := Find(local', wanted.id);
            current.Some? && current.value in local' && exists response :: Answered(current.value, wanted, response)
  {
    var k :| 0 <= k < |states[t].desired| && states[t].desired[k] == wanted;
    ApplyFromProjects(a, states, local, [], t);
    AnsweredAt(states[t].desired, a.script[t], k);
    IsFoundInList(local', states[t].file, applied[t], k, wanted.id);
  }

  lemma AnsweredAt(sent: Bucket, reply: Reply, k: nat)
    requires Acknowledges(reply, sent) && k < |sent|
    ensures var record := Project(sent, reply.evidence.value)[k];
            record.id == sent[k].id && exists response :: Answered(record, sent[k], response)
  {
    assert Answered(Project(sent, reply.evidence.value)[k], sent[k], reply.evidence.value[k]);
  }

  lemma IsFoundInList(local: Bucket, file: string, records: Bucket, k: nat, id: string)
    requires UniqueIds(local) && SourceList(local, file) == records && k < |records| && records[k].id == id
    ensures Find(local, id) == Some(records[k]) && records[k] in local
  {
    assert records[k] in SourceList(local, file);
    SourceListMembers(local, file);
    CurrentIsTheMovedTarget(local, records[k], id);
  }

  lemma CommitAnswersLists(a: AdapterState, local: Bucket, local': Bucket, states: seq<SourceState>, applied: seq<Bucket>)
    requires Installed(local', states, applied) && ApplyFrom(a, states, local, []).1 == Some(applied)
    ensures |states| <= |a.script|
    ensures forall i | 0 <= i < |states| ::
              var call := ForwardCalls(states, local, 0, |states|)[i];
              AllAnswered(SourceList(local', call.file), call.sent, a.script[i])
  {
    ApplyFromProjects(a, states, local, [], 0);
    forall i | 0 <= i < |states|
      ensures var call := ForwardCalls(states, local, 0, |states|)[i];
              AllAnswered(SourceList(local', call.file), call.sent, a.script[i])
    {
      ApplyFromProjects(a, states, local, [], i);
      ForwardCallAt(states, local, 0, |states|, i);
      ProjectionIsAnswered(states[i].desired, a.script[i]);
    }
  }

  lemma CommitShows(a: AdapterState, local: Bucket, target: BreakpointRecord, wanted: BreakpointRecord, states: seq<SourceState>,
                    sent: AdapterState, applied: seq<Bucket>)
    requires UniqueIds(local) && wanted.id == target.id && Plan(local, wanted, states)
    requires ApplyFrom(a, states, local, []) == (sent, Some(applied)) && Admissible(local, Replacements(states, applied))
    ensures var (after, local', result) := Transact(a, local, target, states);
            result.Applied? && Shown(local', target, wanted, Made(a, after), a.script, result.current, result.changed)
  {
    var local' := Replaced(local, Replacements(states, applied));
    CommitInstalls(a, local, wanted, states, sent, applied);
    var t :| 0 <= t < |states| && wanted in states[t].desired;
    CommitAnswersTarget(a, local, local', wanted, states, applied, t);
    var n := ApplyFromSends(a, states, local, []);
    CommitAnswersLists(a, local, local', states, applied);
    MadeSince(a, sent, ForwardCalls(states, local, 0, |states|));
    DifferenceIsReported(target, Find(local', wanted.id).value);
  }

  /** For any adapter: there is one record a patch asks for, and the update is about that record. It is answered `Unchanged`,
      without any call, exactly when every field the patch has already has its value; otherwise the adapter is sent the
      sources' lists with that record at the target's place, cut out of the old source and put at the end of the new one;
      and when it is applied the store holds what was sent as the replies answer it, the target being that record but for
      what the reply states, and the differing fields are reported in order. */
  lemma UpdateDoesWhatIsAsked(a: AdapterState, local: Bucket, target: BreakpointRecord, patch: Patch) returns (wanted: BreakpointRecord)
    requires UniqueIds(local) && target in local
    ensures Asked(patch, target, wanted)
    ensures var (after, local', result) := UpdateRun(a, local, target, patch);
            && (result.Unchanged? <==> AlreadyThere(patch, target))
            && (result.Unchanged? ==> local' == local && after == a)
            && a.calls <= after.calls && Told(local, target, wanted, Made(a, after), result)
            && (result.Applied? ==> Shown(local', target, wanted, Made(a, after), a.script, result.current, result.changed))
  {
    wanted := Patched(target, patch);
    PatchedIsAsked(patch, target);
    if wanted != target {
      var states := StatesOf(local, target, patch);
      UpdateHasPlan(local, target, patch);
      StatesOfCarry(local, target, patch);
      TransactTells(a, local, target, wanted, states);
      CallsOnlyGrow(a, local, target, states);
      var (sent, applied) := ApplyFrom(a, states, local, []);
      if applied.Some? && Admissible(local, Replacements(states, applied.value)) {
        CommitShows(a, local, target, wanted, states, sent, applied.value);
      }
    }
  }

  lemma CallsOnlyGrow(a: AdapterState, local: Bucket, target: BreakpointRecord, states: seq<SourceState>)
    ensures a.calls <= Transact(a, local, target, states).0.calls
  {
    var (sent, applied) := ApplyFrom(a, states, local, []);
    var n := ApplyFromSends(a, states, local, []);
    RestoreFromSends(sent, states, local, 0);
    if applied.Some? && Admissible(local, Replacements(states, applied.value)) {
      RestoreFromSends(sent, states, Replaced(local, Replacements(states, applied.value)), 0);
    }
  }

  /** Two records that a patch asks for are one. */
  lemma OneIsAsked(patch: Patch, target: BreakpointRecord, one: BreakpointRecord, other: BreakpointRecord)
    requires Asked(patch, target, one) && Asked(patch, target, other)
    ensures one == other
  {
  }
}
