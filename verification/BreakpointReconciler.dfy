/** Full-source breakpoint transactions (src/sessions/BreakpointReconciler.ts): the part of a call that runs while
    it holds its source locks. The debug adapter is adversarial: it may fail at any call, and a call that failed
    may or may not have taken effect. */
module Reconciler {
  import opened Basics
  import opened Breakpoints

  // ---------------------------------------------------------------- the patch

  /** A patch field: `undefined` keeps, `null` clears, anything else sets. */
  datatype Change<T> = Keep | Clear | Set(value: T)

  datatype Patch = Patch(
    breakpointId: string,
    file: Option<string>,
    line: Option<int>,
    column: Change<int>,
    condition: Change<string>,
    hitCondition: Change<string>,
    logMessage: Change<string>,
    enabled: Option<bool>,
    owner: Option<string>)

  datatype PatchField = FilePath | Line | Column | Condition | HitCondition | LogMessage | Enabled

  function PatchedColumn(change: Change<int>, current: Option<int>): (r: Option<int>)
  {
    match change
    case Keep => current
    case Clear => None
    case Set(v) => Some(v)
  }

  function PatchedText(change: Change<string>, current: Text): (r: Text)
  {
    match change
    case Keep => current
    case Clear => Absent
    case Set(v) => Text(v)
  }

  /** What a patch asks for. */
  function Patched(target: BreakpointRecord, patch: Patch): (r: BreakpointRecord)
    ensures r.id == target.id
  {
    target.(
      file := if patch.file.Some? then patch.file.value else target.file,
      line := if patch.line.Some? then patch.line.value else target.line,
      column := PatchedColumn(patch.column, target.column),
      condition := PatchedText(patch.condition, target.condition),
      hitCondition := PatchedText(patch.hitCondition, target.hitCondition),
      logMessage := PatchedText(patch.logMessage, target.logMessage),
      enabled := if patch.enabled.Some? then patch.enabled.value else target.enabled)
  }

  function PositionDifference(previous: BreakpointRecord, current: BreakpointRecord): (r: seq<PatchField>)
  {
    (if previous.file != current.file then [FilePath] else [])
    + (if previous.line != current.line then [Line] else [])
    + (if previous.column != current.column then [Column] else [])
  }

  function TextDifference(previous: BreakpointRecord, current: BreakpointRecord): (r: seq<PatchField>)
  {
    (if previous.condition != current.condition then [Condition] else [])
    + (if previous.hitCondition != current.hitCondition then [HitCondition] else [])
    + (if previous.logMessage != current.logMessage then [LogMessage] else [])
  }

  /** The patchable fields in which two records differ, in the order the source reports them. */
  function Difference(previous: BreakpointRecord, current: BreakpointRecord): (r: seq<PatchField>)
  {
    PositionDifference(previous, current)
    + TextDifference(previous, current)
    + (if previous.enabled != current.enabled then [Enabled] else [])
  }

  /** No field is reported changed exactly when the patched record is the record. */
  lemma NoDifferenceMeansEqual(target: BreakpointRecord, patch: Patch)
    ensures Difference(target, Patched(target, patch)) == [] <==> Patched(target, patch) == target
  {
  }

  method PatchText(change: Change<string>, current: Text, field: PatchField)
    returns (text: Text, changed: seq<PatchField>)
    ensures text == PatchedText(change, current)
    ensures changed == if text != current then [field] else []
  {
    text, changed := current, [];
    if change != Keep {
      var value := if change == Clear then Absent else Text(change.value);
      if value != current {
        text, changed := value, [field];
      }
    }
  }

  method PatchPosition(target: BreakpointRecord, patch: Patch)
    returns (current: BreakpointRecord, changed: seq<PatchField>)
    ensures current == target.(file := Patched(target, patch).file, line := Patched(target, patch).line,
                               column := Patched(target, patch).column)
    ensures changed == PositionDifference(target, current)
  {
    current := target;
    changed := [];
    if patch.file.Some? && patch.file.value != current.file {
      current := current.(file := patch.file.value);
      changed := changed + [FilePath];
    }
    if patch.line.Some? && patch.line.value != current.line {
      current := current.(line := patch.line.value);
      changed := changed + [Line];
    }
    if patch.column != Keep {
      var column := if patch.column == Clear then None else Some(patch.column.value);
      if column != current.column {
        current := current.(column := column);
        changed := changed + [Column];
      }
    }
  }

  method PatchTexts(target: BreakpointRecord, patch: Patch)
    returns (current: BreakpointRecord, changed: seq<PatchField>)
    ensures current == target.(condition := PatchedText(patch.condition, target.condition),
                               hitCondition := PatchedText(patch.hitCondition, target.hitCondition),
                               logMessage := PatchedText(patch.logMessage, target.logMessage))
    ensures changed == TextDifference(target, current)
  {
    var condition, conditionChanged := PatchText(patch.condition, target.condition, Condition);
    var hitCondition, hitChanged := PatchText(patch.hitCondition, target.hitCondition, HitCondition);
    var logMessage, logChanged := PatchText(patch.logMessage, target.logMessage, LogMessage);
    current := target.(condition := condition, hitCondition := hitCondition, logMessage := logMessage);
    changed := conditionChanged + hitChanged + logChanged;
  }

  /** Edits a copy field by field, collecting the fields that changed. */
  method ApplyPatch(target: BreakpointRecord, patch: Patch)
    returns (current: BreakpointRecord, changed: seq<PatchField>)
    ensures current == Patched(target, patch)
    ensures changed == Difference(target, current)
  {
    var moved, movedFields := PatchPosition(target, patch);
    var edited, editedFields := PatchTexts(moved, patch);
    assert editedFields == TextDifference(target, edited) && movedFields == PositionDifference(target, edited);
    current, changed := edited, movedFields + editedFields;
    if patch.enabled.Some? && patch.enabled.value != current.enabled {
      current := current.(enabled := patch.enabled.value);
      changed := changed + [Enabled];
    } else {
      assert changed + [] == changed;
    }
  }

  // ------------------------------------------------- sources and desired lists

  /** The one or two sources an update touches, sorted and without duplicates. */
  function AffectedSources(target: BreakpointRecord, patch: Patch): (r: seq<string>)
  {
    var newFile := if patch.file.Some? then patch.file.value else target.file;
    if newFile == target.file then [target.file]
    else if Less(target.file, newFile) then [target.file, newFile]
    else [newFile, target.file]
  }

  lemma AffectedSourcesAreSorted(target: BreakpointRecord, patch: Patch)
    ensures var r := AffectedSources(target, patch);
            && (forall f :: f in r <==> f == target.file || f == Patched(target, patch).file)
            && (forall i, j | 0 <= i < j < |r| :: Less(r[i], r[j]) && r[i] != r[j])
  {
    LessIsTotal(target.file, Patched(target, patch).file);
    var r := AffectedSources(target, patch);
    if |r| == 2 {
      LessIsStrict(r[0], r[1]);
    }
  }

  datatype SourceState = SourceState(file: string, original: Bucket, desired: Bucket)

  /** The records of a list but the one with the given id. */
  function WithoutId(records: Bucket, id: string): (r: Bucket)
  {
    if records == [] then []
    else if records[0].id == id then WithoutId(records[1..], id)
    else [records[0]] + WithoutId(records[1..], id)
  }

  function Substituted(records: Bucket, id: string, record: BreakpointRecord): (r: Bucket)
    ensures |r| == |records|
    ensures forall i | 0 <= i < |r| :: r[i] == if records[i].id == id then record else records[i]
  {
    seq(|records|, i requires 0 <= i < |records| => if records[i].id == id then record else records[i])
  }

  /** The list one source should hold once the target has become `requested`. */
  function Desired(original: Bucket, file: string, target: BreakpointRecord, requested: BreakpointRecord): (r: Bucket)
  {
    if target.file == requested.file then Substituted(original, target.id, requested)
    else if file == target.file then WithoutId(original, target.id)
    else WithoutId(original, target.id) + [requested]
  }

  function StateFor(bucket: Bucket, target: BreakpointRecord, requested: BreakpointRecord, file: string): (r: SourceState)
  {
    SourceState(file, SourceList(bucket, file), Desired(SourceList(bucket, file), file, target, requested))
  }

  function SourceStates(bucket: Bucket, target: BreakpointRecord, requested: BreakpointRecord, paths: seq<string>)
    : (r: seq<SourceState>)
    ensures |r| == |paths|
    ensures forall i | 0 <= i < |r| :: r[i] == StateFor(bucket, target, requested, paths[i])
  {
    seq(|paths|, i requires 0 <= i < |paths| => StateFor(bucket, target, requested, paths[i]))
  }

  // ------------------------------------------------------------------ evidence

  datatype DapBreakpoint = DapBreakpoint(
    verified: bool,
    id: Option<int>,
    message: Option<string>,
    line: Option<int>,
    column: Option<int>)

  /** What one adapter call does: whether it took effect, and what it answered. `None` stands for a rejected
      call and for an answer that is not an array of plain breakpoint objects. */
  datatype Reply = Reply(applied: bool, evidence: Option<seq<DapBreakpoint>>)

  /** Evidence counts only if it is complete: one entry for each breakpoint sent. */
  predicate Acknowledges(reply: Reply, desired: Bucket)
  {
    reply.evidence.Some? && |reply.evidence.value| == |desired|
  }

  function ProjectOne(record: BreakpointRecord, response: DapBreakpoint): (r: BreakpointRecord)
  {
    record.(
      verified := response.verified,
      message := if response.message.Some? then response.message else record.message,
      adapterBreakpointId := if response.id.Some? then response.id else record.adapterBreakpointId,
      line := if response.line.Some? then response.line.value else record.line,
      column := if response.column.Some? then response.column else record.column)
  }

  function Project(desired: Bucket, evidence: seq<DapBreakpoint>): (r: Bucket)
    requires |evidence| == |desired|
    ensures |r| == |desired|
    ensures forall i | 0 <= i < |r| :: r[i] == ProjectOne(desired[i], evidence[i])
  {
    seq(|desired|, i requires 0 <= i < |desired| => ProjectOne(desired[i], evidence[i]))
  }

  /** Equal in everything the adapter's evidence cannot change. */
  ghost predicate SameBreakpoint(a: BreakpointRecord, b: BreakpointRecord)
  {
    a == b.(line := a.line, column := a.column, verified := a.verified, message := a.message,
            adapterBreakpointId := a.adapterBreakpointId)
  }

  /** Same breakpoints in the same order, up to line, column and evidence. */
  ghost predicate Agree(a: Bucket, b: Bucket)
  {
    |a| == |b| && forall i | 0 <= i < |a| :: SameBreakpoint(a[i], b[i])
  }

  function Ids(records: Bucket): (r: seq<string>)
    ensures |r| == |records|
    ensures forall i | 0 <= i < |r| :: r[i] == records[i].id
  {
    seq(|records|, i requires 0 <= i < |records| => records[i].id)
  }

  // ------------------------------------------------------------------- adapter

  /** One call as the adapter sees it, with the local bucket at that moment. */
  datatype AdapterCall = AdapterCall(file: string, sent: Bucket, local: Bucket)

  /** The adapter: the list it really holds for each source, the behaviour it will show, and the calls so far. */
  datatype AdapterState = AdapterState(held: map<string, Bucket>, script: seq<Reply>, calls: seq<AdapterCall>)

  function Holds(a: AdapterState, file: string): (r: Bucket)
  {
    if file in a.held then a.held[file] else []
  }

  /** A script that has run out answers like a dead adapter. */
  function NextReply(a: AdapterState): (r: Reply)
  {
    if a.script == [] then Reply(false, None) else a.script[0]
  }

  /** A call that is acknowledged has been applied; any other call may or may not have been. */
  function Sent(a: AdapterState, file: string, records: Bucket, local: Bucket): (r: AdapterState)
  {
    AdapterState(
      if NextReply(a).applied || Acknowledges(NextReply(a), records) then a.held[file := records] else a.held,
      if a.script == [] then [] else a.script[1..],
      a.calls + [AdapterCall(file, records, local)])
  }

  class DebugAdapter {
    var held: map<string, Bucket>
    var script: seq<Reply>
    ghost var calls: seq<AdapterCall>

    ghost function State(): AdapterState
      reads this
    {
      AdapterState(held, script, calls)
    }

    constructor (held: map<string, Bucket>, script: seq<Reply>)
      ensures State() == AdapterState(held, script, [])
    {
      this.held, this.script := held, script;
      calls := [];
    }

    /** Send one source list and normalise the answer: `None` when there is no complete evidence. `local` is the
        bucket at the time of the call, recorded for the specification only. */
    method SetBreakpoints(file: string, records: Bucket, ghost local: Bucket)
      returns (evidence: Option<seq<DapBreakpoint>>)
      modifies this
      ensures State() == Sent(old(State()), file, records, local)
      ensures evidence.Some? <==> Acknowledges(NextReply(old(State())), records)
      ensures evidence.Some? ==> evidence == NextReply(old(State())).evidence && |evidence.value| == |records|
    {
      var reply := if script == [] then Reply(false, None) else script[0];
      var complete := Acknowledges(reply, records);
      if reply.applied || complete {
        held := held[file := records];
      }
      script := if script == [] then [] else script[1..];
      calls := calls + [AdapterCall(file, records, local)];
      evidence := if complete then reply.evidence else None;
    }
  }

  // -------------------------------------------------- updating under the locks

  datatype UpdateResult =
    | Unchanged
    | Applied(current: BreakpointRecord, changed: seq<PatchField>)
    | Restored
    | Indeterminate

  /** Send the desired lists one source after another; stop at the first call without complete evidence. */
  function ApplyFrom(a: AdapterState, states: seq<SourceState>, local: Bucket, applied: seq<Bucket>)
    : (r: (AdapterState, Option<seq<Bucket>>))
    requires |applied| <= |states|
    ensures r.1.Some? ==> |r.1.value| == |states|
    decreases |states| - |applied|
  {
    if |applied| == |states| then (a, Some(applied))
    else
      var state := states[|applied|];
      var sent := Sent(a, state.file, state.desired, local);
      if !Acknowledges(NextReply(a), state.desired) then (sent, None)
      else ApplyFrom(sent, states, local, applied + [Project(state.desired, NextReply(a).evidence.value)])
  }

  /** Send every original list back, going on after a failure. */
  function RestoreFrom(a: AdapterState, states: seq<SourceState>, local: Bucket, next: nat): (r: (AdapterState, bool))
    requires next <= |states|
    decreases |states| - next
  {
    if next == |states| then (a, true)
    else
      var rest := RestoreFrom(Sent(a, states[next].file, states[next].original, local), states, local, next + 1);
      (rest.0, rest.1 && Acknowledges(NextReply(a), states[next].original))
  }

  function Replacements(states: seq<SourceState>, applied: seq<Bucket>): (r: seq<SourceReplacement>)
    requires |applied| == |states|
    ensures |r| == |states|
    ensures forall i | 0 <= i < |r| :: r[i] == SourceReplacement(states[i].file, applied[i])
  {
    seq(|states|, i requires 0 <= i < |states| => SourceReplacement(states[i].file, applied[i]))
  }

  ghost function Rollback(a: AdapterState, states: seq<SourceState>, local: Bucket)
    : (r: (AdapterState, Bucket, UpdateResult))
  {
    var (restored, ok) := RestoreFrom(a, states, local, 0);
    (restored, local, if ok then Restored else Indeterminate)
  }

  /** The part of `UpdateRun` after the patch, for any planned states. */
  ghost function Transact(a: AdapterState, local: Bucket, target: BreakpointRecord, states: seq<SourceState>)
    : (r: (AdapterState, Bucket, UpdateResult))
  {
    var (sent, applied) := ApplyFrom(a, states, local, []);
    if applied.None? || !Admissible(local, Replacements(states, applied.value)) then Rollback(sent, states, local)
    else
      var committed := Replaced(local, Replacements(states, applied.value));
      var current := Find(committed, target.id);
      if current.None? then Rollback(sent, states, committed)
      else (sent, committed, Applied(current.value, Difference(target, current.value)))
  }

  /** The whole locked part of an update, on values: adapter, local bucket and answer. */
  ghost function UpdateRun(a: AdapterState, local: Bucket, target: BreakpointRecord, patch: Patch)
    : (r: (AdapterState, Bucket, UpdateResult))
  {
    var requested := Patched(target, patch);
    if requested == target then (a, local, Unchanged)
    else Transact(a, local, target, SourceStates(local, target, requested, AffectedSources(target, patch)))
  }

  // ------------------------------------------------------- facts about adapters

  /** Whether a script acknowledges the lists from the `k`-th on, sent one after another. */
  predicate AcksFrom(script: seq<Reply>, lists: seq<Bucket>, k: nat)
    requires k <= |lists|
    decreases |lists| - k
  {
    k == |lists| || (script != [] && Acknowledges(script[0], lists[k]) && AcksFrom(script[1..], lists, k + 1))
  }

  function DesiredLists(states: seq<SourceState>): (r: seq<Bucket>)
    ensures |r| == |states|
    ensures forall i | 0 <= i < |r| :: r[i] == states[i].desired
  {
    seq(|states|, i requires 0 <= i < |states| => states[i].desired)
  }

  function OriginalLists(states: seq<SourceState>): (r: seq<Bucket>)
    ensures |r| == |states|
    ensures forall i | 0 <= i < |r| :: r[i] == states[i].original
  {
    seq(|states|, i requires 0 <= i < |states| => states[i].original)
  }

  /** Every call after the first `since` happened while the local bucket was `local`, and for one of `states`. */
  ghost predicate CallsSince(a: AdapterState, since: nat, states: seq<SourceState>, local: Bucket)
  {
    && since <= |a.calls|
    && forall i | since <= i < |a.calls| ::
         a.calls[i].local == local && exists k | 0 <= k < |states| :: states[k].file == a.calls[i].file
  }

  ghost predicate DistinctStates(states: seq<SourceState>)
  {
    forall i, j | 0 <= i < j < |states| :: states[i].file != states[j].file
  }

  ghost predicate ChangesOnly(before: AdapterState, after: AdapterState, states: seq<SourceState>)
  {
    forall f | (forall k | 0 <= k < |states| :: states[k].file != f) :: Holds(after, f) == Holds(before, f)
  }

  lemma ProjectAgrees(desired: Bucket, evidence: seq<DapBreakpoint>)
    requires |evidence| == |desired|
    ensures Agree(Project(desired, evidence), desired)
    ensures Ids(Project(desired, evidence)) == Ids(desired)
  {
  }

  /** `applied` is what evidence made of the first desired lists, and the adapter holds those lists. */
  ghost predicate AppliedSoFar(a: AdapterState, states: seq<SourceState>, applied: seq<Bucket>)
  {
    && |applied| <= |states|
    && forall i | 0 <= i < |applied| ::
         && Agree(applied[i], states[i].desired)
         && Ids(applied[i]) == Ids(states[i].desired)
         && Holds(a, states[i].file) == states[i].desired
  }

  /** The forward pass succeeds exactly when every call is acknowledged; then the adapter holds every desired list. */
  lemma {:induction false} ApplyFromEffect(a: AdapterState, states: seq<SourceState>, local: Bucket, applied: seq<Bucket>)
    requires DistinctStates(states) && AppliedSoFar(a, states, applied)
    ensures var (after, r) := ApplyFrom(a, states, local, applied);
            && ChangesOnly(a, after, states)
            && (r.Some? <==> AcksFrom(a.script, DesiredLists(states), |applied|))
            && (r.Some? ==> AppliedSoFar(after, states, r.value))
    decreases |states| - |applied|
  {
    var k := |applied|;
    if k < |states| {
      var sent := Sent(a, states[k].file, states[k].desired, local);
      if Acknowledges(NextReply(a), states[k].desired) {
        ProjectAgrees(states[k].desired, NextReply(a).evidence.value);
        ApplyFromEffect(sent, states, local, applied + [Project(states[k].desired, NextReply(a).evidence.value)]);
      }
    }
  }

  /** The rollback succeeds exactly when every call is acknowledged; then the adapter holds every original list. */
  lemma {:induction false} RestoreFromEffect(a: AdapterState, states: seq<SourceState>, local: Bucket, next: nat)
    requires next <= |states| && DistinctStates(states)
    ensures var (after, ok) := RestoreFrom(a, states, local, next);
            && ChangesOnly(a, after, states)
            && (forall i | 0 <= i < next :: Holds(after, states[i].file) == Holds(a, states[i].file))
            && (ok <==> AcksFrom(a.script, OriginalLists(states), next))
            && (ok ==> forall i | next <= i < |states| :: Holds(after, states[i].file) == states[i].original)
    decreases |states| - next
  {
    if next < |states| {
      var sent := Sent(a, states[next].file, states[next].original, local);
      RestoreFromEffect(sent, states, local, next + 1);
      assert forall f | f != states[next].file :: Holds(sent, f) == Holds(a, f);
      assert AcksFrom(a.script, OriginalLists(states), next)
        <==> Acknowledges(NextReply(a), states[next].original) && AcksFrom(sent.script, OriginalLists(states), next + 1);
    }
  }

  lemma {:induction false} ApplyFromCalls(a: AdapterState, states: seq<SourceState>, local: Bucket, applied: seq<Bucket>, since: nat)
    requires |applied| <= |states| && CallsSince(a, since, states, local)
    ensures CallsSince(ApplyFrom(a, states, local, applied).0, since, states, local)
    decreases |states| - |applied|
  {
    var k := |applied|;
    if k < |states| && Acknowledges(NextReply(a), states[k].desired) {
      ApplyFromCalls(Sent(a, states[k].file, states[k].desired, local), states, local,
                     applied + [Project(states[k].desired, NextReply(a).evidence.value)], since);
    }
  }

  lemma {:induction false} RestoreFromCalls(a: AdapterState, states: seq<SourceState>, local: Bucket, next: nat, since: nat)
    requires next <= |states| && CallsSince(a, since, states, local)
    ensures CallsSince(RestoreFrom(a, states, local, next).0, since, states, local)
    decreases |states| - next
  {
    if next < |states| {
      RestoreFromCalls(Sent(a, states[next].file, states[next].original, local), states, local, next + 1, since);
    }
  }

  // ---------------------------------------- what the desired lists keep and move

  function IdSet(records: Bucket): (r: set<string>)
  {
    set i | 0 <= i < |records| :: records[i].id
  }

  function Except(ids: seq<string>, id: string): (r: seq<string>)
  {
    if ids == [] then []
    else if ids[0] == id then Except(ids[1..], id)
    else [ids[0]] + Except(ids[1..], id)
  }

  lemma {:induction false} ExceptConcat(a: seq<string>, b: seq<string>, id: string)
    ensures Except(a + b, id) == Except(a, id) + Except(b, id)
  {
    if a == [] {
      assert a + b == b;
    } else {
      ExceptConcat(a[1..], b, id);
      assert (a + b)[1..] == a[1..] + b && (a + b)[0] == a[0];
      assert [a[0]] + (Except(a[1..], id) + Except(b, id)) == ([a[0]] + Except(a[1..], id)) + Except(b, id);
    }
  }

  lemma {:induction false} WithoutIdMembers(records: Bucket, id: string)
    ensures forall r :: r in WithoutId(records, id) <==> r in records && r.id != id
  {
    if records != [] {
      WithoutIdMembers(records[1..], id);
      assert records == [records[0]] + records[1..];
    }
  }

  lemma {:induction false} WithoutIdUnique(records: Bucket, id: string)
    requires UniqueIds(records)
    ensures UniqueIds(WithoutId(records, id))
  {
    if records != [] {
      WithoutIdUnique(records[1..], id);
      WithoutIdMembers(records[1..], id);
    }
  }

  lemma {:induction false} WithoutIdIds(records: Bucket, id: string)
    ensures Ids(WithoutId(records, id)) == Except(Ids(records), id)
  {
    if records != [] {
      WithoutIdIds(records[1..], id);
      assert Ids(records)[1..] == Ids(records[1..]);
    }
  }

  lemma {:induction false} ExceptIsIdempotent(ids: seq<string>, id: string)
    ensures Except(Except(ids, id), id) == Except(ids, id)
  {
    if ids != [] {
      ExceptIsIdempotent(ids[1..], id);
    }
  }

  lemma IdSetMembers(records: Bucket)
    ensures forall r | r in records :: r.id in IdSet(records)
    ensures forall id | id in IdSet(records) :: exists r :: r in records && r.id == id
  {
    forall id | id in IdSet(records) ensures exists r :: r in records && r.id == id {
      var i :| 0 <= i < |records| && records[i].id == id;
      assert records[i] in records;
    }
  }

  /** In a bucket with distinct ids, an id belongs to one record only. */
  lemma IdDetermines(bucket: Bucket, a: BreakpointRecord, b: BreakpointRecord)
    requires UniqueIds(bucket) && a in bucket && b in bucket && a.id == b.id
    ensures a == b
  {
    var i :| 0 <= i < |bucket| && bucket[i] == a;
    var j :| 0 <= j < |bucket| && bucket[j] == b;
    assert i == j;
  }

  /** A desired list has distinct ids, all its records are of its source, and it moves the target and nothing
      else: every other id stays where it was, in the same order. */
  ghost predicate MovesOnlyTheTarget(local: Bucket, target: BreakpointRecord, requested: BreakpointRecord, file: string)
  {
    var before := SourceList(local, file);
    var desired := Desired(before, file, target, requested);
    && UniqueIds(desired)
    && (forall r | r in desired :: r.file == file)
    && (forall r | r in desired :: r == requested || (r in local && r.id != target.id))
    && (requested in desired <==> file == requested.file)
    && IdSet(desired) == (IdSet(before) - {target.id}) + (if file == requested.file then {target.id} else {})
    && Except(Ids(desired), target.id) == Except(Ids(before), target.id)
  }

  lemma DesiredMovesOnlyTheTarget(local: Bucket, target: BreakpointRecord, requested: BreakpointRecord, file: string)
    requires UniqueIds(local) && target in local && requested.id == target.id
    requires file == target.file || file == requested.file
    ensures MovesOnlyTheTarget(local, target, requested, file)
  {
    var before := SourceList(local, file);
    SourceListMembers(local, file);
    SourceListUnique(local, file);
    forall r | r in before && r.id == target.id ensures r == target {
      IdDetermines(local, r, target);
    }
    if target.file == requested.file {
      SubstitutedFacts(before, target, requested);
    } else {
      DesiredAcrossSources(local, target, requested, file);
    }
  }

  lemma DesiredAcrossSources(local: Bucket, target: BreakpointRecord, requested: BreakpointRecord, file: string)
    requires UniqueIds(local) && target in local && requested.id == target.id && target.file != requested.file
    requires file == target.file || file == requested.file
    ensures MovesOnlyTheTarget(local, target, requested, file)
  {
    var before := SourceList(local, file);
    var rest := WithoutId(before, target.id);
    SourceListMembers(local, file);
    SourceListUnique(local, file);
    WithoutIdMembers(before, target.id);
    WithoutIdUnique(before, target.id);
    WithoutIdIds(before, target.id);
    ExceptIsIdempotent(Ids(before), target.id);
    IdSetOfRest(before, target.id);
    if file == requested.file {
      var desired := rest + [requested];
      assert desired[|rest|] == requested;
      assert Ids(desired) == Ids(rest) + [target.id];
      ExceptConcat(Ids(rest), [target.id], target.id);
      IdSetOfConcat(rest, [requested]);
      assert UniqueIds(desired) by {
        forall i | 0 <= i < |rest| ensures rest[i].id != target.id {
          assert rest[i] in rest;
        }
      }
    }
  }

  lemma IdSetOfConcat(a: Bucket, b: Bucket)
    ensures IdSet(a + b) == IdSet(a) + IdSet(b)
  {
    forall id | id in IdSet(a) + IdSet(b) ensures id in IdSet(a + b) {
      if id in IdSet(a) {
        var i :| 0 <= i < |a| && a[i].id == id;
        assert (a + b)[i].id == id;
      } else {
        var i :| 0 <= i < |b| && b[i].id == id;
        assert (a + b)[|a| + i].id == id;
      }
    }
  }

  lemma IdSetOfRest(records: Bucket, id: string)
    ensures IdSet(WithoutId(records, id)) == IdSet(records) - {id}
  {
    WithoutIdMembers(records, id);
    var rest := WithoutId(records, id);
    IdSetMembers(rest);
    IdSetMembers(records);
    forall other | other in IdSet(records) - {id} ensures other in IdSet(rest) {
      var r :| r in records && r.id == other;
      assert r in rest;
    }
  }

  lemma SubstitutedFacts(before: Bucket, target: BreakpointRecord, requested: BreakpointRecord)
    requires UniqueIds(before) && target in before && requested.id == target.id
    requires forall r | r in before && r.id == target.id :: r == target
    ensures var desired := Substituted(before, target.id, requested);
            && UniqueIds(desired) && Ids(desired) == Ids(before) && requested in desired
            && IdSet(desired) == IdSet(before)
            && target.id in IdSet(before)
            && forall r | r in desired :: r == requested || (r in before && r.id != target.id)
  {
    var desired := Substituted(before, target.id, requested);
    var i :| 0 <= i < |before| && before[i] == target;
    assert desired[i] == requested;
    assert forall k | 0 <= k < |before| :: desired[k].id == before[k].id;
  }

  // ------------------------------------------------- when the commit is accepted

  lemma IdSetOfStamp(records: Bucket, file: string)
    ensures IdSet(Stamp(records, file)) == IdSet(records)
    ensures UniqueIds(Stamp(records, file)) <==> UniqueIds(records)
  {
    forall id | id in IdSet(records) ensures id in IdSet(Stamp(records, file)) {
      var i :| 0 <= i < |records| && records[i].id == id;
      assert Stamp(records, file)[i].id == id;
    }
    if UniqueIds(Stamp(records, file)) {
      forall i, j | 0 <= i < j < |records| ensures records[i].id != records[j].id {
        assert Stamp(records, file)[i].id != Stamp(records, file)[j].id;
      }
    }
  }

  lemma SameIdsSameSet(a: Bucket, b: Bucket)
    requires Ids(a) == Ids(b)
    ensures IdSet(a) == IdSet(b) && (UniqueIds(a) ==> UniqueIds(b))
  {
    assert forall i | 0 <= i < |a| :: a[i].id == Ids(a)[i] == Ids(b)[i] == b[i].id;
  }

  lemma UniqueIdsOfConcat(a: Bucket, b: Bucket)
    requires UniqueIds(a) && UniqueIds(b) && IdSet(a) !! IdSet(b)
    ensures UniqueIds(a + b)
  {
    forall i, j | 0 <= i < |a| && 0 <= j < |b| ensures a[i].id != b[j].id {
      assert a[i].id in IdSet(a) && b[j].id in IdSet(b);
    }
  }

  /** The ids of all the lists together. */
  function AllIds(lists: seq<Bucket>): (r: set<string>)
  {
    if lists == [] then {} else AllIds(lists[..|lists| - 1]) + IdSet(lists[|lists| - 1])
  }

  ghost predicate DisjointIds(lists: seq<Bucket>)
  {
    forall i, j | 0 <= i < j < |lists| :: IdSet(lists[i]) !! IdSet(lists[j])
  }

  lemma {:induction false} AllIdsMembers(lists: seq<Bucket>)
    ensures forall id :: id in AllIds(lists) <==> exists i :: 0 <= i < |lists| && id in IdSet(lists[i])
  {
    if lists != [] {
      AllIdsMembers(lists[..|lists| - 1]);
      assert lists == lists[..|lists| - 1] + [lists[|lists| - 1]];
    }
  }

  lemma {:induction false} FlattenIds(replacements: seq<SourceReplacement>, lists: seq<Bucket>)
    requires |lists| == |replacements|
    requires forall i | 0 <= i < |lists| :: Ids(replacements[i].records) == Ids(lists[i]) && UniqueIds(lists[i])
    requires DisjointIds(lists)
    ensures IdSet(Flatten(replacements)) == AllIds(lists)
    ensures UniqueIds(Flatten(replacements))
  {
    if replacements != [] {
      var n := |lists| - 1;
      FlattenIds(replacements[..n], lists[..n]);
      var last := Stamp(replacements[n].records, replacements[n].file);
      IdSetOfStamp(replacements[n].records, replacements[n].file);
      SameIdsSameSet(lists[n], replacements[n].records);
      IdSetOfConcat(Flatten(replacements[..n]), last);
      AllIdsMembers(lists[..n]);
      UniqueIdsOfConcat(Flatten(replacements[..n]), last);
    }
  }

  lemma NoEmptyIdMeansNotInSet(records: Bucket)
    ensures NoEmptyId(records) <==> "" !in IdSet(records)
  {
    if i :| 0 <= i < |records| && records[i].id == "" {
      assert records[i].id in IdSet(records);
    }
  }

  /** The lists of different sources have no id in common. */
  lemma SourcesShareNoId(local: Bucket, f: string, g: string)
    requires UniqueIds(local) && f != g
    ensures IdSet(SourceList(local, f)) !! IdSet(SourceList(local, g))
  {
    SourceListMembers(local, f);
    SourceListMembers(local, g);
    IdSetMembers(SourceList(local, f));
    IdSetMembers(SourceList(local, g));
    forall a, b | a in SourceList(local, f) && b in SourceList(local, g) ensures a.id != b.id {
      if a.id == b.id {
        IdDetermines(local, a, b);
      }
    }
  }

  /** The ids that the affected sources hold; an update permutes them but never adds or loses one. */
  lemma UpdateConservesIds(local: Bucket, target: BreakpointRecord, patch: Patch)
    requires UniqueIds(local) && target in local
    ensures var paths := AffectedSources(target, patch);
            var states := SourceStates(local, target, Patched(target, patch), paths);
            && AllIds(DesiredLists(states)) == AllIds(OriginalLists(states))
            && DisjointIds(DesiredLists(states))
            && (forall i | 0 <= i < |states| :: UniqueIds(states[i].desired))
  {
    var requested := Patched(target, patch);
    var paths := AffectedSources(target, patch);
    var states := SourceStates(local, target, requested, paths);
    AffectedSourcesAreSorted(target, patch);
    forall i | 0 <= i < |states| ensures MovesOnlyTheTarget(local, target, requested, paths[i]) {
      assert paths[i] in paths;
      DesiredMovesOnlyTheTarget(local, target, requested, paths[i]);
    }
    if |paths| == 1 {
      AllIdsOfOne(DesiredLists(states));
      AllIdsOfOne(OriginalLists(states));
      TargetIsInItsSource(local, target, target.file);
    } else {
      TwoSourcesConserveIds(local, target, requested, states, paths[0], paths[1]);
    }
  }

  lemma TwoSourcesConserveIds(local: Bucket, target: BreakpointRecord, requested: BreakpointRecord, states: seq<SourceState>, f: string, g: string)
    requires UniqueIds(local) && target in local && requested.id == target.id
    requires f != g && target.file in [f, g] && requested.file in [f, g] && requested.file != target.file
    requires states == SourceStates(local, target, requested, [f, g])
    requires MovesOnlyTheTarget(local, target, requested, f) && MovesOnlyTheTarget(local, target, requested, g)
    ensures AllIds(DesiredLists(states)) == AllIds(OriginalLists(states)) && DisjointIds(DesiredLists(states))
  {
    var o0, o1 := SourceList(local, f), SourceList(local, g);
    var d0, d1 := Desired(o0, f, target, requested), Desired(o1, g, target, requested);
    assert OriginalLists(states) == [o0, o1] && DesiredLists(states) == [d0, d1];
    SourcesShareNoId(local, f, g);
    TargetIsInItsSource(local, target, target.file);
    AllIdsOfTwo([d0, d1]);
    AllIdsOfTwo([o0, o1]);
    TwoSourcesSwapTheTarget(IdSet(o0), IdSet(o1), IdSet(d0), IdSet(d1), target.id, f == target.file);
  }

  lemma TwoSourcesSwapTheTarget<T>(o0: set<T>, o1: set<T>, d0: set<T>, d1: set<T>, id: T, first: bool)
    requires o0 !! o1 && id in (if first then o0 else o1)
    requires d0 == (o0 - {id}) + (if first then {} else {id})
    requires d1 == (o1 - {id}) + (if first then {id} else {})
    ensures d0 !! d1 && d0 + d1 == o0 + o1
  {
  }

  lemma AllIdsOfOne(lists: seq<Bucket>)
    requires |lists| == 1
    ensures AllIds(lists) == IdSet(lists[0])
  {
    assert lists[..0] == [];
  }

  lemma AllIdsOfTwo(lists: seq<Bucket>)
    requires |lists| == 2
    ensures AllIds(lists) == IdSet(lists[0]) + IdSet(lists[1])
  {
    AllIdsOfOne(lists[..1]);
  }

  /** A commit whose records carry exactly the ids of the selected sources is accepted unless an id is empty. */
  lemma CommitAcceptedUnlessEmptyId(local: Bucket, replacements: seq<SourceReplacement>, lists: seq<Bucket>)
    requires UniqueIds(local) && |lists| == |replacements| && DistinctFiles(replacements)
    requires forall i | 0 <= i < |lists| :: Ids(replacements[i].records) == Ids(lists[i]) && UniqueIds(lists[i])
    requires DisjointIds(lists)
    requires AllIds(lists) <= set r | r in local && r.file in Files(replacements) :: r.id
    ensures Admissible(local, replacements) <==> "" !in AllIds(lists)
  {
    FlattenIds(replacements, lists);
    NoEmptyIdMeansNotInSet(Flatten(replacements));
    var all := Flatten(replacements);
    forall i, j | 0 <= i < |local| && 0 <= j < |all| && local[i].id == all[j].id
      ensures local[i].file in Files(replacements)
    {
      assert all[j].id in IdSet(all);
      var r :| r in local && r.file in Files(replacements) && r.id == all[j].id;
      IdDetermines(local, r, local[i]);
    }
  }

  // ------------------------------------------------ the three ways an update ends

  ghost function StatesOf(local: Bucket, target: BreakpointRecord, patch: Patch): (r: seq<SourceState>)
  {
    SourceStates(local, target, Patched(target, patch), AffectedSources(target, patch))
  }

  /** The ids of the records in the given sources. */
  ghost function IdsIn(local: Bucket, files: set<string>): (r: set<string>)
  {
    set r | r in local && r.file in files :: r.id
  }

  ghost function StateFiles(states: seq<SourceState>): (r: set<string>)
    ensures forall f :: f in r <==> exists i :: 0 <= i < |states| && states[i].file == f
  {
    set i | 0 <= i < |states| :: states[i].file
  }

  /** What the source states of an update satisfy. */
  ghost predicate Plan(local: Bucket, requested: BreakpointRecord, states: seq<SourceState>)
  {
    && DistinctStates(states)
    && (forall i | 0 <= i < |states| :: states[i].original == SourceList(local, states[i].file))
    && (forall i | 0 <= i < |states| :: UniqueIds(states[i].desired))
    && (forall i | 0 <= i < |states| :: forall r | r in states[i].desired :: r.file == states[i].file)
    && (exists i :: 0 <= i < |states| && requested in states[i].desired)
    && AllIds(DesiredLists(states)) == AllIds(OriginalLists(states))
    && DisjointIds(DesiredLists(states))
    && AllIds(OriginalLists(states)) <= IdsIn(local, StateFiles(states))
  }

  lemma OriginalIdsAreLocal(local: Bucket, states: seq<SourceState>)
    requires forall i | 0 <= i < |states| :: states[i].original == SourceList(local, states[i].file)
    ensures AllIds(OriginalLists(states)) <= IdsIn(local, StateFiles(states))
  {
    AllIdsMembers(OriginalLists(states));
    forall id | id in AllIds(OriginalLists(states)) ensures id in IdsIn(local, StateFiles(states)) {
      var i :| 0 <= i < |states| && id in IdSet(OriginalLists(states)[i]);
      IdSetMembers(states[i].original);
      SourceListMembers(local, states[i].file);
    }
  }

  lemma UpdateHasPlan(local: Bucket, target: BreakpointRecord, patch: Patch)
    requires UniqueIds(local) && target in local
    ensures Plan(local, Patched(target, patch), StatesOf(local, target, patch))
  {
    var states := StatesOf(local, target, patch);
    var paths := AffectedSources(target, patch);
    AffectedSourcesAreSorted(target, patch);
    forall i | 0 <= i < |states| ensures MovesOnlyTheTarget(local, target, Patched(target, patch), states[i].file) {
      assert paths[i] in paths;
      DesiredMovesOnlyTheTarget(local, target, Patched(target, patch), paths[i]);
    }
    assert Patched(target, patch).file in paths;
    UpdateConservesIds(local, target, patch);
    OriginalIdsAreLocal(local, states);
  }

  lemma StampOfAgreeing(applied: Bucket, desired: Bucket, file: string)
    requires Agree(applied, desired) && forall r | r in desired :: r.file == file
    ensures Stamp(applied, file) == applied
  {
    forall i | 0 <= i < |applied| ensures applied[i].file == file {
      assert desired[i] in desired;
    }
  }

  /** Once every call is acknowledged, the commit is refused only for an empty id. */
  lemma CommitOfAcknowledged(local: Bucket, requested: BreakpointRecord, states: seq<SourceState>, a: AdapterState, applied: seq<Bucket>)
    requires UniqueIds(local) && Plan(local, requested, states)
    requires |applied| == |states| && AppliedSoFar(a, states, applied)
    ensures Admissible(local, Replacements(states, applied)) <==> "" !in AllIds(OriginalLists(states))
  {
    assert Files(Replacements(states, applied)) == StateFiles(states);
    CommitAcceptedUnlessEmptyId(local, Replacements(states, applied), DesiredLists(states));
  }

  /** The update took effect: the adapter holds every desired list, the local lists agree with them in order, ids stay
      distinct, every other source is as before, and the target now is what was asked for. */
  ghost predicate AppliedEverywhere(after: AdapterState, local: Bucket, local': Bucket, states: seq<SourceState>,
                                    requested: BreakpointRecord, current: BreakpointRecord)
  {
    && UniqueIds(local')
    && (forall i | 0 <= i < |states| ::
          && Holds(after, states[i].file) == states[i].desired
          && Agree(SourceList(local', states[i].file), states[i].desired)
          && Ids(SourceList(local', states[i].file)) == Ids(states[i].desired))
    && (forall f | f !in StateFiles(states) :: SourceList(local', f) == SourceList(local, f))
    && current in local'
    && SameBreakpoint(current, requested)
  }

  lemma CommittedLists(local: Bucket, requested: BreakpointRecord, states: seq<SourceState>, a: AdapterState, applied: seq<Bucket>)
    requires Plan(local, requested, states)
    requires |applied| == |states| && AppliedSoFar(a, states, applied)
    ensures var local' := Replaced(local, Replacements(states, applied));
            && (forall i | 0 <= i < |states| :: SourceList(local', states[i].file) == applied[i])
            && (forall f | f !in StateFiles(states) :: SourceList(local', f) == SourceList(local, f))
  {
    var replacements := Replacements(states, applied);
    var local' := Replaced(local, replacements);
    forall i | 0 <= i < |states| ensures SourceList(local', states[i].file) == applied[i] {
      ReplacementIsExact(local, replacements, states[i].file);
      StampOfAgreeing(applied[i], states[i].desired, states[i].file);
      assert replacements[i].file == states[i].file;
    }
    forall f | f !in StateFiles(states) ensures SourceList(local', f) == SourceList(local, f) {
      ReplacementIsExact(local, replacements, f);
    }
  }

  lemma CommitFindsTheTarget(local: Bucket, requested: BreakpointRecord, states: seq<SourceState>, a: AdapterState, applied: seq<Bucket>)
    requires UniqueIds(local) && Plan(local, requested, states)
    requires |applied| == |states| && AppliedSoFar(a, states, applied)
    requires Admissible(local, Replacements(states, applied))
    ensures var local' := Replaced(local, Replacements(states, applied));
            var current := Find(local', requested.id);
            current.Some? && AppliedEverywhere(a, local, local', states, requested, current.value)
  {
    var local' := Replaced(local, Replacements(states, applied));
    ReplacementKeepsIdsUnique(local, Replacements(states, applied));
    CommittedLists(local, requested, states, a, applied);
    var record := RequestedIsAcknowledged(requested, states, a, applied);
    var t :| 0 <= t < |states| && record in applied[t];
    SourceListMembers(local', states[t].file);
    CurrentIsTheMovedTarget(local', record, requested.id);
  }

  /** Among the acknowledged records is the one that was asked for. */
  lemma RequestedIsAcknowledged(requested: BreakpointRecord, states: seq<SourceState>, a: AdapterState, applied: seq<Bucket>)
    returns (record: BreakpointRecord)
    requires exists t | 0 <= t < |states| :: requested in states[t].desired
    requires |applied| == |states| && AppliedSoFar(a, states, applied)
    ensures SameBreakpoint(record, requested) && record.id == requested.id && exists t | 0 <= t < |applied| :: record in applied[t]
  {
    var t :| 0 <= t < |states| && requested in states[t].desired;
    var k :| 0 <= k < |states[t].desired| && states[t].desired[k] == requested;
    record := applied[t][k];
    assert SameBreakpoint(applied[t][k], states[t].desired[k]);
    assert record in applied[t];
  }

  lemma CurrentIsTheMovedTarget(bucket: Bucket, record: BreakpointRecord, id: string)
    requires UniqueIds(bucket) && record in bucket && record.id == id
    ensures Find(bucket, id) == Some(record)
  {
    var i :| 0 <= i < |bucket| && bucket[i] == record;
    assert HasId(bucket, id);
    IdDetermines(bucket, record, Find(bucket, id).value);
  }

  /** How an update may end, in terms of the adapter's script alone. */
  ghost predicate EndsWell(a: AdapterState, local: Bucket, target: BreakpointRecord, requested: BreakpointRecord,
                           states: seq<SourceState>, after: AdapterState, local': Bucket, result: UpdateResult)
  {
    match result
    case Unchanged =>
      requested == target && after == a && local' == local
    case Applied(current, changed) =>
      && requested != target
      && AcksFrom(a.script, DesiredLists(states), 0) && "" !in AllIds(OriginalLists(states))
      && AppliedEverywhere(after, local, local', states, requested, current)
      && changed == Difference(target, current)
    case Restored =>
      && requested != target
      && !(AcksFrom(a.script, DesiredLists(states), 0) && "" !in AllIds(OriginalLists(states)))
      && local' == local
      && AcksFrom(ApplyFrom(a, states, local, []).0.script, OriginalLists(states), 0)
      && forall i | 0 <= i < |states| :: Holds(after, states[i].file) == SourceList(local, states[i].file)
    case Indeterminate =>
      && requested != target
      && !(AcksFrom(a.script, DesiredLists(states), 0) && "" !in AllIds(OriginalLists(states)))
      && local' == local
      && !AcksFrom(ApplyFrom(a, states, local, []).0.script, OriginalLists(states), 0)
  }

  lemma RollbackEndsWell(a: AdapterState, local: Bucket, target: BreakpointRecord, requested: BreakpointRecord, states: seq<SourceState>)
    requires requested != target && Plan(local, requested, states)
    requires !(AcksFrom(a.script, DesiredLists(states), 0) && "" !in AllIds(OriginalLists(states)))
    requires ChangesOnly(a, ApplyFrom(a, states, local, []).0, states)
    ensures var (after, local', result) := Rollback(ApplyFrom(a, states, local, []).0, states, local);
            && EndsWell(a, local, target, requested, states, after, local', result)
            && ChangesOnly(a, after, states)
  {
    RestoreFromEffect(ApplyFrom(a, states, local, []).0, states, local, 0);
  }

  lemma CommitEndsWell(a: AdapterState, local: Bucket, target: BreakpointRecord, requested: BreakpointRecord, states: seq<SourceState>,
                       sent: AdapterState, applied: seq<Bucket>)
    requires UniqueIds(local) && requested.id == target.id && requested != target && Plan(local, requested, states)
    requires ApplyFrom(a, states, local, []) == (sent, Some(applied)) && Admissible(local, Replacements(states, applied))
    ensures var (after, local', result) := Transact(a, local, target, states);
            && EndsWell(a, local, target, requested, states, after, local', result)
            && ChangesOnly(a, after, states)
  {
    ApplyFromEffect(a, states, local, []);
    CommitOfAcknowledged(local, requested, states, sent, applied);
    CommitFindsTheTarget(local, requested, states, sent, applied);
  }

  lemma RefusalEndsWell(a: AdapterState, local: Bucket, target: BreakpointRecord, requested: BreakpointRecord, states: seq<SourceState>)
    requires UniqueIds(local) && requested.id == target.id && requested != target && Plan(local, requested, states)
    requires var applied := ApplyFrom(a, states, local, []).1;
             applied.None? || !Admissible(local, Replacements(states, applied.value))
    ensures var (after, local', result) := Transact(a, local, target, states);
            && EndsWell(a, local, target, requested, states, after, local', result)
            && ChangesOnly(a, after, states)
  {
    var (sent, applied) := ApplyFrom(a, states, local, []);
    ApplyFromEffect(a, states, local, []);
    if applied.Some? {
      CommitOfAcknowledged(local, requested, states, sent, applied.value);
    }
    RollbackEndsWell(a, local, target, requested, states);
  }

  lemma TransactEndsWell(a: AdapterState, local: Bucket, target: BreakpointRecord, requested: BreakpointRecord, states: seq<SourceState>)
    requires UniqueIds(local) && requested.id == target.id && requested != target && Plan(local, requested, states)
    ensures var (after, local', result) := Transact(a, local, target, states);
            && EndsWell(a, local, target, requested, states, after, local', result)
            && ChangesOnly(a, after, states)
  {
    var (sent, applied) := ApplyFrom(a, states, local, []);
    if applied.Some? && Admissible(local, Replacements(states, applied.value)) {
      CommitEndsWell(a, local, target, requested, states, sent, applied.value);
    } else {
      RefusalEndsWell(a, local, target, requested, states);
    }
  }

  lemma TransactCallsBeforeCommit(a: AdapterState, local: Bucket, target: BreakpointRecord, requested: BreakpointRecord, states: seq<SourceState>)
    requires UniqueIds(local) && requested.id == target.id && requested != target && Plan(local, requested, states)
    ensures CallsSince(Transact(a, local, target, states).0, |a.calls|, states, local)
  {
    var (sent, applied) := ApplyFrom(a, states, local, []);
    ApplyFromCalls(a, states, local, [], |a.calls|);
    RestoreFromCalls(sent, states, local, 0, |a.calls|);
    if applied.Some? && Admissible(local, Replacements(states, applied.value)) {
      ApplyFromEffect(a, states, local, []);
      CommitFindsTheTarget(local, requested, states, sent, applied.value);
    }
  }

  /** For every adapter behaviour an update ends in exactly one way: nothing to do and no call made; applied
      everywhere, exactly when every call is acknowledged and no affected record has an empty id; or the local bucket
      unchanged, with every affected source restored on the adapter exactly when every rollback call is acknowledged.
      The local bucket is still unchanged at the time of each adapter call, and only affected sources are called. */
  lemma UpdateEndsInOneOfThreeWays(a: AdapterState, local: Bucket, target: BreakpointRecord, patch: Patch)
    requires UniqueIds(local) && target in local
    ensures var states := StatesOf(local, target, patch);
            var (after, local', result) := UpdateRun(a, local, target, patch);
            && EndsWell(a, local, target, Patched(target, patch), states, after, local', result)
            && ChangesOnly(a, after, states)
            && CallsSince(after, |a.calls|, states, local)
  {
    UpdateHasPlan(local, target, patch);
    if Patched(target, patch) != target {
      TransactEndsWell(a, local, target, Patched(target, patch), StatesOf(local, target, patch));
      TransactCallsBeforeCommit(a, local, target, Patched(target, patch), StatesOf(local, target, patch));
    }
  }

  /** Whatever the adapter does, no id is lost, added or reordered in any source, except that a successful update
      leaves the target's id in exactly one source, the one asked for. */
  lemma UpdateConservesEveryOtherBreakpoint(a: AdapterState, local: Bucket, target: BreakpointRecord, patch: Patch, file: string)
    requires UniqueIds(local) && target in local
    ensures var (after, local', result) := UpdateRun(a, local, target, patch);
            && UniqueIds(local')
            && Except(Ids(SourceList(local', file)), target.id) == Except(Ids(SourceList(local, file)), target.id)
            && (target.id in IdSet(SourceList(local', file)) <==>
                  file == if result.Applied? then Patched(target, patch).file else target.file)
  {
    var (after, local', result) := UpdateRun(a, local, target, patch);
    UpdateEndsInOneOfThreeWays(a, local, target, patch);
    TargetIsInItsSource(local, target, file);
    if result.Applied? {
      AppliedUpdateConserves(after, local, local', target, patch, result.current, file);
    }
  }

  lemma AppliedUpdateConserves(after: AdapterState, local: Bucket, local': Bucket, target: BreakpointRecord, patch: Patch,
                               current: BreakpointRecord, file: string)
    requires UniqueIds(local) && target in local
    requires AppliedEverywhere(after, local, local', StatesOf(local, target, patch), Patched(target, patch), current)
    ensures Except(Ids(SourceList(local', file)), target.id) == Except(Ids(SourceList(local, file)), target.id)
    ensures target.id in IdSet(SourceList(local', file)) <==> file == Patched(target, patch).file
  {
    StatesOfFiles(local, target, patch);
    AppliedConserves(after, local, local', target, Patched(target, patch), StatesOf(local, target, patch), current, file);
  }

  lemma StatesOfFiles(local: Bucket, target: BreakpointRecord, patch: Patch)
    ensures StateFiles(StatesOf(local, target, patch)) == {target.file, Patched(target, patch).file}
  {
    AffectedSourcesAreSorted(target, patch);
    var paths := AffectedSources(target, patch);
    assert target.file in paths && Patched(target, patch).file in paths;
    forall f | f in StateFiles(StatesOf(local, target, patch)) ensures f in paths {
    }
  }

  lemma AppliedConserves(after: AdapterState, local: Bucket, local': Bucket, target: BreakpointRecord, requested: BreakpointRecord,
                         states: seq<SourceState>, current: BreakpointRecord, file: string)
    requires UniqueIds(local) && target in local && requested.id == target.id
    requires AppliedEverywhere(after, local, local', states, requested, current)
    requires StateFiles(states) == {target.file, requested.file}
    requires forall i | 0 <= i < |states| ::
               states[i].desired == Desired(SourceList(local, states[i].file), states[i].file, target, requested)
    ensures Except(Ids(SourceList(local', file)), target.id) == Except(Ids(SourceList(local, file)), target.id)
    ensures target.id in IdSet(SourceList(local', file)) <==> file == requested.file
  {
    if file in StateFiles(states) {
      var i :| 0 <= i < |states| && states[i].file == file;
      SameIdsAsDesired(local, SourceList(local', file), target, requested, file);
    } else {
      TargetIsInItsSource(local, target, file);
    }
  }

  lemma SameIdsAsDesired(local: Bucket, records: Bucket, target: BreakpointRecord, requested: BreakpointRecord, file: string)
    requires UniqueIds(local) && target in local && requested.id == target.id
    requires file == target.file || file == requested.file
    requires Ids(records) == Ids(Desired(SourceList(local, file), file, target, requested))
    ensures Except(Ids(records), target.id) == Except(Ids(SourceList(local, file)), target.id)
    ensures target.id in IdSet(records) <==> file == requested.file
  {
    DesiredMovesOnlyTheTarget(local, target, requested, file);
    SameIdsSameSet(records, Desired(SourceList(local, file), file, target, requested));
  }

  lemma TargetIsInItsSource(local: Bucket, target: BreakpointRecord, file: string)
    requires UniqueIds(local) && target in local
    ensures target.id in IdSet(SourceList(local, file)) <==> file == target.file
  {
    SourceListMembers(local, file);
    IdSetMembers(SourceList(local, file));
    forall r | r in local && r.id == target.id ensures r == target {
      IdDetermines(local, r, target);
    }
  }
}
