/** What the registry's records say, told from the operations alone (src/ide/IdeClientRegistry.ts). */
module RegistryHistory {
  import opened Basics
  import opened FeatureNegotiation
  import opened IdeRegistry

  // ------------------------------------------------------------------- clients

  /** The client connects anew or leaves. */
  predicate BeginsOrEnds(op: Operation, clientId: string)
  {
    (op.Add? || op.Remove?) && op.clientId == clientId
  }

  predicate NamesVersion(op: Operation, clientId: string)
  {
    op.Update? && op.clientId == clientId && op.patch.version.Version?
  }

  predicate NamesFeatures(op: Operation, clientId: string)
  {
    && op.Update? && op.clientId == clientId && op.patch.features.Some?
    && forall f | f in op.patch.features.value :: op.patch.features.value[f].Flag?
  }

  predicate FirstVersion(ops: seq<Operation>, clientId: string, i: nat)
  {
    i < |ops| && NamesVersion(ops[i], clientId) && forall j | 0 <= j < i :: !NamesVersion(ops[j], clientId)
  }

  predicate LastFeatures(ops: seq<Operation>, clientId: string, i: nat)
  {
    i < |ops| && NamesFeatures(ops[i], clientId) && forall j | i < j < |ops| :: !NamesFeatures(ops[j], clientId)
  }

  /** The client's record after the operations: the version is the one it had or the first that a patch names, the features
      are the last that a patch gives as a map of booleans, or the ones it had. */
  ghost predicate RecordFollows(before: Protocol, after: Protocol, ops: seq<Operation>, clientId: string)
  {
    && (before.version.Some? ==> after.version == before.version)
    && (before.version.None? ==> forall i: nat | FirstVersion(ops, clientId, i) :: after.version == Some(ops[i].patch.version.number))
    && (before.version.None? && (forall i | 0 <= i < |ops| :: !NamesVersion(ops[i], clientId)) ==> after.version.None?)
    && (forall i: nat | LastFeatures(ops, clientId, i) :: after.features == ops[i].patch.features)
    && ((forall i | 0 <= i < |ops| :: !NamesFeatures(ops[i], clientId)) ==> after.features == before.features)
  }

  /** One operation other than the client's own patches leaves the record alone. */
  lemma OthersLeaveRecord(s: RegistryState, op: Operation, clientId: string)
    requires clientId in s.clients && !BeginsOrEnds(op, clientId)
    ensures clientId in Step(s, op).clients
    ensures !(op.Update? && op.clientId == clientId) ==> Step(s, op).clients[clientId] == s.clients[clientId]
  {
  }

  /** One patch. */
  lemma PatchIsRecorded(s: RegistryState, op: Operation, clientId: string)
    requires clientId != "" && clientId in s.clients && !BeginsOrEnds(op, clientId)
    ensures var before, after := s.clients[clientId], Step(s, op).clients[clientId];
            && after.version == (if before.version.None? && NamesVersion(op, clientId) then Some(op.patch.version.number) else before.version)
            && after.features == (if NamesFeatures(op, clientId) then op.patch.features else before.features)
  {
    OthersLeaveRecord(s, op, clientId);
  }

  /** A connected client's record, through any operations in which it neither connects anew nor leaves. */
  lemma {:induction false} RecordFollowsPatches(s: RegistryState, ops: seq<Operation>, clientId: string)
    requires clientId != "" && clientId in s.clients
    requires forall i | 0 <= i < |ops| :: !BeginsOrEnds(ops[i], clientId)
    ensures clientId in Run(s, ops).clients
    ensures RecordFollows(s.clients[clientId], Run(s, ops).clients[clientId], ops, clientId)
    decreases |ops|
  {
    if ops != [] {
      var t, rest := Step(s, ops[0]), ops[1..];
      OthersLeaveRecord(s, ops[0], clientId);
      PatchIsRecorded(s, ops[0], clientId);
      RecordFollowsPatches(t, rest, clientId);
      RecordsCompose(s.clients[clientId], t.clients[clientId], Run(s, ops).clients[clientId], ops, clientId);
    }
  }

  lemma RecordsCompose(before: Protocol, next: Protocol, after: Protocol, ops: seq<Operation>, clientId: string)
    requires ops != [] && RecordFollows(next, after, ops[1..], clientId)
    requires next.version == if before.version.None? && NamesVersion(ops[0], clientId) then Some(ops[0].patch.version.number) else before.version
    requires next.features == if NamesFeatures(ops[0], clientId) then ops[0].patch.features else before.features
    ensures RecordFollows(before, after, ops, clientId)
  {
    var rest := ops[1..];
    forall i: nat | before.version.None? && FirstVersion(ops, clientId, i) ensures after.version == Some(ops[i].patch.version.number) {
      if i > 0 {
        assert !NamesVersion(ops[0], clientId);
        assert forall j | 0 <= j < i - 1 :: rest[j] == ops[j + 1];
        assert FirstVersion(rest, clientId, i - 1);
      }
    }
    forall i: nat | LastFeatures(ops, clientId, i) ensures after.features == ops[i].patch.features {
      assert forall j | 0 <= j < |rest| :: rest[j] == ops[j + 1];
      if i > 0 {
        assert LastFeatures(rest, clientId, i - 1);
      }
    }
    assert forall j | 0 <= j < |rest| :: rest[j] == ops[j + 1];
  }

  /** From its connection on: the version is the first valid one of the greeting and the patches after it, the features are
      those of the greeting until a patch gives a map of booleans, then those of the last such patch. */
  lemma ClientSpeaksForItself(s: RegistryState, clientId: string, greeting: ClientPatch, ops: seq<Operation>)
    requires clientId != "" && forall i | 0 <= i < |ops| :: !BeginsOrEnds(ops[i], clientId)
    ensures var t := Run(s, [Add(clientId, greeting)] + ops);
            && clientId in t.clients
            && RecordFollows(Protocol(if greeting.version.Version? then Some(greeting.version.number) else None, greeting.features),
                             t.clients[clientId], ops, clientId)
  {
    assert ([Add(clientId, greeting)] + ops)[1..] == ops;
    RecordFollowsPatches(Step(s, Add(clientId, greeting)), ops, clientId);
  }

  /** A client is on record exactly when it has connected and not left since. */
  lemma {:induction false} ConnectedIffAdded(s: RegistryState, ops: seq<Operation>, clientId: string)
    ensures clientId in Run(s, ops).clients <==>
              || (exists i :: 0 <= i < |ops| && ops[i].Add? && ops[i].clientId == clientId && StaysAfter(ops, i, clientId))
              || (clientId in s.clients && StaysAfter(ops, -1, clientId))
    decreases |ops|
  {
    if ops != [] {
      var t, rest := Step(s, ops[0]), ops[1..];
      ConnectedIffAdded(t, rest, clientId);
      forall i | -1 <= i < |rest| ensures StaysAfter(rest, i, clientId) <==> StaysAfter(ops, i + 1, clientId) {
        assert forall j | 0 <= j < |rest| :: rest[j] == ops[j + 1];
        if StaysAfter(rest, i, clientId) {
          forall j | i + 1 < j < |ops| ensures !(ops[j].Remove? && ops[j].clientId == clientId) {
            assert ops[j] == rest[j - 1];
          }
        }
      }
      assert StaysAfter(ops, -1, clientId) <==> StaysAfter(rest, -1, clientId) && !(ops[0].Remove? && ops[0].clientId == clientId);
      if i :| 0 <= i < |rest| && rest[i].Add? && rest[i].clientId == clientId && StaysAfter(rest, i, clientId) {
        assert ops[i + 1] == rest[i] && StaysAfter(ops, i + 1, clientId);
      }
      if i :| 0 <= i < |ops| && ops[i].Add? && ops[i].clientId == clientId && StaysAfter(ops, i, clientId) && i > 0 {
        assert rest[i - 1] == ops[i] && StaysAfter(rest, i - 1, clientId);
      }
    }
  }

  predicate StaysAfter(ops: seq<Operation>, i: int, clientId: string)
    requires -1 <= i
  {
    forall j | i < j < |ops| :: !(ops[j].Remove? && ops[j].clientId == clientId)
  }

  // ------------------------------------------------------------------ sessions

  /** A message and the state it reports. */
  datatype Said = Said(message: Message, state: string)

  /** The protocol version a session speaks with this message: its own, or else its client's, or else none. */
  function SpokenVersion(s: RegistryState, clientId: string, message: Message): (r: nat)
    requires clientId in s.clients
  {
    var key := clientId + ":" + message.ideSessionId;
    if key in s.sessions && s.sessions[key].protocol.version.Some? then s.sessions[key].protocol.version.value
    else if key !in s.sessions && message.version.Version? then message.version.number
    else if s.clients[clientId].version.Some? then s.clients[clientId].version.value
    else 0
  }

  /** Client and session both speak version 2 or later. */
  predicate SpeaksV2(s: RegistryState, clientId: string, message: Message)
    requires clientId in s.clients
  {
    s.clients[clientId].version.Some? && s.clients[clientId].version.value >= 2 && SpokenVersion(s, clientId, message) >= 2
  }

  /** When a message is taken: both ids are given and the client is known; a first message has no malformed version and a
      later one has none or the one spoken so far; and under version 2 a pause has an epoch, and after one epoch only a
      greater one will do. */
  predicate IsTaken(s: RegistryState, clientId: string, message: Message, state: string)
  {
    && clientId != "" && message.ideSessionId != "" && clientId in s.clients
    && (var key := clientId + ":" + message.ideSessionId;
        && (key !in s.sessions ==> message.version.Missing? || message.version.Version?)
        && (key in s.sessions ==> message.version.Missing? || message.version == Version(SpokenVersion(s, clientId, message)))
        && (SpeaksV2(s, clientId, message) ==>
              && (state == "paused" ==> message.pauseEpoch.Some?)
              && (key in s.pauseEpochs ==> message.pauseEpoch.Some? && message.pauseEpoch.value > s.pauseEpochs[key])))
  }

  lemma TakenIffAccepted(s: RegistryState, clientId: string, message: Message, state: string)
    ensures IsTaken(s, clientId, message, state) <==> Accepts(s, clientId, message, state)
  {
  }

  function TakenBy(s: RegistryState, op: Operation, key: string): (r: seq<Said>)
  {
    if op.Upsert? && op.clientId + ":" + op.message.ideSessionId == key && IsTaken(s, op.clientId, op.message, op.state)
    then [Said(op.message, op.state)]
    else []
  }

  /** The messages of one session that are taken in the course of the operations. */
  function TakenDuring(s: RegistryState, ops: seq<Operation>, key: string): (r: seq<Said>)
    decreases |ops|
  {
    if ops == [] then [] else TakenBy(s, ops[0], key) + TakenDuring(Step(s, ops[0]), ops[1..], key)
  }

  predicate Mentions(said: Said, feature: string)
  {
    said.message.features.Some? && feature in said.message.features.value
  }

  predicate Refuses(said: Said, feature: string)
  {
    Mentions(said, feature) && said.message.features.value[feature] == Flag(false)
  }

  predicate LastMention(taken: seq<Said>, feature: string, j: nat)
  {
    j < |taken| && Mentions(taken[j], feature) && forall k | j < k < |taken| :: !Mentions(taken[k], feature)
  }

  /** The record of a session, feature by feature: refused for good once refused, otherwise as last mentioned. */
  ghost predicate FeatureFollows(features: Option<FeatureMap>, taken: seq<Said>, feature: string)
  {
    && ((exists j :: 0 <= j < |taken| && Refuses(taken[j], feature)) ==>
          features.Some? && feature in features.value && features.value[feature] == Flag(false))
    && ((forall j | 0 <= j < |taken| :: !Refuses(taken[j], feature)) ==>
          forall j: nat | LastMention(taken, feature, j) ::
            features.Some? && feature in features.value && features.value[feature] == taken[j].message.features.value[feature])
    && ((forall j | 0 <= j < |taken| :: !Mentions(taken[j], feature)) ==> features.None? || feature !in features.value)
  }

  ghost predicate FeaturesFollow(features: Option<FeatureMap>, taken: seq<Said>)
  {
    forall feature: string :: FeatureFollows(features, taken, feature)
  }

  /** The record of a session is told by its messages: the version of the first, the state of the last, the features of
      all, and as many revisions as there were messages. */
  ghost predicate SessionFollows(s: RegistryState, key: string, taken: seq<Said>)
  {
    && taken != [] && key in s.sessions && key in s.revisions
    && s.revisions[key] == |taken|
    && s.sessions[key].state == taken[|taken| - 1].state
    && s.sessions[key].protocol.version
       == (if taken[0].message.version.Version? then Some(taken[0].message.version.number) else None)
    && (taken[|taken| - 1].message.pauseEpoch.Some? ==> s.sessions[key].pauseEpoch == taken[|taken| - 1].message.pauseEpoch)
    && FeaturesFollow(s.sessions[key].protocol.features, taken)
  }

  lemma {:induction false} SomeMentionIsLast(taken: seq<Said>, feature: string, i: nat) returns (j: nat)
    requires i < |taken| && Mentions(taken[i], feature)
    ensures LastMention(taken, feature, j)
    decreases |taken| - i
  {
    if k :| i < k < |taken| && Mentions(taken[k], feature) {
      j := SomeMentionIsLast(taken, feature, k);
    } else {
      j := i;
    }
  }

  lemma NeverRefusedIsNotFalse(features: Option<FeatureMap>, taken: seq<Said>, feature: string)
    requires FeatureFollows(features, taken, feature) && forall j | 0 <= j < |taken| :: !Refuses(taken[j], feature)
    ensures features.Some? && feature in features.value ==> features.value[feature] != Flag(false)
  {
    if i :| 0 <= i < |taken| && Mentions(taken[i], feature) {
      var j := SomeMentionIsLast(taken, feature, i);
      assert !Refuses(taken[j], feature);
    }
  }

  lemma MergeFollows(features: Option<FeatureMap>, taken: seq<Said>, said: Said, feature: string)
    requires FeatureFollows(features, taken, feature)
    ensures FeatureFollows(MergedFeatures(features, said.message.features), taken + [said], feature)
  {
    var all := taken + [said];
    assert all[|taken|] == said && forall j | 0 <= j < |taken| :: all[j] == taken[j];
    if j :| 0 <= j < |all| && Refuses(all[j], feature) && j < |taken| {
      assert Refuses(taken[j], feature);
    }
    if forall j | 0 <= j < |all| :: !Refuses(all[j], feature) {
      assert forall j | 0 <= j < |taken| :: !Refuses(taken[j], feature) by {
        forall j | 0 <= j < |taken| ensures !Refuses(taken[j], feature) {
          assert !Refuses(all[j], feature);
        }
      }
      NeverRefusedIsNotFalse(features, taken, feature);
    }
  }

  lemma FirstFollows(said: Said, feature: string)
    ensures FeatureFollows(said.message.features, [said], feature)
  {
    assert [said][0] == said;
  }

  /** A message that is taken, as the next of its session. */
  lemma TakenIsRecorded(s: RegistryState, op: Operation, key: string, taken: seq<Said>)
    requires SessionFollows(s, key, taken) && TakenBy(s, op, key) != []
    ensures SessionFollows(Step(s, op), key, taken + TakenBy(s, op, key))
  {
    TakenIffAccepted(s, op.clientId, op.message, op.state);
    var said := Said(op.message, op.state);
    var all := taken + [said];
    var features := s.sessions[key].protocol.features;
    forall feature: string ensures FeatureFollows(MergedFeatures(features, op.message.features), all, feature) {
      MergeFollows(features, taken, said, feature);
    }
    assert all[0] == taken[0] && all[|all| - 1] == said;
  }

  /** Any other operation leaves the record as it is, as long as the session stays stored. */
  lemma OthersLeaveSession(s: RegistryState, op: Operation, key: string)
    requires key in s.sessions && key in s.revisions && key in Step(s, op).sessions && TakenBy(s, op, key) == []
    ensures key in Step(s, op).revisions && Step(s, op).revisions[key] == s.revisions[key]
    ensures Step(s, op).sessions[key].(negotiated := s.sessions[key].negotiated) == s.sessions[key]
  {
    match op
    case Add(clientId, _) => DroppingIsExact(s, clientId);
    case Update(clientId, patch) =>
      if clientId != "" && clientId in s.clients {
        UpdateAt(s, clientId, patch, key);
      }
    case Remove(clientId) => RemovalAt(s, clientId, key);
    case Upsert(clientId, message, state) => TakenIffAccepted(s, clientId, message, state);
    case RemoveSession(_, _) =>
  }

  lemma {:induction false} RecordFollowsMessages(s: RegistryState, ops: seq<Operation>, key: string, taken: seq<Said>)
    requires SessionFollows(s, key, taken) && LivesThrough(s, ops, key)
    ensures SessionFollows(Run(s, ops), key, taken + TakenDuring(s, ops, key))
    decreases |ops|
  {
    if ops == [] {
      assert taken + [] == taken;
    } else {
      var now, rest := TakenBy(s, ops[0], key), TakenDuring(Step(s, ops[0]), ops[1..], key);
      if now == [] {
        OthersLeaveSession(s, ops[0], key);
        assert taken + now == taken;
      } else {
        TakenIsRecorded(s, ops[0], key, taken);
      }
      RecordFollowsMessages(Step(s, ops[0]), ops[1..], key, taken + now);
      assert (taken + now) + rest == taken + (now + rest);
    }
  }

  /** From the first message of a session on, through any operations that leave it stored, its record is told by its
      messages alone. */
  lemma SessionIsToldByItsMessages(s: RegistryState, clientId: string, first: Message, state: string, ops: seq<Operation>)
    requires KeysAgree(s) && clientId + ":" + first.ideSessionId !in s.sessions && IsTaken(s, clientId, first, state)
    requires LivesThrough(Step(s, Upsert(clientId, first, state)), ops, clientId + ":" + first.ideSessionId)
    ensures var key := clientId + ":" + first.ideSessionId;
            var t := Step(s, Upsert(clientId, first, state));
            SessionFollows(Run(t, ops), key, [Said(first, state)] + TakenDuring(t, ops, key))
  {
    var key := clientId + ":" + first.ideSessionId;
    var t := Step(s, Upsert(clientId, first, state));
    TakenIffAccepted(s, clientId, first, state);
    forall feature: string ensures FeatureFollows(first.features, [Said(first, state)], feature) {
      FirstFollows(Said(first, state), feature);
    }
    RecordFollowsMessages(t, ops, key, [Said(first, state)]);
  }

  // --------------------------------------------------------- which sessions there are

  /** The session is told to go: its client connects anew or leaves, or the session itself is removed. */
  predicate EndsSession(op: Operation, clientId: string, ideSessionId: string)
  {
    || BeginsOrEnds(op, clientId)
    || (op.RemoveSession? && op.clientId != "" && op.ideSessionId != "" && op.clientId + ":" + op.ideSessionId == clientId + ":" + ideSessionId)
  }

  lemma OwnerOfKey(s: RegistryState, clientId: string, ideSessionId: string)
    requires Inv(s) && PlainClients(s) && NoColon(clientId) && clientId + ":" + ideSessionId in s.sessions
    ensures s.sessions[clientId + ":" + ideSessionId].clientId == clientId
  {
    var key := clientId + ":" + ideSessionId;
    assert SessionOk(s, key);
    KeysAreUnambiguous(clientId, ideSessionId, s.sessions[key].clientId, s.sessions[key].ideSessionId);
  }

  /** What an operation that is not a message of the session does to its entry. */
  lemma StoredAfterOther(s: RegistryState, op: Operation, clientId: string, ideSessionId: string)
    requires var key := clientId + ":" + ideSessionId; key in s.sessions ==> s.sessions[key].clientId == clientId
    requires !op.Upsert?
    ensures var key := clientId + ":" + ideSessionId;
            key in Step(s, op).sessions <==> key in s.sessions && !EndsSession(op, clientId, ideSessionId)
  {
    match op
    case Add(c, _) => DroppingIsExact(s, c);
    case Update(c, patch) =>
    case Remove(c) => DroppingIsExact(s.(clients := s.clients - {c}), c);
    case RemoveSession(_, _) =>
  }

  lemma StoredAfterMessage(s: RegistryState, op: Operation, key: string)
    requires op.Upsert?
    ensures key in Step(s, op).sessions <==> TakenBy(s, op, key) != [] || key in s.sessions
  {
    TakenIffAccepted(s, op.clientId, op.message, op.state);
  }

  lemma StoredAfterStep(s: RegistryState, op: Operation, clientId: string, ideSessionId: string)
    requires Inv(s) && PlainClients(s) && NoColon(clientId)
    ensures var key := clientId + ":" + ideSessionId;
            key in Step(s, op).sessions <==>
              TakenBy(s, op, key) != [] || (key in s.sessions && !EndsSession(op, clientId, ideSessionId))
  {
    var key := clientId + ":" + ideSessionId;
    if key in s.sessions {
      OwnerOfKey(s, clientId, ideSessionId);
    }
    if op.Upsert? {
      StoredAfterMessage(s, op, key);
    } else {
      StoredAfterOther(s, op, clientId, ideSessionId);
    }
  }

  /** A message of the session is taken at this point of the run. */
  ghost predicate TakenAt(s: RegistryState, ops: seq<Operation>, key: string, i: int)
  {
    0 <= i < |ops| && TakenBy(Run(s, ops[..i]), ops[i], key) != []
  }

  ghost predicate NotEndedAfter(ops: seq<Operation>, i: int, clientId: string, ideSessionId: string)
    requires -1 <= i
  {
    forall j | i < j < |ops| :: !EndsSession(ops[j], clientId, ideSessionId)
  }

  lemma TakenFurtherOn(s: RegistryState, ops: seq<Operation>, key: string, i: nat)
    requires ops != []
    ensures TakenAt(s, ops, key, i + 1) <==> TakenAt(Step(s, ops[0]), ops[1..], key, i)
  {
    if i + 1 < |ops| {
      assert ops[..i + 1][0] == ops[0] && ops[..i + 1][1..] == ops[1..][..i];
    }
  }

  lemma EndedFurtherOn(ops: seq<Operation>, i: int, clientId: string, ideSessionId: string)
    requires ops != [] && -1 <= i
    ensures NotEndedAfter(ops, i + 1, clientId, ideSessionId) <==> NotEndedAfter(ops[1..], i, clientId, ideSessionId)
  {
    assert forall j | 0 <= j < |ops[1..]| :: ops[1..][j] == ops[j + 1];
    if NotEndedAfter(ops[1..], i, clientId, ideSessionId) {
      forall j | i + 1 < j < |ops| ensures !EndsSession(ops[j], clientId, ideSessionId) {
        assert ops[j] == ops[1..][j - 1];
      }
    }
  }

  /** A session is on record exactly when a message of it has been taken, or it was there before, and it has not been told
      to go since. */
  lemma {:induction false} StoredIffTakenAndNotEnded(s: RegistryState, ops: seq<Operation>, clientId: string, ideSessionId: string)
    requires Inv(s) && PlainClients(s) && NoColon(clientId) && forall i | 0 <= i < |ops| :: PlainOperation(ops[i])
    ensures var key := clientId + ":" + ideSessionId;
            key in Run(s, ops).sessions <==>
              || (key in s.sessions && NotEndedAfter(ops, -1, clientId, ideSessionId))
              || (exists i :: TakenAt(s, ops, key, i) && NotEndedAfter(ops, i, clientId, ideSessionId))
    decreases |ops|
  {
    var key := clientId + ":" + ideSessionId;
    if ops != [] {
      var t, rest := Step(s, ops[0]), ops[1..];
      StepKeepsInv(s, ops[0]);
      StepKeepsPlainClients(s, ops[0]);
      StoredIffTakenAndNotEnded(t, rest, clientId, ideSessionId);
      StoredAfterStep(s, ops[0], clientId, ideSessionId);
      StoredFurtherOn(s, ops, key, clientId, ideSessionId);
    }
  }

  lemma StoredFurtherOn(s: RegistryState, ops: seq<Operation>, key: string, clientId: string, ideSessionId: string)
    requires ops != []
    ensures NotEndedAfter(ops, -1, clientId, ideSessionId) <==>
              !EndsSession(ops[0], clientId, ideSessionId) && NotEndedAfter(ops[1..], -1, clientId, ideSessionId)
    ensures TakenAt(s, ops, key, 0) <==> TakenBy(s, ops[0], key) != []
    ensures NotEndedAfter(ops, 0, clientId, ideSessionId) <==> NotEndedAfter(ops[1..], -1, clientId, ideSessionId)
    ensures (exists i :: TakenAt(s, ops, key, i) && NotEndedAfter(ops, i, clientId, ideSessionId)) <==>
              || (TakenAt(s, ops, key, 0) && NotEndedAfter(ops, 0, clientId, ideSessionId))
              || (exists i :: TakenAt(Step(s, ops[0]), ops[1..], key, i) && NotEndedAfter(ops[1..], i, clientId, ideSessionId))
  {
    assert ops[..0] == [];
    EndedFurtherOn(ops, -1, clientId, ideSessionId);
    if i :| TakenAt(s, ops, key, i) && NotEndedAfter(ops, i, clientId, ideSessionId) && i > 0 {
      TakenFurtherOn(s, ops, key, i - 1);
      EndedFurtherOn(ops, i - 1, clientId, ideSessionId);
    }
    if i :| TakenAt(Step(s, ops[0]), ops[1..], key, i) && NotEndedAfter(ops[1..], i, clientId, ideSessionId) {
      TakenFurtherOn(s, ops, key, i);
      EndedFurtherOn(ops, i, clientId, ideSessionId);
    }
  }
}
