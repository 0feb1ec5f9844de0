/** What two ends agree a debugger can do (src/ide/DebuggerFeatureNegotiation.ts). */
module FeatureNegotiation {
  import opened Basics

  /** A feature entry of a message: a boolean, or some other JSON value. */
  datatype FeatureValue = Flag(on: bool) | OtherValue

  type FeatureMap = map<string, FeatureValue>

  /** A version field as received; `Malformed` is anything but a non-negative safe integer. */
  datatype VersionField = Missing | Malformed | Version(number: nat)

  datatype Protocol = Protocol(version: Option<nat>, features: Option<FeatureMap>)

  const FEATURES: set<string> :=
    {"breakpointUpdate", "eventStream", "stackPagination", "variableHandles", "nativeSetVariable", "causalDebugStart"}

  function ValidVersion(field: VersionField): (r: Option<nat>)
  {
    if field.Version? then Some(field.number) else None
  }

  function VersionOr(version: Option<nat>, fallback: nat): (r: nat)
  {
    if version.Some? then version.value else fallback
  }

  predicate IsV2(client: Protocol, session: Protocol)
  {
    VersionOr(client.version, 0) >= 2 && VersionOr(session.version, VersionOr(client.version, 0)) >= 2
  }

  predicate Declares(protocol: Protocol, feature: string, on: bool)
  {
    protocol.features.Some? && feature in protocol.features.value && protocol.features.value[feature] == Flag(on)
  }

  /** A feature is on when both ends speak version 2, the client offers it and the session does not refuse it. */
  function Negotiate(client: Protocol, session: Protocol): (r: map<string, bool>)
    ensures r.Keys == FEATURES
    ensures forall f | f in r :: r[f] <==>
              && client.version.Some? && client.version.value >= 2 && (session.version.Some? ==> session.version.value >= 2)
              && client.features.Some? && f in client.features.value && client.features.value[f] == Flag(true)
              && !(session.features.Some? && f in session.features.value && session.features.value[f] == Flag(false))
  {
    map f | f in FEATURES :: IsV2(client, session) && Declares(client, f, true) && !Declares(session, f, false)
  }
}

/** The hub's record of connected IDEs and their debug sessions (src/ide/IdeClientRegistry.ts). */
module IdeRegistry {
  import opened Basics
  import opened FeatureNegotiation

  datatype Session = Session(
    clientId: string,
    ideSessionId: string,
    state: string,
    protocol: Protocol,
    negotiated: map<string, bool>,
    pauseEpoch: Option<nat>)

  /** A lifecycle message; `pauseEpoch` is present when it is a non-negative safe integer. */
  datatype Message = Message(
    ideSessionId: string,
    version: VersionField,
    features: Option<FeatureMap>,
    pauseEpoch: Option<nat>)

  /** The debugger part of a client patch; a feature field that is not a map of booleans is dropped. */
  datatype ClientPatch = ClientPatch(version: VersionField, features: Option<FeatureMap>)

  datatype RegistryState = RegistryState(
    clients: map<string, Protocol>,
    sessions: map<string, Session>,
    revisions: map<string, nat>,
    pauseEpochs: map<string, nat>)

  const EMPTY: RegistryState := RegistryState(map[], map[], map[], map[])

  function SessionKey(clientId: string, ideSessionId: string): (r: string)
  {
    clientId + ":" + ideSessionId
  }

  // --------------------------------------------------------------- operations

  function KeysOf(s: RegistryState, clientId: string): (r: set<string>)
  {
    set k | k in s.sessions && s.sessions[k].clientId == clientId
  }

  function WithoutKeys(s: RegistryState, gone: set<string>): (r: RegistryState)
  {
    s.(sessions := s.sessions - gone, revisions := s.revisions - gone, pauseEpochs := s.pauseEpochs - gone)
  }

  function WithoutSessionsOf(s: RegistryState, clientId: string): (r: RegistryState)
  {
    WithoutKeys(s, KeysOf(s, clientId))
  }

  lemma DropOneMoreKey(s: RegistryState, gone: set<string>, key: string)
    ensures WithoutKeys(WithoutKeys(s, gone), {key}) == WithoutKeys(s, gone + {key})
  {
    MinusTwice(s.sessions, gone, {key});
    MinusTwice(s.revisions, gone, {key});
    MinusTwice(s.pauseEpochs, gone, {key});
  }

  lemma MinusTwice<T, U>(m: map<T, U>, first: set<T>, second: set<T>)
    ensures m - first - second == m - (first + second)
  {
  }

  lemma NothingDropped(s: RegistryState, clientId: string)
    ensures WithoutKeys(s, KeysOf(s, clientId) - s.sessions.Keys) == s
  {
    assert KeysOf(s, clientId) - s.sessions.Keys == {};
    assert s.sessions - {} == s.sessions && s.revisions - {} == s.revisions && s.pauseEpochs - {} == s.pauseEpochs;
  }

  lemma VisitedKeyIsSettled(s: RegistryState, clientId: string, rest: set<string>, key: string)
    requires key in rest && rest <= s.sessions.Keys
    ensures KeysOf(s, clientId) - (rest - {key})
         == if s.sessions[key].clientId == clientId then KeysOf(s, clientId) - rest + {key} else KeysOf(s, clientId) - rest
  {
  }

  function Added(s: RegistryState, clientId: string, metadata: ClientPatch): (r: RegistryState)
  {
    var s1 := WithoutSessionsOf(s, clientId);
    s1.(clients := s1.clients[clientId := Protocol(ValidVersion(metadata.version), metadata.features)])
  }

  predicate AllFlags(features: FeatureMap)
  {
    forall f | f in features :: features[f].Flag?
  }

  /** A client's version is written once; its features are replaced whenever a map of booleans comes. */
  function PatchedClient(client: Protocol, patch: ClientPatch): (r: Protocol)
  {
    Protocol(if client.version.None? then ValidVersion(patch.version) else client.version,
             if patch.features.Some? && AllFlags(patch.features.value) then patch.features else client.features)
  }

  function Renegotiated(sessions: map<string, Session>, clientId: string, client: Protocol): (r: map<string, Session>)
  {
    map k | k in sessions ::
      if sessions[k].clientId == clientId
      then sessions[k].(negotiated := Negotiate(client, sessions[k].protocol))
      else sessions[k]
  }

  function Updated(s: RegistryState, clientId: string, patch: ClientPatch): (r: RegistryState)
  {
    if clientId == "" || clientId !in s.clients then s
    else
      var client := PatchedClient(s.clients[clientId], patch);
      s.(clients := s.clients[clientId := client], sessions := Renegotiated(s.sessions, clientId, client))
  }

  function Removed(s: RegistryState, clientId: string): (r: RegistryState)
  {
    WithoutSessionsOf(s.(clients := s.clients - {clientId}), clientId)
  }

  /** Incoming features win, except that a feature once declared false stays false. */
  function MergedFeatures(existing: Option<FeatureMap>, incoming: Option<FeatureMap>): (r: Option<FeatureMap>)
  {
    if existing.None? then incoming
    else if incoming.None? then existing
    else Some(map f | f in existing.value.Keys + incoming.value.Keys ::
                if f in existing.value && existing.value[f] == Flag(false) then Flag(false)
                else if f in incoming.value then incoming.value[f] else existing.value[f])
  }

  function MergedProtocol(existing: Option<Session>, message: Message): (r: Protocol)
  {
    if existing.None? then Protocol(ValidVersion(message.version), message.features)
    else Protocol(existing.value.protocol.version, MergedFeatures(existing.value.protocol.features, message.features))
  }

  function EffectiveVersion(client: Protocol, session: Session): (r: nat)
  {
    VersionOr(session.protocol.version, VersionOr(client.version, 0))
  }

  /** Whether `upsertSession` takes a message. */
  predicate Accepts(s: RegistryState, clientId: string, message: Message, state: string)
  {
    clientId != "" && message.ideSessionId != "" && clientId in s.clients &&
    var client := s.clients[clientId];
    var key := SessionKey(clientId, message.ideSessionId);
    var existing := if key in s.sessions then Some(s.sessions[key]) else None;
    var v2 := IsV2(client, MergedProtocol(existing, message));
    && (existing.None? ==> !message.version.Malformed?)
    && (existing.Some? && !message.version.Missing? ==> ValidVersion(message.version) == Some(EffectiveVersion(client, existing.value)))
    && (v2 && state == "paused" ==> message.pauseEpoch.Some?)
    && (v2 && key in s.pauseEpochs ==> message.pauseEpoch.Some? && message.pauseEpoch.value > s.pauseEpochs[key])
  }

  function Upserted(s: RegistryState, clientId: string, message: Message, state: string): (r: RegistryState)
  {
    if !Accepts(s, clientId, message, state) then s
    else
      var client := s.clients[clientId];
      var key := SessionKey(clientId, message.ideSessionId);
      var existing := if key in s.sessions then Some(s.sessions[key]) else None;
      var protocol := MergedProtocol(existing, message);
      var v2 := IsV2(client, protocol);
      var known := if key in s.pauseEpochs then Some(s.pauseEpochs[key]) else None;
      var session := Session(clientId, message.ideSessionId, state, protocol, Negotiate(client, protocol),
                             if message.pauseEpoch.Some? then message.pauseEpoch else known);
      s.(sessions := s.sessions[key := session],
         pauseEpochs := if v2 && message.pauseEpoch.Some? then s.pauseEpochs[key := message.pauseEpoch.value] else s.pauseEpochs,
         revisions := s.revisions[key := (if key in s.revisions then s.revisions[key] else 0) + 1])
  }

  function SessionRemoved(s: RegistryState, clientId: string, ideSessionId: string): (r: RegistryState)
  {
    if clientId == "" || ideSessionId == "" then s
    else
      var key := SessionKey(clientId, ideSessionId);
      s.(sessions := s.sessions - {key}, revisions := s.revisions - {key}, pauseEpochs := s.pauseEpochs - {key})
  }

  datatype Operation =
    | Add(clientId: string, metadata: ClientPatch)
    | Update(clientId: string, patch: ClientPatch)
    | Remove(clientId: string)
    | Upsert(clientId: string, message: Message, state: string)
    | RemoveSession(clientId: string, ideSessionId: string)

  function Step(s: RegistryState, op: Operation): (r: RegistryState)
  {
    match op
    case Add(clientId, metadata) => Added(s, clientId, metadata)
    case Update(clientId, patch) => Updated(s, clientId, patch)
    case Remove(clientId) => Removed(s, clientId)
    case Upsert(clientId, message, state) => Upserted(s, clientId, message, state)
    case RemoveSession(clientId, ideSessionId) => SessionRemoved(s, clientId, ideSessionId)
  }

  function Run(s: RegistryState, ops: seq<Operation>): (r: RegistryState)
    decreases |ops|
  {
    if ops == [] then s else Run(Step(s, ops[0]), ops[1..])
  }

  // ------------------------------------------------------------------ invariant

  ghost predicate SessionOk(s: RegistryState, key: string)
    requires key in s.sessions
  {
    var session := s.sessions[key];
    && session.clientId in s.clients
    && key == SessionKey(session.clientId, session.ideSessionId)
    && session.negotiated == Negotiate(s.clients[session.clientId], session.protocol)
  }

  ghost predicate SessionsOk(s: RegistryState)
  {
    forall key | key in s.sessions :: SessionOk(s, key)
  }

  ghost predicate KeysAgree(s: RegistryState)
  {
    s.revisions.Keys == s.sessions.Keys && s.pauseEpochs.Keys <= s.sessions.Keys
  }

  ghost predicate Inv(s: RegistryState)
  {
    SessionsOk(s) && KeysAgree(s)
  }

  lemma DroppingKeepsKeysAgreeing(s: RegistryState, gone: set<string>)
    requires KeysAgree(s)
    ensures KeysAgree(WithoutKeys(s, gone))
  {
  }

  /** Dropping a client's sessions keeps the others as they are. */
  lemma DroppingIsExact(s: RegistryState, clientId: string)
    ensures var t := WithoutSessionsOf(s, clientId);
            && t.clients == s.clients
            && t.sessions.Keys == s.sessions.Keys - KeysOf(s, clientId)
            && t.revisions.Keys == s.revisions.Keys - KeysOf(s, clientId)
            && t.pauseEpochs.Keys == s.pauseEpochs.Keys - KeysOf(s, clientId)
            && (forall k | k in t.sessions :: t.sessions[k] == s.sessions[k] && s.sessions[k].clientId != clientId)
            && (forall k | k in t.pauseEpochs :: t.pauseEpochs[k] == s.pauseEpochs[k])
  {
  }

  lemma UntouchedSessionStaysOk(s: RegistryState, t: RegistryState, key: string)
    requires key in s.sessions && key in t.sessions && t.sessions[key] == s.sessions[key] && SessionOk(s, key)
    requires t.clients == s.clients
    ensures SessionOk(t, key)
  {
  }

  lemma SessionRemovalIsExact(s: RegistryState, clientId: string, ideSessionId: string)
    ensures var t := SessionRemoved(s, clientId, ideSessionId);
            && t.clients == s.clients
            && (forall k | k in t.sessions :: k in s.sessions && t.sessions[k] == s.sessions[k])
            && (s.revisions.Keys == s.sessions.Keys ==> t.revisions.Keys == t.sessions.Keys)
            && (s.pauseEpochs.Keys <= s.sessions.Keys ==> t.pauseEpochs.Keys <= t.sessions.Keys)
            && (forall k | k in t.sessions && k in s.pauseEpochs :: k in t.pauseEpochs && t.pauseEpochs[k] == s.pauseEpochs[k])
  {
  }

  lemma AddKeepsInv(s: RegistryState, clientId: string, metadata: ClientPatch)
    requires Inv(s)
    ensures Inv(Added(s, clientId, metadata))
  {
    var t := Added(s, clientId, metadata);
    DroppingIsExact(s, clientId);
    forall key | key in t.sessions ensures SessionOk(t, key) {
      assert SessionOk(s, key);
    }
  }

  /** A client's patch, session by session. */
  lemma UpdateAt(s: RegistryState, clientId: string, patch: ClientPatch, key: string)
    requires key in s.sessions && clientId != "" && clientId in s.clients
    ensures var t := Updated(s, clientId, patch);
            var client := PatchedClient(s.clients[clientId], patch);
            && t.clients == s.clients[clientId := client] && key in t.sessions
            && t.sessions[key] == (if s.sessions[key].clientId == clientId
                                   then s.sessions[key].(negotiated := Negotiate(client, s.sessions[key].protocol))
                                   else s.sessions[key])
  {
  }

  lemma UpdateKeepsSessionOk(s: RegistryState, clientId: string, patch: ClientPatch, key: string)
    requires key in s.sessions && SessionOk(s, key)
    ensures key in Updated(s, clientId, patch).sessions && SessionOk(Updated(s, clientId, patch), key)
  {
    if clientId != "" && clientId in s.clients {
      UpdateAt(s, clientId, patch, key);
    }
  }

  lemma UpdateKeepsInv(s: RegistryState, clientId: string, patch: ClientPatch)
    requires Inv(s)
    ensures Inv(Updated(s, clientId, patch))
  {
    var t := Updated(s, clientId, patch);
    forall key | key in t.sessions ensures SessionOk(t, key) {
      UpdateKeepsSessionOk(s, clientId, patch, key);
    }
  }

  lemma SessionStaysOk(s: RegistryState, t: RegistryState, key: string)
    requires key in s.sessions && key in t.sessions && t.sessions[key] == s.sessions[key] && SessionOk(s, key)
    requires s.sessions[key].clientId in t.clients && t.clients[s.sessions[key].clientId] == s.clients[s.sessions[key].clientId]
    ensures SessionOk(t, key)
  {
  }

  lemma RemoveKeepsSessionsOk(s: RegistryState, clientId: string)
    requires SessionsOk(s)
    ensures SessionsOk(Removed(s, clientId))
  {
    var t := Removed(s, clientId);
    forall key | key in t.sessions ensures SessionOk(t, key) {
      RemovalAt(s, clientId, key);
      SessionStaysOk(s, t, key);
    }
  }

  lemma RemoveKeepsInv(s: RegistryState, clientId: string)
    requires Inv(s)
    ensures Inv(Removed(s, clientId))
  {
    var u := s.(clients := s.clients - {clientId});
    RemoveKeepsSessionsOk(s, clientId);
    DroppingKeepsKeysAgreeing(u, KeysOf(u, clientId));
  }

  lemma UpsertKeepsInv(s: RegistryState, clientId: string, message: Message, state: string)
    requires Inv(s)
    ensures Inv(Upserted(s, clientId, message, state))
  {
    var t := Upserted(s, clientId, message, state);
    forall key | key in t.sessions ensures SessionOk(t, key) {
      if key in s.sessions {
        assert SessionOk(s, key);
      }
    }
  }

  lemma RemoveSessionKeepsInv(s: RegistryState, clientId: string, ideSessionId: string)
    requires Inv(s)
    ensures Inv(SessionRemoved(s, clientId, ideSessionId))
  {
    var t := SessionRemoved(s, clientId, ideSessionId);
    SessionRemovalIsExact(s, clientId, ideSessionId);
    forall key | key in t.sessions ensures SessionOk(t, key) {
      UntouchedSessionStaysOk(s, t, key);
    }
  }

  lemma StepKeepsInv(s: RegistryState, op: Operation)
    requires Inv(s)
    ensures Inv(Step(s, op))
  {
    match op
    case Add(clientId, metadata) => AddKeepsInv(s, clientId, metadata);
    case Update(clientId, patch) => UpdateKeepsInv(s, clientId, patch);
    case Remove(clientId) => RemoveKeepsInv(s, clientId);
    case Upsert(clientId, message, state) => UpsertKeepsInv(s, clientId, message, state);
    case RemoveSession(clientId, ideSessionId) => RemoveSessionKeepsInv(s, clientId, ideSessionId);
  }

  lemma {:induction false} RunKeepsInv(s: RegistryState, ops: seq<Operation>)
    requires Inv(s)
    ensures Inv(Run(s, ops))
    decreases |ops|
  {
    if ops != [] {
      StepKeepsInv(s, ops[0]);
      RunKeepsInv(Step(s, ops[0]), ops[1..]);
    }
  }

  /** In every reachable state each stored session belongs to a live client, sits under its own key, and its negotiated
      features are what a fresh negotiation gives. */
  lemma NegotiationIsAlwaysFresh(ops: seq<Operation>)
    ensures var s := Run(EMPTY, ops);
            forall key | key in s.sessions :: SessionOk(s, key)
  {
    RunKeepsInv(EMPTY, ops);
  }

  // ------------------------------------------------------------------- keys

  predicate NoColon(text: string)
  {
    ':' !in text
  }

  /** Client ids without a colon, which is what the hub generates, make session keys unambiguous. */
  lemma KeysAreUnambiguous(c: string, i: string, d: string, j: string)
    requires NoColon(c) && NoColon(d) && SessionKey(c, i) == SessionKey(d, j)
    ensures c == d && i == j
  {
    PartsAreUnambiguous(c, i, d, j, ':');
  }

  /** Exactly when sessions of two clients can share an entry: one client id starts with the other and a colon. */
  lemma KeysCollideIff(c: string, d: string)
    requires c != d
    ensures (exists i: string, j: string :: SessionKey(c, i) == SessionKey(d, j)) <==> c + ":" <= d || d + ":" <= c
  {
    if c + ":" <= d {
      LongerIdCollides(c, d);
    } else if d + ":" <= c {
      LongerIdCollides(d, c);
    }
    forall i: string, j: string | SessionKey(c, i) == SessionKey(d, j) ensures c + ":" <= d || d + ":" <= c {
      CollisionIsPrefix(c, i, d, j);
    }
  }

  lemma LongerIdCollides(c: string, d: string)
    requires c + ":" <= d
    ensures SessionKey(c, d[|c| + 1..] + ":") == SessionKey(d, "")
  {
    assert d == c + ":" + d[|c| + 1..];
  }

  lemma CollisionIsPrefix(c: string, i: string, d: string, j: string)
    requires c != d && SessionKey(c, i) == SessionKey(d, j)
    ensures c + ":" <= d || d + ":" <= c
  {
    var k, l := SessionKey(c, i), SessionKey(d, j);
    assert k[..|c| + 1] == c + ":" && l[..|d| + 1] == d + ":";
    if |c| < |d| {
      assert l[..|c| + 1] == d[..|c| + 1];
    } else if |d| < |c| {
      assert k[..|d| + 1] == c[..|d| + 1];
    } else {
      SameLengthParts(c, i, d, j, ':');
    }
  }

  ghost predicate PlainClients(s: RegistryState)
  {
    forall c | c in s.clients :: NoColon(c)
  }

  ghost predicate PlainOperation(op: Operation)
  {
    op.Add? ==> NoColon(op.clientId)
  }

  // -------------------------------------------------------- one session's life

  ghost predicate SessionIsV2(s: RegistryState, key: string)
  {
    key in s.sessions && s.sessions[key].clientId in s.clients && IsV2(s.clients[s.sessions[key].clientId], s.sessions[key].protocol)
  }

  ghost predicate Refused(s: RegistryState, key: string, feature: string)
  {
    key in s.sessions && Declares(s.sessions[key].protocol, feature, false)
  }

  /** Two states of one stored session: same owner and version, and the owner's own version is only ever filled in. */
  ghost predicate SameLife(s: RegistryState, t: RegistryState, key: string)
  {
    && key in s.sessions && key in t.sessions
    && t.sessions[key].clientId == s.sessions[key].clientId
    && t.sessions[key].protocol.version == s.sessions[key].protocol.version
    && s.sessions[key].clientId in s.clients && s.sessions[key].clientId in t.clients
    && (s.clients[s.sessions[key].clientId].version.Some? ==>
          t.clients[s.sessions[key].clientId].version == s.clients[s.sessions[key].clientId].version)
  }

  /** What a step may not take back from a session that stays stored. */
  ghost predicate KeepsPromises(s: RegistryState, t: RegistryState, key: string, feature: string)
  {
    && SameLife(s, t, key)
    && (Refused(s, key, feature) ==> Refused(t, key, feature))
    && (key in s.pauseEpochs ==> key in t.pauseEpochs)
    && (key in s.pauseEpochs && SessionIsV2(s, key) ==> s.pauseEpochs[key] <= t.pauseEpochs[key])
  }

  /** Version 2, once reached, is kept by every later state of the same life. */
  lemma V2NeverReverts(s: RegistryState, t: RegistryState, key: string)
    requires SameLife(s, t, key) && SessionIsV2(s, key)
    ensures SessionIsV2(t, key)
  {
  }

  lemma AddKeepsPromises(s: RegistryState, clientId: string, metadata: ClientPatch, key: string, feature: string)
    requires Inv(s) && key in s.sessions && key in Added(s, clientId, metadata).sessions
    ensures KeepsPromises(s, Added(s, clientId, metadata), key, feature)
  {
    assert SessionOk(s, key);
  }

  lemma UpdateKeepsPromises(s: RegistryState, clientId: string, patch: ClientPatch, key: string, feature: string)
    requires Inv(s) && key in s.sessions
    ensures KeepsPromises(s, Updated(s, clientId, patch), key, feature)
  {
    OwnerIsLive(s, key);
    if clientId != "" && clientId in s.clients {
      UpdateAt(s, clientId, patch, key);
    }
  }

  lemma RemovalAt(s: RegistryState, clientId: string, key: string)
    requires key in Removed(s, clientId).sessions
    ensures var t := Removed(s, clientId);
            && t.clients == s.clients - {clientId}
            && key in s.sessions && t.sessions[key] == s.sessions[key] && s.sessions[key].clientId != clientId
            && (key in s.pauseEpochs ==> key in t.pauseEpochs && t.pauseEpochs[key] == s.pauseEpochs[key])
  {
    DroppingIsExact(s.(clients := s.clients - {clientId}), clientId);
  }

  lemma SameSessionKeepsPromises(s: RegistryState, t: RegistryState, key: string, feature: string)
    requires key in s.sessions && key in t.sessions && t.sessions[key] == s.sessions[key]
    requires s.sessions[key].clientId in s.clients && s.sessions[key].clientId in t.clients
    requires t.clients[s.sessions[key].clientId] == s.clients[s.sessions[key].clientId]
    requires key in s.pauseEpochs ==> key in t.pauseEpochs && t.pauseEpochs[key] == s.pauseEpochs[key]
    ensures KeepsPromises(s, t, key, feature)
  {
  }

  lemma OwnerIsLive(s: RegistryState, key: string)
    requires Inv(s) && key in s.sessions
    ensures s.sessions[key].clientId in s.clients
  {
    assert SessionOk(s, key);
  }

  lemma RemoveKeepsPromises(s: RegistryState, clientId: string, key: string, feature: string)
    requires key in s.sessions && key in Removed(s, clientId).sessions
    requires s.sessions[key].clientId in s.clients
    ensures KeepsPromises(s, Removed(s, clientId), key, feature)
  {
    RemovalAt(s, clientId, key);
    SameSessionKeepsPromises(s, Removed(s, clientId), key, feature);
  }

  lemma RemoveSessionKeepsPromises(s: RegistryState, clientId: string, ideSessionId: string, key: string, feature: string)
    requires Inv(s) && key in s.sessions && key in SessionRemoved(s, clientId, ideSessionId).sessions
    ensures KeepsPromises(s, SessionRemoved(s, clientId, ideSessionId), key, feature)
  {
    assert SessionOk(s, key);
  }

  /** An accepted message under a stored key comes from the session's own client. */
  lemma MessageComesFromOwner(s: RegistryState, clientId: string, message: Message, state: string)
    requires Inv(s) && PlainClients(s) && Accepts(s, clientId, message, state)
    requires SessionKey(clientId, message.ideSessionId) in s.sessions
    ensures s.sessions[SessionKey(clientId, message.ideSessionId)].clientId == clientId
  {
    var key := SessionKey(clientId, message.ideSessionId);
    assert SessionOk(s, key);
    KeysAreUnambiguous(clientId, message.ideSessionId, s.sessions[key].clientId, s.sessions[key].ideSessionId);
  }

  /** A refusal survives any later message. */
  lemma MergeKeepsRefusal(session: Session, message: Message, feature: string)
    requires Declares(session.protocol, feature, false)
    ensures Declares(MergedProtocol(Some(session), message), feature, false)
  {
  }

  lemma UpsertKeepsPromises(s: RegistryState, clientId: string, message: Message, state: string, key: string, feature: string)
    requires Inv(s) && PlainClients(s) && key in s.sessions
    ensures KeepsPromises(s, Upserted(s, clientId, message, state), key, feature)
  {
    assert SessionOk(s, key);
    if Accepts(s, clientId, message, state) && SessionKey(clientId, message.ideSessionId) == key {
      MessageComesFromOwner(s, clientId, message, state);
      if Refused(s, key, feature) {
        MergeKeepsRefusal(s.sessions[key], message, feature);
      }
    }
  }

  /** No operation of the registry takes back what a surviving session was promised. */
  lemma StepKeepsPromises(s: RegistryState, op: Operation, key: string, feature: string)
    requires Inv(s) && PlainClients(s)
    requires key in s.sessions && key in Step(s, op).sessions
    ensures KeepsPromises(s, Step(s, op), key, feature)
  {
    match op
    case Add(clientId, metadata) => AddKeepsPromises(s, clientId, metadata, key, feature);
    case Update(clientId, patch) => UpdateKeepsPromises(s, clientId, patch, key, feature);
    case Remove(clientId) => OwnerIsLive(s, key); RemoveKeepsPromises(s, clientId, key, feature);
    case Upsert(clientId, message, state) => UpsertKeepsPromises(s, clientId, message, state, key, feature);
    case RemoveSession(clientId, ideSessionId) => RemoveSessionKeepsPromises(s, clientId, ideSessionId, key, feature);
  }

  lemma StepKeepsPlainClients(s: RegistryState, op: Operation)
    requires PlainClients(s) && PlainOperation(op)
    ensures PlainClients(Step(s, op))
  {
  }

  /** The entry stays stored from the given state through every operation. */
  ghost predicate LivesThrough(s: RegistryState, ops: seq<Operation>, key: string)
    decreases |ops|
  {
    key in s.sessions && (ops == [] || LivesThrough(Step(s, ops[0]), ops[1..], key))
  }

  lemma {:induction false} RunKeepsPromises(s: RegistryState, ops: seq<Operation>, key: string, feature: string)
    requires Inv(s) && PlainClients(s) && (forall i | 0 <= i < |ops| :: PlainOperation(ops[i]))
    requires LivesThrough(s, ops, key)
    ensures Inv(Run(s, ops)) && SameLife(s, Run(s, ops), key)
    ensures Refused(s, key, feature) ==> Refused(Run(s, ops), key, feature)
    ensures SessionIsV2(s, key) && key in s.pauseEpochs ==>
              key in Run(s, ops).pauseEpochs && s.pauseEpochs[key] <= Run(s, ops).pauseEpochs[key]
    decreases |ops|
  {
    if ops == [] {
      assert SessionOk(s, key);
    } else {
      var t := Step(s, ops[0]);
      StepKeepsInv(s, ops[0]);
      StepKeepsPlainClients(s, ops[0]);
      StepKeepsPromises(s, ops[0], key, feature);
      if SessionIsV2(s, key) {
        V2NeverReverts(s, t, key);
      }
      RunKeepsPromises(t, ops[1..], key, feature);
    }
  }

  /** Over a whole life of a session, through any operations: once version 2, always version 2; its pause epoch only grows;
      and a feature it once refused is never negotiated on. */
  lemma PromisesHoldForLife(s: RegistryState, ops: seq<Operation>, key: string, feature: string)
    requires Inv(s) && PlainClients(s) && (forall i | 0 <= i < |ops| :: PlainOperation(ops[i]))
    requires LivesThrough(s, ops, key)
    ensures key in Run(s, ops).sessions
    ensures SessionIsV2(s, key) ==> SessionIsV2(Run(s, ops), key)
    ensures SessionIsV2(s, key) && key in s.pauseEpochs ==>
              key in Run(s, ops).pauseEpochs && s.pauseEpochs[key] <= Run(s, ops).pauseEpochs[key]
    ensures Refused(s, key, feature) ==>
              feature !in Run(s, ops).sessions[key].negotiated || !Run(s, ops).sessions[key].negotiated[feature]
  {
    RunKeepsPromises(s, ops, key, feature);
    assert SessionOk(Run(s, ops), key);
  }

  /** What one message does: a rejected one changes nothing; an accepted one is recorded, its refusals stick, and for a
      version-2 session its epoch is beyond every epoch accepted before. */
  lemma MessageIsRecordedOrIgnored(s: RegistryState, clientId: string, message: Message, state: string, feature: string)
    requires Inv(s)
    ensures var key := SessionKey(clientId, message.ideSessionId);
            var s' := Upserted(s, clientId, message, state);
            && (!Accepts(s, clientId, message, state) ==> s' == s)
            && (Accepts(s, clientId, message, state) ==>
                  && key in s'.sessions && s'.sessions[key].state == state
                  && (message.features.Some? && feature in message.features.value && message.features.value[feature] == Flag(false)
                      ==> Refused(s', key, feature))
                  && (SessionIsV2(s', key) && key in s.pauseEpochs ==>
                        key in s'.pauseEpochs && s'.pauseEpochs[key] > s.pauseEpochs[key])
                  && (SessionIsV2(s', key) && message.pauseEpoch.Some? ==>
                        key in s'.pauseEpochs && s'.pauseEpochs[key] == message.pauseEpoch.value && s'.sessions[key].pauseEpoch == message.pauseEpoch)
                  && (forall other | other != key :: other in s'.sessions <==> other in s.sessions)
                  && (forall other | other != key && other in s.sessions :: s'.sessions[other] == s.sessions[other]))
  {
    if Accepts(s, clientId, message, state) {
      AcceptedIsRecorded(s, clientId, message, state, feature);
    }
  }

  lemma MergeTakesRefusal(existing: Option<Session>, message: Message, feature: string)
    ensures message.features.Some? && feature in message.features.value && message.features.value[feature] == Flag(false)
            ==> Declares(MergedProtocol(existing, message), feature, false)
  {
  }

  lemma AcceptedIsRecorded(s: RegistryState, clientId: string, message: Message, state: string, feature: string)
    requires Inv(s) && Accepts(s, clientId, message, state)
    ensures var key := SessionKey(clientId, message.ideSessionId);
            var s' := Upserted(s, clientId, message, state);
            && key in s'.sessions && s'.sessions[key].state == state
            && (message.features.Some? && feature in message.features.value && message.features.value[feature] == Flag(false)
                ==> Refused(s', key, feature))
            && (SessionIsV2(s', key) && key in s.pauseEpochs ==>
                  key in s'.pauseEpochs && s'.pauseEpochs[key] > s.pauseEpochs[key])
            && (SessionIsV2(s', key) && message.pauseEpoch.Some? ==>
                  key in s'.pauseEpochs && s'.pauseEpochs[key] == message.pauseEpoch.value && s'.sessions[key].pauseEpoch == message.pauseEpoch)
  {
    MergeTakesRefusal(if SessionKey(clientId, message.ideSessionId) in s.sessions
                      then Some(s.sessions[SessionKey(clientId, message.ideSessionId)]) else None, message, feature);
  }

  /** While a session lives, the pause epochs its client gets accepted under version 2 strictly increase, whatever else the
      registry does between the two messages. */
  lemma AcceptedEpochsIncrease(s: RegistryState, clientId: string, first: Message, firstState: string,
                               between: seq<Operation>, second: Message, secondState: string)
    requires Inv(s) && PlainClients(s) && (forall i | 0 <= i < |between| :: PlainOperation(between[i]))
    requires first.ideSessionId == second.ideSessionId
    requires Accepts(s, clientId, first, firstState) && first.pauseEpoch.Some?
    requires var key := SessionKey(clientId, first.ideSessionId);
             var s1 := Upserted(s, clientId, first, firstState);
             && SessionIsV2(s1, key) && LivesThrough(s1, between, key)
             && Accepts(Run(s1, between), clientId, second, secondState)
    ensures second.pauseEpoch.Some? && first.pauseEpoch.value < second.pauseEpoch.value
  {
    var key := SessionKey(clientId, first.ideSessionId);
    var s1 := Upserted(s, clientId, first, firstState);
    UpsertKeepsInv(s, clientId, first, firstState);
    MessageIsRecordedOrIgnored(s, clientId, first, firstState, "");
    RunKeepsPromises(s1, between, key, "");
    var s2 := Run(s1, between);
    V2NeverReverts(s1, s2, key);
    SecondMessageIsV2(s2, clientId, second);
  }

  /** A further message of a version-2 session is judged as version 2. */
  lemma SecondMessageIsV2(s: RegistryState, clientId: string, message: Message)
    requires Inv(s) && SessionIsV2(s, SessionKey(clientId, message.ideSessionId)) && clientId in s.clients
    requires s.sessions[SessionKey(clientId, message.ideSessionId)].clientId == clientId
    ensures IsV2(s.clients[clientId], MergedProtocol(Some(s.sessions[SessionKey(clientId, message.ideSessionId)]), message))
  {
  }

  // ---------------------------------------------------------- the registry object

  /** The registry's four maps, written in place. */
  class IdeClientRegistry {
    var clients: map<string, Protocol>
    var sessions: map<string, Session>
    var sessionRevisions: map<string, nat>
    var pauseEpochs: map<string, nat>

    ghost function State(): (r: RegistryState)
      reads this
    {
      RegistryState(clients, sessions, sessionRevisions, pauseEpochs)
    }

    constructor ()
      ensures State() == EMPTY
    {
      clients, sessions, sessionRevisions, pauseEpochs := map[], map[], map[], map[];
    }

    method DeleteEntry(key: string)
      modifies this
      ensures State() == WithoutKeys(old(State()), {key})
    {
      sessions := sessions - {key};
      sessionRevisions := sessionRevisions - {key};
      pauseEpochs := pauseEpochs - {key};
    }

    method RemoveClientSessions(clientId: string)
      modifies this
      ensures State() == WithoutSessionsOf(old(State()), clientId)
    {
      ghost var start := State();
      var rest := sessions.Keys;
      NothingDropped(start, clientId);
      while rest != {}
        invariant rest <= start.sessions.Keys && rest <= sessions.Keys
        invariant State() == WithoutKeys(start, KeysOf(start, clientId) - rest)
        decreases |rest|
      {
        var key :| key in rest;
        VisitedKeyIsSettled(start, clientId, rest, key);
        assert sessions[key] == start.sessions[key];
        if sessions[key].clientId == clientId {
          DropOneMoreKey(start, KeysOf(start, clientId) - rest, key);
          DeleteEntry(key);
        }
        rest := rest - {key};
      }
      assert KeysOf(start, clientId) - rest == KeysOf(start, clientId);
    }

    method Add(clientId: string, metadata: ClientPatch)
      modifies this
      ensures State() == Added(old(State()), clientId, metadata)
    {
      RemoveClientSessions(clientId);
      clients := clients[clientId := Protocol(ValidVersion(metadata.version), metadata.features)];
    }

    method RefreshNegotiatedFeatures(clientId: string)
      modifies this
      ensures clientId in clients ==> State() == old(State()).(sessions := Renegotiated(old(sessions), clientId, clients[clientId]))
      ensures clientId !in clients ==> State() == old(State())
    {
      if clientId !in clients {
        return;
      }
      var client := clients[clientId];
      ghost var all := sessions;
      var rest := sessions.Keys;
      while rest != {}
        invariant clients == old(clients) && sessionRevisions == old(sessionRevisions) && pauseEpochs == old(pauseEpochs)
        invariant sessions.Keys == all.Keys && rest <= all.Keys
        invariant forall k | k in all :: sessions[k] == if k in rest then all[k] else Renegotiated(all, clientId, client)[k]
        decreases |rest|
      {
        var key :| key in rest;
        rest := rest - {key};
        var session := sessions[key];
        if session.clientId == clientId {
          sessions := sessions[key := session.(negotiated := Negotiate(client, session.protocol))];
        }
      }
    }

    method Update(clientId: string, patch: ClientPatch)
      modifies this
      ensures State() == Updated(old(State()), clientId, patch)
    {
      if clientId == "" || clientId !in clients {
        return;
      }
      var client := clients[clientId];
      if client.version.None? && patch.version.Version? {
        client := client.(version := Some(patch.version.number));
      }
      if patch.features.Some? && AllFlags(patch.features.value) {
        client := client.(features := patch.features);
      }
      clients := clients[clientId := client];
      RefreshNegotiatedFeatures(clientId);
    }

    method Remove(clientId: string)
      modifies this
      ensures State() == Removed(old(State()), clientId)
    {
      clients := clients - {clientId};
      RemoveClientSessions(clientId);
    }

    /** Returns the stored session, or None when the message is rejected. */
    method UpsertSession(clientId: string, message: Message, state: string) returns (r: Option<Session>)
      modifies this
      ensures State() == Upserted(old(State()), clientId, message, state)
      ensures r.Some? <==> Accepts(old(State()), clientId, message, state)
      ensures r.Some? ==> SessionKey(clientId, message.ideSessionId) in sessions
                          && sessions[SessionKey(clientId, message.ideSessionId)] == r.value
    {
      if clientId == "" || message.ideSessionId == "" || clientId !in clients {
        return None;
      }
      var client := clients[clientId];
      var key := SessionKey(clientId, message.ideSessionId);
      var existing := if key in sessions then Some(sessions[key]) else None;
      if existing.None? && message.version.Malformed? {
        return None;
      }
      if existing.Some? && !message.version.Missing? {
        var incoming := ValidVersion(message.version);
        if incoming.None? || incoming.value != EffectiveVersion(client, existing.value) {
          return None;
        }
      }
      var protocol := MergedProtocol(existing, message);
      var v2 := IsV2(client, protocol);
      var known := if key in pauseEpochs then Some(pauseEpochs[key]) else None;
      if v2 && state == "paused" && message.pauseEpoch.None? {
        return None;
      }
      if v2 && known.Some? {
        if message.pauseEpoch.None? || message.pauseEpoch.value <= known.value {
          return None;
        }
      }
      var session := Session(clientId, message.ideSessionId, state, protocol, Negotiate(client, protocol),
                             if message.pauseEpoch.Some? then message.pauseEpoch else known);
      sessions := sessions[key := session];
      if v2 && message.pauseEpoch.Some? {
        pauseEpochs := pauseEpochs[key := message.pauseEpoch.value];
      }
      sessionRevisions := sessionRevisions[key := (if key in sessionRevisions then sessionRevisions[key] else 0) + 1];
      return Some(session);
    }

    method RemoveSession(clientId: string, ideSessionId: string)
      modifies this
      ensures State() == SessionRemoved(old(State()), clientId, ideSessionId)
    {
      if clientId == "" || ideSessionId == "" {
        return;
      }
      DeleteEntry(SessionKey(clientId, ideSessionId));
    }
  }
}
