/** The pause-epoch protocol: the IDE extension reports every session's state with a growing epoch
    (breakpilot-vscode/src/debugger/DebugSessionTracker.ts), and the hub keeps the newest report
    (src/ide/IdeClientRegistry.ts). */
module PauseEpochs {
  import opened Basics
  import opened FeatureNegotiation
  import opened IdeRegistry

  /** A session state together with the epoch it was reached at. */
  datatype Pair = Pair(state: string, epoch: nat)

  const STARTED: Pair := Pair("running", 0)

  datatype Tracked = Tracked(id: string, pair: Pair)

  /** What travels on the socket: the registration, then session reports. */
  datatype Wire = Register | Report(id: string, pair: Pair)

  // ------------------------------------------------------------- the tracker

  function Held(sessions: seq<Tracked>, id: string): (r: Option<Pair>)
  {
    if sessions == [] then None
    else if sessions[0].id == id then Some(sessions[0].pair)
    else Held(sessions[1..], id)
  }

  /** The epoch `sessionMessage` puts in a report: 0 for a session the tracker does not hold. */
  function EpochOf(sessions: seq<Tracked>, id: string): (r: nat)
  {
    var held := Held(sessions, id);
    if held.Some? then held.value.epoch else 0
  }

  function Enter(sessions: seq<Tracked>, id: string, state: string): (r: seq<Tracked>)
  {
    if sessions == [] then []
    else if sessions[0].id == id then [Tracked(id, Pair(state, sessions[0].pair.epoch + 1))] + sessions[1..]
    else [sessions[0]] + Enter(sessions[1..], id, state)
  }

  function Forget(sessions: seq<Tracked>, id: string): (r: seq<Tracked>)
  {
    if sessions == [] then []
    else if sessions[0].id == id then sessions[1..]
    else [sessions[0]] + Forget(sessions[1..], id)
  }

  function Invalidated(sessions: seq<Tracked>): (r: seq<Tracked>)
  {
    if sessions == [] then []
    else [Tracked(sessions[0].id, Pair(sessions[0].pair.state, sessions[0].pair.epoch + 1))] + Invalidated(sessions[1..])
  }

  function Reports(sessions: seq<Tracked>): (r: seq<Wire>)
  {
    if sessions == [] then [] else [Report(sessions[0].id, sessions[0].pair)] + Reports(sessions[1..])
  }

  predicate UniqueIds(sessions: seq<Tracked>)
  {
    sessions == [] || (Held(sessions[1..], sessions[0].id).None? && UniqueIds(sessions[1..]))
  }

  datatype Action =
    | Begin(id: string)
    | Pause(id: string, breakpointHit: bool)
    | Resume(id: string)
    | Terminate(id: string)
    | Initialize(id: string)
    | Resend
    | Invalidate

  /** The tracker's sessions after an action. */
  function After(sessions: seq<Tracked>, act: Action): (r: seq<Tracked>)
  {
    match act
    case Begin(id) => if Held(sessions, id).Some? then sessions else sessions + [Tracked(id, STARTED)]
    case Pause(id, _) => Enter(sessions, id, "paused")
    case Resume(id) => Enter(sessions, id, "running")
    case Terminate(id) => Forget(sessions, id)
    case Initialize(_) => sessions
    case Resend => sessions
    case Invalidate => Invalidated(sessions)
  }

  /** The reports an action sends. A resume or termination of a session the tracker does not hold is still reported, and
      the answer to `initialize` is reported as a start whatever the state. */
  function Sends(sessions: seq<Tracked>, act: Action): (r: seq<Wire>)
  {
    match act
    case Begin(_) => []
    case Pause(id, hit) =>
      var report := Report(id, Pair("paused", EpochOf(After(sessions, act), id)));
      (if Held(sessions, id).Some? then [report] else []) + (if hit then [report] else [])
    case Resume(id) => [Report(id, Pair("running", EpochOf(After(sessions, act), id)))]
    case Terminate(id) => [Report(id, Pair("terminated", EpochOf(Enter(sessions, id, "terminated"), id)))]
    case Initialize(id) => if Held(sessions, id).Some? then [Report(id, Pair("running", EpochOf(sessions, id)))] else []
    case Resend => Reports(sessions)
    case Invalidate => []
  }

  // --------------------------------------------- what a stream of reports leaves behind

  /** One report arrives: it counts when it is the first for its session or its epoch is new. */
  function Absorb(known: Option<Pair>, wire: Wire, id: string): (r: Option<Pair>)
  {
    if wire.Report? && wire.id == id && (known.None? || wire.pair.epoch > known.value.epoch) then Some(wire.pair) else known
  }

  function Drain(known: Option<Pair>, wires: seq<Wire>, id: string): (r: Option<Pair>)
    decreases |wires|
  {
    if wires == [] then known else Drain(Absorb(known, wires[0], id), wires[1..], id)
  }

  /** Every value the receiver takes on while the stream arrives is one of `had`. */
  ghost predicate Truthful(known: Option<Pair>, wires: seq<Wire>, id: string, had: set<Pair>)
    decreases |wires|
  {
    && (known.Some? ==> known.value in had)
    && (wires == [] || Truthful(Absorb(known, wires[0], id), wires[1..], id, had))
  }

  lemma {:induction false} DrainAppend(known: Option<Pair>, a: seq<Wire>, b: seq<Wire>, id: string)
    ensures Drain(known, a + b, id) == Drain(Drain(known, a, id), b, id)
    decreases |a|
  {
    if a == [] {
      assert a + b == b;
    } else {
      assert (a + b)[1..] == a[1..] + b;
      DrainAppend(Absorb(known, a[0], id), a[1..], b, id);
    }
  }

  lemma {:induction false} TruthfulAppend(known: Option<Pair>, a: seq<Wire>, b: seq<Wire>, id: string, had: set<Pair>)
    requires Truthful(known, a, id, had) && Truthful(Drain(known, a, id), b, id, had)
    ensures Truthful(known, a + b, id, had)
    decreases |a|
  {
    if a == [] {
      assert a + b == b;
    } else {
      assert (a + b)[1..] == a[1..] + b;
      TruthfulAppend(Absorb(known, a[0], id), a[1..], b, id, had);
    }
  }

  lemma {:induction false} TruthfulGrows(known: Option<Pair>, wires: seq<Wire>, id: string, had: set<Pair>, more: set<Pair>)
    requires Truthful(known, wires, id, had) && had <= more
    ensures Truthful(known, wires, id, more)
    decreases |wires|
  {
    if wires != [] {
      TruthfulGrows(Absorb(known, wires[0], id), wires[1..], id, had, more);
    }
  }

  /** A stream that ends in nothing, or in the initial report, never held anything else. */
  lemma {:induction false} OnlyStarted(known: Option<Pair>, wires: seq<Wire>, id: string)
    requires Drain(known, wires, id).None? || Drain(known, wires, id) == Some(STARTED)
    ensures Truthful(known, wires, id, {STARTED})
    decreases |wires|
  {
    DrainNeverDecreases(known, wires, id);
    if wires != [] {
      OnlyStarted(Absorb(known, wires[0], id), wires[1..], id);
    }
  }

  lemma {:induction false} DrainNeverDecreases(known: Option<Pair>, wires: seq<Wire>, id: string)
    ensures known.Some? ==> Drain(known, wires, id).Some?
    ensures known.Some? ==> Drain(known, wires, id) == known || Drain(known, wires, id).value.epoch > known.value.epoch
    decreases |wires|
  {
    if wires != [] {
      DrainNeverDecreases(Absorb(known, wires[0], id), wires[1..], id);
    }
  }

  // --------------------------------------------------- facts about the tracker's list

  lemma {:induction false} HeldAfterAppend(sessions: seq<Tracked>, added: Tracked, id: string)
    requires Held(sessions, added.id).None? && UniqueIds(sessions)
    ensures UniqueIds(sessions + [added])
    ensures Held(sessions + [added], id) == if id == added.id then Some(added.pair) else Held(sessions, id)
  {
    if sessions == [] {
      assert sessions + [added] == [added];
    } else {
      assert (sessions + [added])[1..] == sessions[1..] + [added];
      HeldAfterAppend(sessions[1..], added, id);
      HeldAfterAppend(sessions[1..], added, sessions[0].id);
    }
  }

  lemma {:induction false} HeldAfterEnter(sessions: seq<Tracked>, target: string, state: string, id: string)
    requires UniqueIds(sessions)
    ensures UniqueIds(Enter(sessions, target, state))
    ensures Held(Enter(sessions, target, state), id)
         == if id == target && Held(sessions, id).Some? then Some(Pair(state, Held(sessions, id).value.epoch + 1))
            else Held(sessions, id)
  {
    if sessions != [] && sessions[0].id != target {
      HeldAfterEnter(sessions[1..], target, state, id);
      HeldAfterEnter(sessions[1..], target, state, sessions[0].id);
    }
  }

  lemma {:induction false} HeldAfterForget(sessions: seq<Tracked>, target: string, id: string)
    requires UniqueIds(sessions)
    ensures UniqueIds(Forget(sessions, target))
    ensures Held(Forget(sessions, target), id) == if id == target then None else Held(sessions, id)
  {
    if sessions != [] && sessions[0].id != target {
      HeldAfterForget(sessions[1..], target, id);
      HeldAfterForget(sessions[1..], target, sessions[0].id);
    }
  }

  lemma {:induction false} HeldAfterInvalidate(sessions: seq<Tracked>, id: string)
    requires UniqueIds(sessions)
    ensures UniqueIds(Invalidated(sessions))
    ensures Held(Invalidated(sessions), id)
         == if Held(sessions, id).Some? then Some(Pair(Held(sessions, id).value.state, Held(sessions, id).value.epoch + 1)) else None
  {
    if sessions != [] {
      HeldAfterInvalidate(sessions[1..], id);
      HeldAfterInvalidate(sessions[1..], sessions[0].id);
    }
  }

  lemma {:induction false} UnheldIsNotReported(sessions: seq<Tracked>, known: Option<Pair>, id: string)
    requires Held(sessions, id).None?
    ensures Drain(known, Reports(sessions), id) == known
  {
    if sessions != [] {
      assert Reports(sessions)[1..] == Reports(sessions[1..]);
      UnheldIsNotReported(sessions[1..], known, id);
    }
  }

  /** Sending every held state again amounts, for each session, to one report of its state. */
  lemma {:induction false} ReportsAreOnePerSession(sessions: seq<Tracked>, known: Option<Pair>, id: string)
    requires UniqueIds(sessions) && Held(sessions, id).Some?
    ensures Drain(known, Reports(sessions), id) == Absorb(known, Report(id, Held(sessions, id).value), id)
  {
    assert Reports(sessions)[1..] == Reports(sessions[1..]);
    if sessions[0].id == id {
      UnheldIsNotReported(sessions[1..], Absorb(known, Reports(sessions)[0], id), id);
    } else {
      ReportsAreOnePerSession(sessions[1..], known, id);
    }
  }

  lemma {:induction false} ReportsAreTruthful(sessions: seq<Tracked>, known: Option<Pair>, id: string, had: set<Pair>)
    requires known.Some? ==> known.value in had
    requires UniqueIds(sessions)
    requires Held(sessions, id).Some? ==> Held(sessions, id).value in had
    ensures Truthful(known, Reports(sessions), id, had)
  {
    if sessions != [] {
      assert Reports(sessions)[1..] == Reports(sessions[1..]);
      ReportsAreTruthful(sessions[1..], Absorb(known, Reports(sessions)[0], id), id, had);
    }
  }

  // -------------------------------------------------- one session across one action

  /** The receiver, once everything sent has arrived, knows the pair; or it knows nothing and the session just began. */
  predicate Matches(settled: Option<Pair>, pair: Pair)
  {
    settled == Some(pair) || (settled.None? && pair == STARTED)
  }

  /** Every action but a fresh `Begin` keeps the receiver's final view equal to the held pair, through true values only. */
  lemma ActionKeepsMatch(sessions: seq<Tracked>, act: Action, id: string, settled: Option<Pair>, had: set<Pair>)
    requires UniqueIds(sessions) && Held(sessions, id).Some? && Held(After(sessions, act), id).Some?
    requires !act.Invalidate?
    requires Held(sessions, id).value in had && Held(After(sessions, act), id).value in had
    requires Matches(settled, Held(sessions, id).value)
    ensures Matches(Drain(settled, Sends(sessions, act), id), Held(After(sessions, act), id).value)
    ensures Truthful(settled, Sends(sessions, act), id, had)
  {
    match act
    case Begin(other) =>
      if Held(sessions, other).None? { HeldAfterAppend(sessions, Tracked(other, STARTED), id); }
    case Pause(other, hit) => PauseKeepsMatch(sessions, other, hit, id, settled, had);
    case Resume(other) =>
      HeldAfterEnter(sessions, other, "running", id);
    case Terminate(other) =>
      HeldAfterForget(sessions, other, id);
    case Initialize(other) =>
    case Resend =>
      ReportsAreOnePerSession(sessions, settled, id);
      ReportsAreTruthful(sessions, settled, id, had);
  }

  lemma PauseKeepsMatch(sessions: seq<Tracked>, other: string, hit: bool, id: string, settled: Option<Pair>, had: set<Pair>)
    requires UniqueIds(sessions) && Held(sessions, id).Some?
    requires Held(sessions, id).value in had && Held(Enter(sessions, other, "paused"), id).Some?
    requires Held(Enter(sessions, other, "paused"), id).value in had
    requires Matches(settled, Held(sessions, id).value)
    ensures Matches(Drain(settled, Sends(sessions, Pause(other, hit)), id), Held(Enter(sessions, other, "paused"), id).value)
    ensures Truthful(settled, Sends(sessions, Pause(other, hit)), id, had)
  {
    HeldAfterEnter(sessions, other, "paused", id);
    HeldAfterEnter(sessions, other, "paused", other);
    var report := Report(other, Pair("paused", EpochOf(Enter(sessions, other, "paused"), other)));
    var known := Absorb(settled, report, id);
    assert Absorb(known, report, id) == known;
    TwoReports(settled, report, id, had);
    if Held(sessions, other).Some? {
      assert Sends(sessions, Pause(other, hit)) == if hit then [report, report] else [report];
    } else {
      assert Sends(sessions, Pause(other, hit)) == if hit then [report] else [];
    }
  }

  /** A repeated report changes nothing. */
  lemma TwoReports(known: Option<Pair>, report: Wire, id: string, had: set<Pair>)
    requires known.Some? ==> known.value in had
    requires Absorb(known, report, id).Some? ==> Absorb(known, report, id).value in had
    ensures Drain(known, [report], id) == Absorb(known, report, id) == Drain(known, [report, report], id)
    ensures Truthful(known, [report], id, had) && Truthful(known, [report, report], id, had)
  {
    var next := Absorb(known, report, id);
    assert [report][1..] == [] && [report, report][1..] == [report];
    assert Absorb(next, report, id) == next;
    assert Truthful(next, [], id, had);
    assert Truthful(next, [report], id, had);
  }

  // ------------------------------------------------------------ the hub's side

  /** What the hub has on record for a session of a client. */
  function HubPair(hub: RegistryState, client: string, id: string): (r: Option<Pair>)
  {
    var key := SessionKey(client, id);
    if key in hub.sessions && hub.sessions[key].pauseEpoch.Some?
    then Some(Pair(hub.sessions[key].state, hub.sessions[key].pauseEpoch.value))
    else None
  }

  /** The session a report names, under the given client, follows the version-2 rules. */
  ghost predicate V2Record(hub: RegistryState, client: string, id: string)
  {
    var key := SessionKey(client, id);
    && (key in hub.pauseEpochs <==> key in hub.sessions)
    && (key in hub.sessions ==>
      && hub.sessions[key].protocol.version == Some(2)
      && hub.sessions[key].pauseEpoch == Some(hub.pauseEpochs[key]))
  }

  /** The hub has the client, still without a version before its registration and with version 2 after it. */
  ghost predicate ClientReady(hub: RegistryState, client: string, registered: bool)
  {
    && client != "" && NoColon(client) && client in hub.clients
    && hub.clients[client].version == (if registered then Some(2) else None)
    && (forall id: string :: V2Record(hub, client, id))
    && (!registered ==> forall id: string :: HubPair(hub, client, id).None?)
  }

  /** Nothing about a client differs between two states of the hub. */
  ghost predicate SameView(hub: RegistryState, hub': RegistryState, client: string)
  {
    && client in hub.clients && client in hub'.clients && hub'.clients[client] == hub.clients[client]
    && (forall id: string :: SameEntry(hub, hub', SessionKey(client, id)))
  }

  ghost predicate SameEntry(hub: RegistryState, hub': RegistryState, key: string)
  {
    && (key in hub'.sessions <==> key in hub.sessions)
    && (key in hub.sessions ==> hub'.sessions[key] == hub.sessions[key])
    && (key in hub'.pauseEpochs <==> key in hub.pauseEpochs)
    && (key in hub.pauseEpochs ==> hub'.pauseEpochs[key] == hub.pauseEpochs[key])
  }

  /** A report as the hub reads it; the features it carries are immaterial here and may be any. */
  function MessageOf(wire: Wire, features: FeatureMap): (r: Message)
    requires wire.Report?
  {
    Message(wire.id, Version(2), Some(features), Some(wire.pair.epoch))
  }

  function Received(hub: RegistryState, client: string, wire: Wire, features: FeatureMap): (r: RegistryState)
  {
    match wire
    case Register => Updated(hub, client, ClientPatch(Version(2), Some(features)))
    case Report(_, pair) => Upserted(hub, client, MessageOf(wire, features), pair.state)
  }

  lemma RegisteringMakesReady(hub: RegistryState, client: string, features: FeatureMap)
    requires ClientReady(hub, client, false)
    ensures ClientReady(Received(hub, client, Register, features), client, true)
    ensures forall id: string :: HubPair(Received(hub, client, Register, features), client, id) == HubPair(hub, client, id)
  {
    var hub' := Received(hub, client, Register, features);
    forall id: string ensures V2Record(hub', client, id) && HubPair(hub', client, id) == HubPair(hub, client, id) {
      assert V2Record(hub, client, id);
    }
  }

  /** The hub takes a report exactly when it would be absorbed. */
  lemma AcceptsIffNewer(hub: RegistryState, client: string, wire: Wire, features: FeatureMap)
    requires ClientReady(hub, client, true) && wire.Report? && wire.id != ""
    ensures Accepts(hub, client, MessageOf(wire, features), wire.pair.state)
       <==> HubPair(hub, client, wire.id).None? || wire.pair.epoch > HubPair(hub, client, wire.id).value.epoch
  {
    assert V2Record(hub, client, wire.id);
  }

  lemma ReportIsAbsorbedAtItsKey(hub: RegistryState, client: string, wire: Wire, features: FeatureMap)
    requires ClientReady(hub, client, true) && wire.Report? && wire.id != ""
    ensures HubPair(Received(hub, client, wire, features), client, wire.id) == Absorb(HubPair(hub, client, wire.id), wire, wire.id)
    ensures V2Record(Received(hub, client, wire, features), client, wire.id)
  {
    assert V2Record(hub, client, wire.id);
    AcceptsIffNewer(hub, client, wire, features);
  }

  lemma ReportTouchesOneKey(hub: RegistryState, client: string, wire: Wire, features: FeatureMap, id: string)
    requires wire.Report? && id != wire.id
    ensures SameEntry(hub, Received(hub, client, wire, features), SessionKey(client, id))
  {
    if SessionKey(client, id) == SessionKey(client, wire.id) {
      SameLengthParts(client, id, client, wire.id, ':');
    }
  }

  lemma ReportIsAbsorbed(hub: RegistryState, client: string, wire: Wire, features: FeatureMap)
    requires ClientReady(hub, client, true) && wire.Report? && wire.id != ""
    ensures ClientReady(Received(hub, client, wire, features), client, true)
    ensures forall id: string ::
              HubPair(Received(hub, client, wire, features), client, id) == Absorb(HubPair(hub, client, id), wire, id)
  {
    var hub' := Received(hub, client, wire, features);
    forall id: string ensures V2Record(hub', client, id) && HubPair(hub', client, id) == Absorb(HubPair(hub, client, id), wire, id) {
      if id == wire.id {
        ReportIsAbsorbedAtItsKey(hub, client, wire, features);
      } else {
        assert V2Record(hub, client, id);
        ReportTouchesOneKey(hub, client, wire, features, id);
      }
    }
  }

  lemma SameViewKeepsReady(hub: RegistryState, hub': RegistryState, client: string, registered: bool)
    requires ClientReady(hub, client, registered) && SameView(hub, hub', client)
    ensures ClientReady(hub', client, registered)
    ensures forall id: string :: HubPair(hub', client, id) == HubPair(hub, client, id)
  {
    forall id: string ensures V2Record(hub', client, id) && HubPair(hub', client, id) == HubPair(hub, client, id) {
      assert V2Record(hub, client, id) && SameEntry(hub, hub', SessionKey(client, id));
    }
  }

  lemma OtherClientsKey(hub: RegistryState, client: string, id: string, other: string)
    requires IdeRegistry.Inv(hub) && PlainClients(hub) && NoColon(client) && other != client
    requires SessionKey(client, id) in hub.sessions
    ensures hub.sessions[SessionKey(client, id)].clientId != other
  {
    var key := SessionKey(client, id);
    assert SessionOk(hub, key);
    KeysAreUnambiguous(client, id, hub.sessions[key].clientId, hub.sessions[key].ideSessionId);
  }

  lemma DroppingOthersKeepsEntry(hub: RegistryState, client: string, id: string, other: string)
    requires IdeRegistry.Inv(hub) && PlainClients(hub) && NoColon(client) && other != client
    ensures SameEntry(hub, WithoutSessionsOf(hub, other), SessionKey(client, id))
  {
    var key := SessionKey(client, id);
    if key in hub.sessions {
      OtherClientsKey(hub, client, id, other);
      assert key !in KeysOf(hub, other);
    }
  }

  lemma OtherKey(client: string, id: string, other: string, otherId: string)
    requires NoColon(client) && NoColon(other) && other != client
    ensures SessionKey(client, id) != SessionKey(other, otherId)
  {
    if SessionKey(client, id) == SessionKey(other, otherId) {
      KeysAreUnambiguous(client, id, other, otherId);
    }
  }

  /** Whatever happens to other clients leaves a client's view alone. */
  lemma OtherClientsDoNotInterfere(hub: RegistryState, op: Operation, client: string)
    requires IdeRegistry.Inv(hub) && PlainClients(hub) && NoColon(client) && client in hub.clients
    requires NoColon(op.clientId) && op.clientId != client
    ensures SameView(hub, IdeRegistry.Step(hub, op), client)
  {
    var hub' := IdeRegistry.Step(hub, op);
    forall id: string ensures SameEntry(hub, hub', SessionKey(client, id)) {
      OtherOperationKeepsEntry(hub, op, client, id);
    }
  }

  lemma OtherOperationKeepsEntry(hub: RegistryState, op: Operation, client: string, id: string)
    requires IdeRegistry.Inv(hub) && PlainClients(hub) && NoColon(client)
    requires NoColon(op.clientId) && op.clientId != client
    ensures SameEntry(hub, IdeRegistry.Step(hub, op), SessionKey(client, id))
  {
    match op
    case Add(other, metadata) => DroppingOthersKeepsEntry(hub, client, id, other);
    case Update(other, patch) => UpdatingOthersKeepsEntry(hub, client, id, other, patch);
    case Remove(other) => RemovingOthersKeepsEntry(hub, client, id, other);
    case Upsert(other, message, state) =>
      OtherKey(client, id, other, message.ideSessionId);
      UpsertTouchesOneKey(hub, other, message, state, SessionKey(client, id));
    case RemoveSession(other, otherId) =>
      OtherKey(client, id, other, otherId);
      RemovalTouchesOneKey(hub, other, otherId, SessionKey(client, id));
  }

  lemma UpdatingOthersKeepsEntry(hub: RegistryState, client: string, id: string, other: string, patch: ClientPatch)
    requires IdeRegistry.Inv(hub) && PlainClients(hub) && NoColon(client) && other != client
    ensures SameEntry(hub, Updated(hub, other, patch), SessionKey(client, id))
  {
    if SessionKey(client, id) in hub.sessions {
      OtherClientsKey(hub, client, id, other);
    }
  }

  lemma UpsertTouchesOneKey(hub: RegistryState, other: string, message: Message, state: string, key: string)
    requires key != SessionKey(other, message.ideSessionId)
    ensures SameEntry(hub, Upserted(hub, other, message, state), key)
  {
  }

  lemma RemovalTouchesOneKey(hub: RegistryState, other: string, otherId: string, key: string)
    requires key != SessionKey(other, otherId)
    ensures SameEntry(hub, SessionRemoved(hub, other, otherId), key)
  {
  }

  lemma RemovingOthersKeepsEntry(hub: RegistryState, client: string, id: string, other: string)
    requires IdeRegistry.Inv(hub) && PlainClients(hub) && NoColon(client) && other != client
    ensures SameEntry(hub, Removed(hub, other), SessionKey(client, id))
  {
    var key := SessionKey(client, id);
    if key in hub.sessions {
      OtherClientsKey(hub, client, id, other);
      assert key !in KeysOf(hub.(clients := hub.clients - {other}), other);
    }
  }

  /** A client the hub has just added has no sessions. */
  lemma NewClientKnowsNothing(hub: RegistryState, client: string)
    requires IdeRegistry.Inv(hub) && PlainClients(hub) && NoColon(client) && client != "" && client !in hub.clients
    ensures ClientReady(Added(hub, client, ClientPatch(Missing, None)), client, false)
  {
    var hub' := Added(hub, client, ClientPatch(Missing, None));
    forall id: string ensures V2Record(hub', client, id) && HubPair(hub', client, id).None? {
      NoSessionWithoutClient(hub, client, id);
    }
  }

  lemma NoSessionWithoutClient(hub: RegistryState, client: string, id: string)
    requires IdeRegistry.Inv(hub) && PlainClients(hub) && NoColon(client) && client !in hub.clients
    ensures SessionKey(client, id) !in hub.sessions
    ensures SessionKey(client, id) !in Added(hub, client, ClientPatch(Missing, None)).sessions
  {
    var key := SessionKey(client, id);
    if key in hub.sessions {
      OwnerIsLive(hub, key);
      assert SessionOk(hub, key);
      KeysAreUnambiguous(client, id, hub.sessions[key].clientId, hub.sessions[key].ideSessionId);
    }
  }

  // ------------------------------------------------------------ the two ends together

  /** `Up`: both ends have the connection. `Lost`: the hub has dropped the client and the tracker has not noticed. */
  datatype Link = Down | Up(client: string) | Lost

  /** The tracker, the channel and the hub. `told` is what the tracker last told the hub about each session on this
      connection, as the hub will take it; `had` is the history of each held session's pairs since it began. */
  datatype World = World(
    sessions: seq<Tracked>,
    link: Link,
    channel: seq<Wire>,
    hub: RegistryState,
    told: map<string, Pair>,
    had: map<string, set<Pair>>)

  datatype Event =
    | Act(act: Action)
    | Connect(client: string)
    | Disconnect
    | Replace
    | HubLoses
    | Others(op: Operation)
    | Deliver(features: FeatureMap)

  function Said(told: map<string, Pair>, id: string): (r: Option<Pair>)
  {
    if id in told then Some(told[id]) else None
  }

  function Tell(told: map<string, Pair>, wires: seq<Wire>): (r: map<string, Pair>)
    decreases |wires|
  {
    if wires == [] then told
    else if wires[0].Report? && Absorb(Said(told, wires[0].id), wires[0], wires[0].id) == Some(wires[0].pair)
    then Tell(told[wires[0].id := wires[0].pair], wires[1..])
    else Tell(told, wires[1..])
  }

  function Ids(sessions: seq<Tracked>): (r: set<string>)
  {
    if sessions == [] then {} else {sessions[0].id} + Ids(sessions[1..])
  }

  lemma {:induction false} IdsAreHeld(sessions: seq<Tracked>, id: string)
    ensures id in Ids(sessions) <==> Held(sessions, id).Some?
  {
    if sessions != [] {
      IdsAreHeld(sessions[1..], id);
    }
  }

  function Had(had: map<string, set<Pair>>, id: string): (r: set<Pair>)
  {
    if id in had then had[id] else {}
  }

  function PairsOf(sessions: seq<Tracked>, id: string): (r: set<Pair>)
  {
    var held := Held(sessions, id);
    if held.Some? then {held.value} else {}
  }

  /** The histories once the tracker's sessions are the given ones; a session no longer held has none. */
  function Recorded(had: map<string, set<Pair>>, sessions: seq<Tracked>): (r: map<string, set<Pair>>)
  {
    map id | id in Ids(sessions) :: Had(had, id) + PairsOf(sessions, id)
  }

  function Acted(w: World, act: Action): (r: World)
  {
    var sessions := After(w.sessions, act);
    var wires := if w.link.Up? then Sends(w.sessions, act) else [];
    w.(sessions := sessions, had := Recorded(w.had, sessions), channel := w.channel + wires, told := Tell(w.told, wires))
  }

  /** The hub accepts the socket; the extension registers, advances every epoch and sends every held state. */
  function Connected(w: World, client: string): (r: World)
  {
    var sessions := Invalidated(w.sessions);
    World(sessions, Up(client), [Register] + Reports(sessions), Added(w.hub, client, ClientPatch(Missing, None)),
          Tell(map[], Reports(sessions)), Recorded(w.had, sessions))
  }

  function Disconnected(w: World): (r: World)
  {
    var sessions := Invalidated(w.sessions);
    World(sessions, Down, [], w.hub, map[], Recorded(w.had, sessions))
  }

  function Delivered(w: World, features: FeatureMap): (r: World)
    requires w.link.Up? && w.channel != []
  {
    w.(channel := w.channel[1..], hub := Received(w.hub, w.link.client, w.channel[0], features))
  }

  predicate Enabled(w: World, e: Event)
  {
    match e
    case Act(act) => ActionNames(act) && (act.Invalidate? ==> !w.link.Up?)
    case Connect(client) => w.link.Down? && client != "" && NoColon(client) && client !in w.hub.clients
    case Disconnect => !w.link.Down?
    case Replace => true
    case HubLoses => w.link.Up?
    case Others(op) => NoColon(op.clientId) && (w.link.Up? ==> op.clientId != w.link.client)
    case Deliver(_) => w.link.Up? && w.channel != []
  }

  predicate ActionNames(act: Action)
  {
    act.Resend? || act.Invalidate? || act.id != ""
  }

  function Step(w: World, e: Event): (r: World)
    requires Enabled(w, e)
  {
    match e
    case Act(act) => Acted(w, act)
    case Connect(client) => Connected(w, client)
    case Disconnect => Disconnected(w)
    case Replace => w.(link := Down, channel := [], told := map[])
    case HubLoses => w.(link := Lost, channel := [], told := map[], hub := Removed(w.hub, w.link.client))
    case Others(op) => w.(hub := IdeRegistry.Step(w.hub, op))
    case Deliver(features) => Delivered(w, features)
  }

  // ------------------------------------------------------------------ invariant

  predicate Pending(channel: seq<Wire>)
  {
    channel != [] && channel[0].Register?
  }

  ghost predicate Named(wires: seq<Wire>)
  {
    forall i | 0 <= i < |wires| :: wires[i].Report? && wires[i].id != ""
  }

  ghost predicate NamedSessions(sessions: seq<Tracked>)
  {
    forall i | 0 <= i < |sessions| :: sessions[i].id != ""
  }

  ghost predicate LedgerOk(w: World, client: string, id: string)
  {
    Said(w.told, id) == Drain(HubPair(w.hub, client, id), w.channel, id)
  }

  ghost predicate LinkOk(w: World, client: string)
  {
    && ClientReady(w.hub, client, !Pending(w.channel))
    && Named(if Pending(w.channel) then w.channel[1..] else w.channel)
    && forall id: string :: LedgerOk(w, client, id)
  }

  ghost predicate NoneBeyond(had: set<Pair>, pair: Pair)
  {
    forall q | q in had :: q.epoch <= pair.epoch
  }

  ghost predicate HeldOk(w: World, id: string)
  {
    Held(w.sessions, id).Some? ==>
      var pair := Held(w.sessions, id).value;
      && pair in Had(w.had, id) && NoneBeyond(Had(w.had, id), pair)
      && (w.link.Up? ==>
            && Matches(Said(w.told, id), pair)
            && Truthful(HubPair(w.hub, w.link.client, id), w.channel, id, Had(w.had, id)))
  }

  ghost predicate TrackerOk(w: World)
  {
    UniqueIds(w.sessions) && NamedSessions(w.sessions)
  }

  ghost predicate HubOk(w: World)
  {
    IdeRegistry.Inv(w.hub) && PlainClients(w.hub)
  }

  /** What every step keeps, however sessions are begun. */
  ghost predicate Wired(w: World)
  {
    && TrackerOk(w) && HubOk(w)
    && (w.link.Up? ==> LinkOk(w, w.link.client))
    && (!w.link.Up? ==> w.channel == [] && w.told == map[])
  }

  ghost predicate Inv(w: World)
  {
    && Wired(w)
    && (forall id: string :: HeldOk(w, id))
    && w.had.Keys == Ids(w.sessions)
  }

  /** What the tracker can check before it begins a session: on this connection it has told the hub nothing about the id,
      or only that it started. */
  predicate Clean(w: World, id: string)
  {
    !w.link.Up? || Held(w.sessions, id).Some? || Said(w.told, id).None? || Said(w.told, id) == Some(STARTED)
  }

  predicate CleanEvent(w: World, e: Event)
  {
    e.Act? && e.act.Begin? ==> Clean(w, e.act.id)
  }

  // ----------------------------------------------------- the invariant, event by event

  lemma {:induction false} TellDrains(told: map<string, Pair>, wires: seq<Wire>, id: string)
    ensures Said(Tell(told, wires), id) == Drain(Said(told, id), wires, id)
    decreases |wires|
  {
    if wires != [] {
      if wires[0].Report? && Absorb(Said(told, wires[0].id), wires[0], wires[0].id) == Some(wires[0].pair) {
        TellDrains(told[wires[0].id := wires[0].pair], wires[1..], id);
      } else {
        TellDrains(told, wires[1..], id);
      }
    }
  }

  lemma {:induction false} ReportsAreNamed(sessions: seq<Tracked>)
    requires NamedSessions(sessions)
    ensures Named(Reports(sessions))
  {
    if sessions != [] {
      ReportsAreNamed(sessions[1..]);
    }
  }

  lemma {:induction false} EnterKeepsNames(sessions: seq<Tracked>, id: string, state: string)
    requires NamedSessions(sessions)
    ensures NamedSessions(Enter(sessions, id, state)) && NamedSessions(Forget(sessions, id)) && NamedSessions(Invalidated(sessions))
  {
    if sessions != [] {
      EnterKeepsNames(sessions[1..], id, state);
    }
  }

  lemma ActionKeepsTracker(sessions: seq<Tracked>, act: Action)
    requires UniqueIds(sessions) && NamedSessions(sessions) && ActionNames(act)
    ensures UniqueIds(After(sessions, act)) && NamedSessions(After(sessions, act))
    ensures Named(Sends(sessions, act))
  {
    match act
    case Begin(id) => if Held(sessions, id).None? { HeldAfterAppend(sessions, Tracked(id, STARTED), id); }
    case Pause(id, _) => HeldAfterEnter(sessions, id, "paused", id); EnterKeepsNames(sessions, id, "paused");
    case Resume(id) => HeldAfterEnter(sessions, id, "running", id); EnterKeepsNames(sessions, id, "running");
    case Terminate(id) => HeldAfterForget(sessions, id, id); EnterKeepsNames(sessions, id, "terminated");
    case Initialize(id) =>
    case Resend => ReportsAreNamed(sessions);
    case Invalidate => HeldAfterInvalidate(sessions, ""); EnterKeepsNames(sessions, "", "");
  }

  /** An action leaves a session where it is, or moves it one epoch on, or ends it, or begins it. */
  lemma ActionMovesForward(sessions: seq<Tracked>, act: Action, id: string)
    requires UniqueIds(sessions) && Held(After(sessions, act), id).Some?
    ensures Held(sessions, id).None? ==> act == Begin(id) && Held(After(sessions, act), id) == Some(STARTED)
    ensures Held(sessions, id).Some? ==>
              Held(After(sessions, act), id) == Held(sessions, id)
              || Held(After(sessions, act), id).value.epoch == Held(sessions, id).value.epoch + 1
  {
    match act
    case Begin(other) => if Held(sessions, other).None? { HeldAfterAppend(sessions, Tracked(other, STARTED), id); }
    case Pause(other, _) => HeldAfterEnter(sessions, other, "paused", id);
    case Resume(other) => HeldAfterEnter(sessions, other, "running", id);
    case Terminate(other) => HeldAfterForget(sessions, other, id);
    case Initialize(other) =>
    case Resend =>
    case Invalidate => HeldAfterInvalidate(sessions, id);
  }

  lemma RecordedHistory(had: map<string, set<Pair>>, sessions: seq<Tracked>, id: string)
    requires Held(sessions, id).Some?
    ensures Had(Recorded(had, sessions), id) == Had(had, id) + {Held(sessions, id).value}
  {
    IdsAreHeld(sessions, id);
  }

  lemma UnheldHasNoHistory(w: World, id: string)
    requires w.had.Keys == Ids(w.sessions) && Held(w.sessions, id).None?
    ensures Had(w.had, id) == {}
  {
    IdsAreHeld(w.sessions, id);
  }

  /** The tracker's own half of the invariant after its sessions change. */
  lemma HistoryMovesForward(w: World, act: Action, id: string)
    requires UniqueIds(w.sessions) && w.had.Keys == Ids(w.sessions) && HeldOk(w, id)
    requires Held(After(w.sessions, act), id).Some?
    ensures var sessions := After(w.sessions, act);
            var had := Had(Recorded(w.had, sessions), id);
            Held(sessions, id).value in had && NoneBeyond(had, Held(sessions, id).value) && Had(w.had, id) <= had
  {
    var sessions := After(w.sessions, act);
    RecordedHistory(w.had, sessions, id);
    ActionMovesForward(w.sessions, act, id);
    if Held(w.sessions, id).None? {
      UnheldHasNoHistory(w, id);
    }
  }

  lemma ActKeepsHeldUp(w: World, act: Action, id: string)
    requires Inv(w) && w.link.Up? && ActionNames(act) && !act.Invalidate?
    requires act.Begin? ==> Clean(w, act.id)
    requires Held(After(w.sessions, act), id).Some?
    ensures Matches(Said(Acted(w, act).told, id), Held(After(w.sessions, act), id).value)
    ensures Truthful(HubPair(w.hub, w.link.client, id), Acted(w, act).channel, id, Had(Acted(w, act).had, id))
  {
    assert HeldOk(w, id) && LedgerOk(w, w.link.client, id);
    var known, wires := HubPair(w.hub, w.link.client, id), Sends(w.sessions, act);
    var had := Had(Acted(w, act).had, id);
    HistoryMovesForward(w, act, id);
    ActionMovesForward(w.sessions, act, id);
    TellDrains(w.told, wires, id);
    if Held(w.sessions, id).Some? {
      ActionKeepsMatch(w.sessions, act, id, Said(w.told, id), had);
      TruthfulGrows(known, w.channel, id, Had(w.had, id), had);
      TruthfulAppend(known, w.channel, wires, id, had);
    } else {
      OnlyStarted(known, w.channel, id);
      TruthfulGrows(known, w.channel, id, {STARTED}, had);
      assert w.channel + wires == w.channel;
    }
  }

  lemma ActKeepsLink(w: World, act: Action)
    requires Wired(w) && w.link.Up? && ActionNames(act)
    ensures LinkOk(Acted(w, act), w.link.client)
  {
    var w' := Acted(w, act);
    var wires := Sends(w.sessions, act);
    ActionKeepsTracker(w.sessions, act);
    assert Pending(w'.channel) == Pending(w.channel);
    if Pending(w.channel) {
      assert w'.channel[1..] == w.channel[1..] + wires;
    }
    forall id: string ensures LedgerOk(w', w.link.client, id) {
      assert LedgerOk(w, w.link.client, id);
      TellDrains(w.told, wires, id);
      DrainAppend(HubPair(w.hub, w.link.client, id), w.channel, wires, id);
    }
  }

  lemma ActKeepsInv(w: World, act: Action)
    requires Inv(w) && Enabled(w, Act(act)) && CleanEvent(w, Act(act))
    ensures Inv(Acted(w, act))
  {
    var w' := Acted(w, act);
    ActionKeepsTracker(w.sessions, act);
    if w.link.Up? {
      ActKeepsLink(w, act);
    }
    forall id: string ensures HeldOk(w', id) {
      if Held(w'.sessions, id).Some? {
        assert HeldOk(w, id);
        HistoryMovesForward(w, act, id);
        if w.link.Up? {
          ActKeepsHeldUp(w, act, id);
        }
      }
    }
  }

  lemma ConnectKeepsLink(w: World, client: string)
    requires Wired(w) && Enabled(w, Connect(client))
    ensures LinkOk(Connected(w, client), client)
    ensures forall id: string :: HubPair(Connected(w, client).hub, client, id).None?
  {
    var w' := Connected(w, client);
    var reports := Reports(w'.sessions);
    NewClientKnowsNothing(w.hub, client);
    ActionKeepsTracker(w.sessions, Invalidate);
    ReportsAreNamed(w'.sessions);
    assert w'.channel[1..] == reports;
    forall id: string ensures LedgerOk(w', client, id) {
      TellDrains(map[], reports, id);
    }
  }

  lemma ConnectKeepsHeld(w: World, client: string, id: string)
    requires Inv(w) && Enabled(w, Connect(client)) && Held(Invalidated(w.sessions), id).Some?
    requires HubPair(Connected(w, client).hub, client, id).None?
    ensures HeldOk(Connected(w, client), id)
  {
    var w' := Connected(w, client);
    var reports := Reports(w'.sessions);
    assert HeldOk(w, id);
    ActionKeepsTracker(w.sessions, Invalidate);
    HistoryMovesForward(w, Invalidate, id);
    TellDrains(map[], reports, id);
    ReportsAreOnePerSession(w'.sessions, None, id);
    ReportsAreTruthful(w'.sessions, None, id, Had(w'.had, id));
    assert w'.channel[1..] == reports && Absorb(None, Register, id) == None;
  }

  lemma ConnectKeepsInv(w: World, client: string)
    requires Inv(w) && Enabled(w, Connect(client))
    ensures Inv(Connected(w, client))
  {
    var w' := Connected(w, client);
    ActionKeepsTracker(w.sessions, Invalidate);
    ConnectKeepsLink(w, client);
    AddKeepsInv(w.hub, client, ClientPatch(Missing, None));
    forall id: string ensures HeldOk(w', id) {
      if Held(w'.sessions, id).Some? {
        ConnectKeepsHeld(w, client, id);
      }
    }
  }

  lemma DisconnectKeepsInv(w: World)
    requires Inv(w)
    ensures Inv(Disconnected(w))
  {
    var w' := Disconnected(w);
    ActionKeepsTracker(w.sessions, Invalidate);
    forall id: string ensures HeldOk(w', id) {
      if Held(w'.sessions, id).Some? {
        assert HeldOk(w, id);
        HistoryMovesForward(w, Invalidate, id);
      }
    }
  }

  lemma DropKeepsInv(w: World, w': World)
    requires Inv(w) && w'.sessions == w.sessions && w'.had == w.had && !w'.link.Up? && w'.channel == [] && w'.told == map[]
    requires HubOk(w')
    ensures Inv(w')
  {
    forall id: string ensures HeldOk(w', id) {
      assert HeldOk(w, id);
    }
  }

  lemma OthersKeepInv(w: World, op: Operation)
    requires Inv(w) && Enabled(w, Others(op))
    ensures Inv(Step(w, Others(op)))
  {
    var w' := Step(w, Others(op));
    IdeRegistry.StepKeepsInv(w.hub, op);
    StepKeepsPlainClients(w.hub, op);
    if w.link.Up? {
      OtherClientsDoNotInterfere(w.hub, op, w.link.client);
      SameViewKeepsReady(w.hub, w'.hub, w.link.client, !Pending(w.channel));
      forall id: string ensures LedgerOk(w', w.link.client, id) {
        assert LedgerOk(w, w.link.client, id);
      }
    }
    forall id: string ensures HeldOk(w', id) {
      assert HeldOk(w, id);
    }
  }

  /** The hub's view of every session after one delivery. */
  lemma DeliveryIsAbsorbed(w: World, features: FeatureMap)
    requires Wired(w) && w.link.Up? && w.channel != []
    ensures var w' := Delivered(w, features);
            && HubOk(w') && ClientReady(w'.hub, w.link.client, !Pending(w'.channel)) && Named(w'.channel)
            && (forall id: string ::
                  HubPair(w'.hub, w.link.client, id) == Absorb(HubPair(w.hub, w.link.client, id), w.channel[0], id))
  {
    var client, wire := w.link.client, w.channel[0];
    if wire.Register? {
      RegisteringMakesReady(w.hub, client, features);
      UpdateKeepsInv(w.hub, client, ClientPatch(Version(2), Some(features)));
    } else {
      ReportIsAbsorbed(w.hub, client, wire, features);
      UpsertKeepsInv(w.hub, client, MessageOf(wire, features), wire.pair.state);
    }
  }

  lemma DeliverKeepsInv(w: World, features: FeatureMap)
    requires Inv(w) && w.link.Up? && w.channel != []
    ensures Inv(Delivered(w, features))
  {
    var w' := Delivered(w, features);
    DeliveryIsAbsorbed(w, features);
    forall id: string ensures LedgerOk(w', w.link.client, id) && HeldOk(w', id) {
      assert LedgerOk(w, w.link.client, id) && HeldOk(w, id);
    }
  }

  lemma HubLosesKeepsInv(w: World)
    requires Inv(w) && w.link.Up?
    ensures Inv(Step(w, HubLoses))
  {
    RemoveKeepsInv(w.hub, w.link.client);
    StepKeepsPlainClients(w.hub, Remove(w.link.client));
    DropKeepsInv(w, Step(w, HubLoses));
  }

  /** Every step keeps the agreement, as long as a session id is not begun again after it was reported otherwise on the
      same connection. */
  lemma StepKeepsInv(w: World, e: Event)
    requires Inv(w) && Enabled(w, e) && CleanEvent(w, e)
    ensures Inv(Step(w, e))
  {
    match e
    case Act(act) => ActKeepsInv(w, act);
    case Connect(client) => ConnectKeepsInv(w, client);
    case Disconnect => DisconnectKeepsInv(w);
    case Replace => DropKeepsInv(w, Step(w, Replace));
    case HubLoses => HubLosesKeepsInv(w);
    case Others(op) => OthersKeepInv(w, op);
    case Deliver(features) => DeliverKeepsInv(w, features);
  }

  // ------------------------------------------------------------------- whole runs

  predicate EnabledRun(w: World, events: seq<Event>)
    decreases |events|
  {
    events == [] || (Enabled(w, events[0]) && EnabledRun(Step(w, events[0]), events[1..]))
  }

  predicate CleanRun(w: World, events: seq<Event>)
    requires EnabledRun(w, events)
    decreases |events|
  {
    events == [] || (CleanEvent(w, events[0]) && CleanRun(Step(w, events[0]), events[1..]))
  }

  function Run(w: World, events: seq<Event>): (r: World)
    requires EnabledRun(w, events)
    decreases |events|
  {
    if events == [] then w else Run(Step(w, events[0]), events[1..])
  }

  const START: World := World([], Down, [], EMPTY, map[], map[])

  /** The agreement itself: whatever the hub has recorded for a held session is a pair the session really had, at an epoch
      no later than the tracker's; and once nothing is in flight the two are equal, the only exception being a session
      that has just begun and has never been reported. */
  ghost predicate Agrees(w: World, id: string)
  {
    w.link.Up? && Held(w.sessions, id).Some? ==>
      var mine, theirs := Held(w.sessions, id).value, HubPair(w.hub, w.link.client, id);
      && (theirs.Some? ==> theirs.value in Had(w.had, id) && theirs.value.epoch <= mine.epoch)
      && (w.channel == [] ==> Matches(theirs, mine))
  }

  lemma {:induction false} RunKeepsInv(w: World, events: seq<Event>)
    requires Inv(w) && EnabledRun(w, events) && CleanRun(w, events)
    ensures Inv(Run(w, events))
    decreases |events|
  {
    if events != [] {
      StepKeepsInv(w, events[0]);
      RunKeepsInv(Step(w, events[0]), events[1..]);
    }
  }

  lemma InvImpliesAgreement(w: World, id: string)
    requires Inv(w)
    ensures Agrees(w, id)
  {
    assert HeldOk(w, id);
    if w.link.Up? {
      assert LedgerOk(w, w.link.client, id);
    }
  }

  /** Through any number of connections, losses, replacements, resends and duplicates, the hub and the tracker agree. */
  lemma HubAgreesWithTracker(events: seq<Event>, id: string)
    requires EnabledRun(START, events) && CleanRun(START, events)
    ensures Agrees(Run(START, events), id)
  {
    RunKeepsInv(START, events);
    InvImpliesAgreement(Run(START, events), id);
  }

  /** Beginning a session keeps the agreement exactly when the tracker's own ledger is clean for its id: otherwise the hub
      ends up, once everything has arrived, with something other than the new session's pair. */
  lemma BeginAgreesIffClean(w: World, id: string)
    requires Inv(w) && w.link.Up? && id != "" && Held(w.sessions, id).None?
    ensures Held(Step(w, Act(Begin(id))).sessions, id) == Some(STARTED)
    ensures Clean(w, id) <==>
              Matches(Drain(HubPair(Step(w, Act(Begin(id))).hub, w.link.client, id), Step(w, Act(Begin(id))).channel, id), STARTED)
    ensures Clean(w, id) <==> Inv(Step(w, Act(Begin(id))))
  {
    var w' := Step(w, Act(Begin(id)));
    HeldAfterAppend(w.sessions, Tracked(id, STARTED), id);
    assert w'.channel == w.channel;
    assert LedgerOk(w, w.link.client, id);
    if Clean(w, id) {
      ActKeepsInv(w, Begin(id));
    } else {
      assert !HeldOk(w', id);
    }
  }

  /** The case the code does not meet: a session that ends and begins again on one connection starts over at epoch 0, and
      the hub is left with the termination at a later epoch. */
  lemma BeginningAgainDisagrees(w: World, id: string)
    requires Inv(w) && w.link.Up? && id != "" && Held(w.sessions, id).Some?
    ensures var w1 := Step(w, Act(Terminate(id)));
            var w2 := Step(w1, Act(Begin(id)));
            && Held(w2.sessions, id) == Some(STARTED)
            && Drain(HubPair(w2.hub, w.link.client, id), w2.channel, id) == Some(Pair("terminated", Held(w.sessions, id).value.epoch + 1))
  {
    var w1 := Step(w, Act(Terminate(id)));
    TerminationIsTold(w, id);
    HeldAfterForget(w.sessions, id, id);
    ActKeepsInv(w, Terminate(id));
    assert LedgerOk(w1, w.link.client, id);
    HeldAfterAppend(w1.sessions, Tracked(id, STARTED), id);
    assert Step(w1, Act(Begin(id))).channel == w1.channel;
  }

  lemma TerminationIsTold(w: World, id: string)
    requires Inv(w) && w.link.Up? && Held(w.sessions, id).Some?
    ensures Said(Acted(w, Terminate(id)).told, id) == Some(Pair("terminated", Held(w.sessions, id).value.epoch + 1))
  {
    var wires := Sends(w.sessions, Terminate(id));
    assert HeldOk(w, id);
    HeldAfterEnter(w.sessions, id, "terminated", id);
    TellDrains(w.told, wires, id);
    OneWire(Said(w.told, id), wires[0], id);
  }

  lemma OneWire(known: Option<Pair>, wire: Wire, id: string)
    ensures Drain(known, [wire], id) == Absorb(known, wire, id)
  {
    assert [wire][1..] == [];
  }

  // ------------------------------------------- runs that begin a session again

  /** What the hub is brought to by a tracker at `mine` after it had been told `before`: only a later epoch counts. */
  function Newer(before: Pair, mine: Pair): (r: Pair)
  {
    if mine.epoch > before.epoch then mine else before
  }

  predicate Reaches(settled: Option<Pair>, before: Option<Pair>, mine: Pair)
  {
    if before.None? then Matches(settled, mine) else settled == Some(Newer(before.value, mine))
  }

  /** Every action but `Invalidate` takes the receiver from what it should hold before to what it should hold after. */
  lemma ActionKeepsReach(sessions: seq<Tracked>, act: Action, id: string, settled: Option<Pair>, before: Option<Pair>)
    requires UniqueIds(sessions) && Held(sessions, id).Some? && Held(After(sessions, act), id).Some?
    requires !act.Invalidate?
    requires Reaches(settled, before, Held(sessions, id).value)
    ensures Reaches(Drain(settled, Sends(sessions, act), id), before, Held(After(sessions, act), id).value)
  {
    var mine, next := Held(sessions, id).value, Held(After(sessions, act), id).value;
    if Matches(settled, mine) {
      ActionKeepsMatch(sessions, act, id, settled, {mine, next});
      ActionMovesForward(sessions, act, id);
      DrainNeverDecreases(settled, Sends(sessions, act), id);
    } else {
      ActionAgainstLater(sessions, act, id, before.value);
    }
  }

  /** A receiver holding something at least as late as the session takes the session's next pair exactly when that is later. */
  lemma ActionAgainstLater(sessions: seq<Tracked>, act: Action, id: string, before: Pair)
    requires UniqueIds(sessions) && Held(sessions, id).Some? && Held(After(sessions, act), id).Some?
    requires !act.Invalidate? && Held(sessions, id).value.epoch <= before.epoch
    ensures Drain(Some(before), Sends(sessions, act), id) == Some(Newer(before, Held(After(sessions, act), id).value))
  {
    match act
    case Begin(other) =>
      if Held(sessions, other).None? { HeldAfterAppend(sessions, Tracked(other, STARTED), id); }
    case Pause(other, hit) => PauseAgainstLater(sessions, other, hit, id, before);
    case Resume(other) =>
      HeldAfterEnter(sessions, other, "running", id);
      OneWire(Some(before), Sends(sessions, act)[0], id);
    case Terminate(other) =>
      HeldAfterForget(sessions, other, id);
      OneWire(Some(before), Sends(sessions, act)[0], id);
    case Initialize(other) =>
    case Resend => ReportsAreOnePerSession(sessions, Some(before), id);
  }

  lemma PauseAgainstLater(sessions: seq<Tracked>, other: string, hit: bool, id: string, before: Pair)
    requires UniqueIds(sessions) && Held(sessions, id).Some? && Held(sessions, id).value.epoch <= before.epoch
    requires Held(Enter(sessions, other, "paused"), id).Some?
    ensures Drain(Some(before), Sends(sessions, Pause(other, hit)), id)
         == Some(Newer(before, Held(Enter(sessions, other, "paused"), id).value))
  {
    HeldAfterEnter(sessions, other, "paused", id);
    HeldAfterEnter(sessions, other, "paused", other);
    var report := Report(other, Pair("paused", EpochOf(Enter(sessions, other, "paused"), other)));
    TwoReports(Some(before), report, id, {before, report.pair});
    PauseSends(sessions, other, hit, report);
  }

  lemma PauseSends(sessions: seq<Tracked>, other: string, hit: bool, report: Wire)
    requires report == Report(other, Pair("paused", EpochOf(Enter(sessions, other, "paused"), other)))
    ensures Sends(sessions, Pause(other, hit))
         == if Held(sessions, other).Some? then (if hit then [report, report] else [report]) else (if hit then [report] else [])
  {
  }

  /** What the hub had been told about the id, on the present connection, when the id's present session began. */
  function ToldBefore(w: World, e: Event, id: string, before: Option<Pair>): (r: Option<Pair>)
  {
    match e
    case Act(act) => if act == Begin(id) && Held(w.sessions, id).None? then Said(w.told, id) else before
    case Others(_) => before
    case Deliver(_) => before
    case _ => None
  }

  function RunToldBefore(w: World, events: seq<Event>, id: string, before: Option<Pair>): (r: Option<Pair>)
    requires EnabledRun(w, events)
    decreases |events|
  {
    if events == [] then before else RunToldBefore(Step(w, events[0]), events[1..], id, ToldBefore(w, events[0], id, before))
  }

  ghost predicate Follows(w: World, id: string, before: Option<Pair>)
  {
    w.link.Up? && Held(w.sessions, id).Some? ==> Reaches(Said(w.told, id), before, Held(w.sessions, id).value)
  }

  lemma DeliverKeepsWired(w: World, features: FeatureMap)
    requires Wired(w) && w.link.Up? && w.channel != []
    ensures Wired(Delivered(w, features))
  {
    var w' := Delivered(w, features);
    DeliveryIsAbsorbed(w, features);
    forall id: string ensures LedgerOk(w', w.link.client, id) {
      assert LedgerOk(w, w.link.client, id);
    }
  }

  lemma OthersKeepWired(w: World, op: Operation)
    requires Wired(w) && Enabled(w, Others(op))
    ensures Wired(Step(w, Others(op)))
  {
    var w' := Step(w, Others(op));
    IdeRegistry.StepKeepsInv(w.hub, op);
    StepKeepsPlainClients(w.hub, op);
    if w.link.Up? {
      OtherClientsDoNotInterfere(w.hub, op, w.link.client);
      SameViewKeepsReady(w.hub, w'.hub, w.link.client, !Pending(w.channel));
      forall id: string ensures LedgerOk(w', w.link.client, id) {
        assert LedgerOk(w, w.link.client, id);
      }
    }
  }

  lemma StepKeepsWired(w: World, e: Event)
    requires Wired(w) && Enabled(w, e)
    ensures Wired(Step(w, e))
  {
    match e
    case Act(act) =>
      ActionKeepsTracker(w.sessions, act);
      if w.link.Up? { ActKeepsLink(w, act); }
    case Connect(client) =>
      ActionKeepsTracker(w.sessions, Invalidate);
      ConnectKeepsLink(w, client);
      AddKeepsInv(w.hub, client, ClientPatch(Missing, None));
    case Disconnect => ActionKeepsTracker(w.sessions, Invalidate);
    case Replace =>
    case HubLoses =>
      RemoveKeepsInv(w.hub, w.link.client);
      StepKeepsPlainClients(w.hub, Remove(w.link.client));
    case Others(op) => OthersKeepWired(w, op);
    case Deliver(features) => DeliverKeepsWired(w, features);
  }

  lemma StepKeepsFollowing(w: World, e: Event, id: string, before: Option<Pair>)
    requires Wired(w) && Enabled(w, e) && Follows(w, id, before)
    ensures Follows(Step(w, e), id, ToldBefore(w, e, id, before))
  {
    match e
    case Act(act) =>
      if w.link.Up? && Held(After(w.sessions, act), id).Some? {
        var wires := Sends(w.sessions, act);
        TellDrains(w.told, wires, id);
        ActionMovesForward(w.sessions, act, id);
        if Held(w.sessions, id).Some? {
          ActionKeepsReach(w.sessions, act, id, Said(w.told, id), before);
        }
      }
    case Connect(client) => ConnectFollows(w, client, id);
    case Disconnect =>
    case Replace =>
    case HubLoses =>
    case Others(op) =>
    case Deliver(features) =>
  }

  lemma ConnectFollows(w: World, client: string, id: string)
    requires Wired(w)
    ensures Follows(Connected(w, client), id, None)
  {
    var sessions := Invalidated(w.sessions);
    if Held(sessions, id).Some? {
      ActionKeepsTracker(w.sessions, Invalidate);
      TellDrains(map[], Reports(sessions), id);
      ReportsAreOnePerSession(sessions, None, id);
    }
  }

  lemma {:induction false} RunFollows(w: World, events: seq<Event>, id: string, before: Option<Pair>)
    requires Wired(w) && EnabledRun(w, events) && Follows(w, id, before)
    ensures Wired(Run(w, events)) && Follows(Run(w, events), id, RunToldBefore(w, events, id, before))
    decreases |events|
  {
    if events != [] {
      StepKeepsWired(w, events[0]);
      StepKeepsFollowing(w, events[0], id, before);
      RunFollows(Step(w, events[0]), events[1..], id, ToldBefore(w, events[0], id, before));
    }
  }

  /** The exact extent of the failure, over every run, sessions begun again included. With `before` the last the hub was
      told about the id on this connection when its session began: once everything sent has arrived, the hub holds `before`
      while the session's epoch is not beyond it, and the session's own pair from then on. So the two agree exactly when
      there is no `before`, or the epoch has overtaken it, or the two are one. */
  lemma HubAgreesOnceOvertaken(events: seq<Event>, id: string)
    requires EnabledRun(START, events)
    ensures var w, before := Run(START, events), RunToldBefore(START, events, id, None);
            w.link.Up? && Held(w.sessions, id).Some? ==>
              var mine := Held(w.sessions, id).value;
              var theirs := Drain(HubPair(w.hub, w.link.client, id), w.channel, id);
              && (before.Some? ==> theirs == Some(if mine.epoch > before.value.epoch then mine else before.value))
              && (Matches(theirs, mine) <==> before.None? || mine.epoch > before.value.epoch || before.value == mine)
  {
    RunFollows(START, events, id, None);
    var w := Run(START, events);
    if w.link.Up? {
      assert LedgerOk(w, w.link.client, id);
    }
  }

  // ------------------------------------------------------- a session by its events

  predicate Begins(e: Event, id: string)
  {
    e == Act(Begin(id))
  }

  predicate Pauses(e: Event, id: string)
  {
    e == Act(Pause(id, true)) || e == Act(Pause(id, false))
  }

  predicate Resumes(e: Event, id: string)
  {
    e == Act(Resume(id))
  }

  predicate Ends(e: Event, id: string)
  {
    e == Act(Terminate(id))
  }

  /** A new bridge generation, which moves every session on: the socket opened or closed, or the extension says so. */
  predicate NewGeneration(e: Event)
  {
    e.Connect? || e.Disconnect? || e == Act(Invalidate)
  }

  /** What one event makes of what is held for an id. */
  lemma HeldStep(w: World, e: Event, id: string)
    requires Wired(w) && Enabled(w, e)
    ensures var held, held' := Held(w.sessions, id), Held(Step(w, e).sessions, id);
            && (Ends(e, id) ==> held' == None)
            && (!Ends(e, id) && held.Some? ==> held'.Some?)
            && (held.None? ==> held' == if Begins(e, id) then Some(Pair("running", 0)) else None)
            && (held.Some? && Pauses(e, id) ==> held' == Some(Pair("paused", held.value.epoch + 1)))
            && (held.Some? && Resumes(e, id) ==> held' == Some(Pair("running", held.value.epoch + 1)))
            && (held.Some? && NewGeneration(e) ==> held' == Some(Pair(held.value.state, held.value.epoch + 1)))
            && (held.Some? && !Pauses(e, id) && !Resumes(e, id) && !Ends(e, id) && !NewGeneration(e) ==> held' == held)
  {
    match e
    case Act(act) => ActStep(w.sessions, act, id);
    case Connect(_) => HeldAfterInvalidate(w.sessions, id);
    case Disconnect => HeldAfterInvalidate(w.sessions, id);
    case _ =>
  }

  lemma ActStep(sessions: seq<Tracked>, act: Action, id: string)
    requires UniqueIds(sessions)
    ensures var held, held' := Held(sessions, id), Held(After(sessions, act), id);
            && (act == Terminate(id) ==> held' == None)
            && (act != Terminate(id) && held.Some? ==> held'.Some?)
            && (held.None? ==> held' == if act == Begin(id) then Some(Pair("running", 0)) else None)
            && (held.Some? && act.Pause? && act.id == id ==> held' == Some(Pair("paused", held.value.epoch + 1)))
            && (held.Some? && act == Resume(id) ==> held' == Some(Pair("running", held.value.epoch + 1)))
            && (held.Some? && act == Invalidate ==> held' == Some(Pair(held.value.state, held.value.epoch + 1)))
            && (held.Some? && !(act.Pause? && act.id == id) && act != Resume(id) && act != Terminate(id) && act != Invalidate ==> held' == held)
  {
    match act
    case Begin(other) => if Held(sessions, other).None? { HeldAfterAppend(sessions, Tracked(other, STARTED), id); }
    case Pause(other, _) => HeldAfterEnter(sessions, other, "paused", id);
    case Resume(other) => HeldAfterEnter(sessions, other, "running", id);
    case Terminate(other) => HeldAfterForget(sessions, other, id);
    case Invalidate => HeldAfterInvalidate(sessions, id);
    case _ =>
  }

  /** What an action reports about its session, held or not; the second report of a breakpoint repeats the first. */
  lemma WhatIsReported(sessions: seq<Tracked>, id: string, hit: bool)
    requires UniqueIds(sessions)
    ensures Sends(sessions, Begin(id)) == [] && Sends(sessions, Invalidate) == []
    ensures Held(sessions, id).None? ==>
              && Sends(sessions, Pause(id, hit)) == (if hit then [Report(id, Pair("paused", 0))] else [])
              && Sends(sessions, Resume(id)) == [Report(id, Pair("running", 0))]
              && Sends(sessions, Terminate(id)) == [Report(id, Pair("terminated", 0))]
              && Sends(sessions, Initialize(id)) == []
    ensures Held(sessions, id).Some? ==>
              var epoch := Held(sessions, id).value.epoch;
              var paused := Report(id, Pair("paused", epoch + 1));
              && Sends(sessions, Pause(id, hit)) == (if hit then [paused, paused] else [paused])
              && Sends(sessions, Resume(id)) == [Report(id, Pair("running", epoch + 1))]
              && Sends(sessions, Terminate(id)) == [Report(id, Pair("terminated", epoch + 1))]
              && Sends(sessions, Initialize(id)) == [Report(id, Pair("running", epoch))]
  {
    PauseIsReported(sessions, id, hit);
    ResumeIsReported(sessions, id);
    EndIsReported(sessions, id);
  }

  lemma PauseIsReported(sessions: seq<Tracked>, id: string, hit: bool)
    requires UniqueIds(sessions)
    ensures var held := Held(sessions, id);
            var report := Report(id, Pair("paused", if held.Some? then held.value.epoch + 1 else 0));
            Sends(sessions, Pause(id, hit))
            == if held.Some? then (if hit then [report, report] else [report]) else (if hit then [report] else [])
  {
    HeldAfterEnter(sessions, id, "paused", id);
    PauseSends(sessions, id, hit, Report(id, Pair("paused", EpochOf(Enter(sessions, id, "paused"), id))));
  }

  lemma ResumeIsReported(sessions: seq<Tracked>, id: string)
    requires UniqueIds(sessions)
    ensures var held := Held(sessions, id);
            Sends(sessions, Resume(id)) == [Report(id, Pair("running", if held.Some? then held.value.epoch + 1 else 0))]
  {
    HeldAfterEnter(sessions, id, "running", id);
  }

  lemma EndIsReported(sessions: seq<Tracked>, id: string)
    requires UniqueIds(sessions)
    ensures var held := Held(sessions, id);
            Sends(sessions, Terminate(id)) == [Report(id, Pair("terminated", if held.Some? then held.value.epoch + 1 else 0))]
  {
    HeldAfterEnter(sessions, id, "terminated", id);
  }

  /** The session of the id that is still going began with the `b`-th event: nothing has ended it since, and every earlier
      begin was ended before. */
  ghost predicate BeganAt(events: seq<Event>, id: string, b: nat)
  {
    && b < |events| && Begins(events[b], id)
    && (forall k | b < k < |events| :: !Ends(events[k], id))
    && (forall j | 0 <= j < b :: Begins(events[j], id) ==> EndedWithin(events, id, j, b))
  }

  ghost predicate EndedWithin(events: seq<Event>, id: string, j: int, b: int)
  {
    exists k :: j < k < b && 0 <= k < |events| && Ends(events[k], id)
  }

  ghost predicate AllEnded(events: seq<Event>, id: string)
  {
    forall j | 0 <= j < |events| :: Begins(events[j], id) ==> EndedWithin(events, id, j, |events|)
  }

  /** Since the `b`-th event, the last pause or resume of the id is a pause. */
  ghost predicate LastIsPause(events: seq<Event>, id: string, b: nat)
  {
    exists p :: b < p < |events| && Pauses(events[p], id) && forall j | p < j < |events| :: !Resumes(events[j], id)
  }

  /** The pauses and resumes of the id, and the new generations, from the `b`-th event on. */
  function Moves(events: seq<Event>, id: string, b: nat): (r: nat)
    requires b <= |events|
    decreases |events|
  {
    if b == |events| then 0
    else
      var last := events[|events| - 1];
      Moves(events[..|events| - 1], id, b) + if Pauses(last, id) || Resumes(last, id) || NewGeneration(last) then 1 else 0
  }

  /** What the events so far make of an id. */
  ghost predicate HeldByEvents(held: Option<Pair>, events: seq<Event>, id: string)
  {
    && (held.None? <==> AllEnded(events, id))
    && (held.Some? <==> exists b: nat :: BeganAt(events, id, b))
    && (forall b: nat | BeganAt(events, id, b) ::
          held == Some(Pair(if LastIsPause(events, id, b) then "paused" else "running", Moves(events, id, b))))
  }

  lemma EndedBefore(events: seq<Event>, e: Event, id: string, j: int, b: int)
    requires b <= |events|
    ensures EndedWithin(events + [e], id, j, b) <==> EndedWithin(events, id, j, b)
  {
    var more := events + [e];
    if k :| j < k < b && 0 <= k < |more| && Ends(more[k], id) { assert Ends(events[k], id); }
    if k :| j < k < b && 0 <= k < |events| && Ends(events[k], id) { assert Ends(more[k], id); }
  }

  lemma EndedLater(events: seq<Event>, e: Event, id: string, j: int)
    requires 0 <= j < |events|
    ensures EndedWithin(events + [e], id, j, |events| + 1) <==> EndedWithin(events, id, j, |events|) || Ends(e, id)
  {
    var more := events + [e];
    assert more[|events|] == e;
    EndedBefore(events, e, id, j, |events|);
    if k :| j < k < |events| + 1 && 0 <= k < |more| && Ends(more[k], id) {
      assert k < |events| ==> Ends(events[k], id);
    }
  }

  lemma AllEndedNext(events: seq<Event>, e: Event, id: string)
    ensures AllEnded(events + [e], id) <==> Ends(e, id) || (AllEnded(events, id) && !Begins(e, id))
  {
    var more := events + [e];
    assert more[|events|] == e;
    forall j | 0 <= j < |events| ensures EndedWithin(more, id, j, |more|) <==> EndedWithin(events, id, j, |events|) || Ends(e, id) {
      EndedLater(events, e, id, j);
    }
    if AllEnded(more, id) && !Ends(e, id) {
      forall j | 0 <= j < |events| && Begins(events[j], id) ensures EndedWithin(events, id, j, |events|) {
        assert Begins(more[j], id);
      }
    }
  }

  lemma BeganAtNext(events: seq<Event>, e: Event, id: string, b: nat)
    ensures b < |events| ==> (BeganAt(events + [e], id, b) <==> BeganAt(events, id, b) && !Ends(e, id))
    ensures b == |events| ==> (BeganAt(events + [e], id, b) <==> Begins(e, id) && AllEnded(events, id))
  {
    var more := events + [e];
    assert more[|events|] == e && forall j | 0 <= j < |events| :: more[j] == events[j];
    if b <= |events| {
      forall j | 0 <= j < b ensures EndedWithin(more, id, j, b) <==> EndedWithin(events, id, j, b) {
        EndedBefore(events, e, id, j, b);
      }
    }
  }

  lemma LastIsPauseNext(events: seq<Event>, e: Event, id: string, b: nat)
    requires b < |events|
    ensures LastIsPause(events + [e], id, b) <==> Pauses(e, id) || (LastIsPause(events, id, b) && !Resumes(e, id))
  {
    var more := events + [e];
    assert more[|events|] == e && forall j | 0 <= j < |events| :: more[j] == events[j];
    if p :| b < p < |events| && Pauses(events[p], id) && forall j | p < j < |events| :: !Resumes(events[j], id) {
      assert Pauses(more[p], id);
    }
    if p :| b < p < |more| && Pauses(more[p], id) && forall j | p < j < |more| :: !Resumes(more[j], id) {
      if p < |events| {
        assert !Resumes(more[|events|], id);
        assert Pauses(events[p], id);
      }
    }
  }

  lemma MovesNext(events: seq<Event>, e: Event, id: string, b: nat)
    requires b <= |events|
    ensures Moves(events + [e], id, b) == Moves(events, id, b) + if Pauses(e, id) || Resumes(e, id) || NewGeneration(e) then 1 else 0
  {
    assert (events + [e])[..|events|] == events;
  }

  lemma NothingSince(events: seq<Event>, e: Event, id: string)
    requires Begins(e, id)
    ensures !LastIsPause(events + [e], id, |events|) && Moves(events + [e], id, |events|) == 0
  {
    MovesNext(events, e, id, |events|);
  }

  /** One more event. */
  lemma HeldByMoreEvents(held: Option<Pair>, held': Option<Pair>, events: seq<Event>, e: Event, id: string)
    requires HeldByEvents(held, events, id)
    requires Ends(e, id) ==> held' == None
    requires !Ends(e, id) && held.Some? ==> held'.Some?
    requires held.None? ==> held' == if Begins(e, id) then Some(Pair("running", 0)) else None
    requires held.Some? && Pauses(e, id) ==> held' == Some(Pair("paused", held.value.epoch + 1))
    requires held.Some? && Resumes(e, id) ==> held' == Some(Pair("running", held.value.epoch + 1))
    requires held.Some? && NewGeneration(e) ==> held' == Some(Pair(held.value.state, held.value.epoch + 1))
    requires held.Some? && !Pauses(e, id) && !Resumes(e, id) && !Ends(e, id) && !NewGeneration(e) ==> held' == held
    ensures HeldByEvents(held', events + [e], id)
  {
    var more := events + [e];
    AllEndedNext(events, e, id);
    forall b: nat | b <= |events| ensures BeganAt(more, id, b) <==>
      if b < |events| then BeganAt(events, id, b) && !Ends(e, id) else Begins(e, id) && AllEnded(events, id)
    {
      BeganAtNext(events, e, id, b);
    }
    forall b: nat | BeganAt(more, id, b)
      ensures held' == Some(Pair(if LastIsPause(more, id, b) then "paused" else "running", Moves(more, id, b)))
    {
      if b < |events| {
        LastIsPauseNext(events, e, id, b);
        MovesNext(events, e, id, b);
      } else {
        NothingSince(events, e, id);
      }
    }
    if held'.Some? {
      if held.Some? {
        var b: nat :| BeganAt(events, id, b);
        assert BeganAt(more, id, b);
      } else {
        assert BeganAt(more, id, |events|);
      }
    }
  }

  lemma {:induction false} RunLast(w: World, events: seq<Event>)
    requires EnabledRun(w, events) && events != []
    ensures EnabledRun(w, events[..|events| - 1])
    ensures Enabled(Run(w, events[..|events| - 1]), events[|events| - 1])
    ensures Run(w, events) == Step(Run(w, events[..|events| - 1]), events[|events| - 1])
    decreases |events|
  {
    var before := events[..|events| - 1];
    if |events| > 1 {
      RunLast(Step(w, events[0]), events[1..]);
      assert events[1..][..|events| - 2] == before[1..];
    } else {
      assert before == [] && events[1..] == [];
    }
  }

  lemma {:induction false} RunIsWired(events: seq<Event>)
    requires EnabledRun(START, events)
    ensures Wired(Run(START, events))
  {
    RunFollows(START, events, "", None);
  }

  /** Over every run, what the tracker holds is decided by the events: a session is held exactly when one of its begins has
      not been ended; since it began its state is "paused" exactly when the last pause or resume of its id is a pause, and
      "running" otherwise; and its epoch counts its pauses and resumes and the new bridge generations. */
  lemma {:induction false} HeldFollowsEvents(events: seq<Event>, id: string)
    requires EnabledRun(START, events)
    ensures HeldByEvents(Held(Run(START, events).sessions, id), events, id)
    decreases |events|
  {
    if events != [] {
      var before, last := events[..|events| - 1], events[|events| - 1];
      RunLast(START, events);
      HeldFollowsEvents(before, id);
      RunIsWired(before);
      OneMoreEvent(Run(START, before), before, last, id);
      assert before + [last] == events;
    } else {
      NothingHeldAtFirst(events, id);
    }
  }

  lemma NothingHeldAtFirst(events: seq<Event>, id: string)
    requires events == []
    ensures HeldByEvents(Held(START.sessions, id), events, id)
  {
  }

  lemma OneMoreEvent(w: World, events: seq<Event>, e: Event, id: string)
    requires Wired(w) && Enabled(w, e) && HeldByEvents(Held(w.sessions, id), events, id)
    ensures HeldByEvents(Held(Step(w, e).sessions, id), events + [e], id)
  {
    HeldStep(w, e, id);
    HeldByMoreEvents(Held(w.sessions, id), Held(Step(w, e).sessions, id), events, e, id);
  }

  /** The hub shows it: after a clean run with nothing in flight, the hub's record of a session that is going is the state and
      the count that the events make of it, or there is no record and nothing has happened since it began. */
  lemma HubShowsTheEvents(events: seq<Event>, id: string, b: nat)
    requires EnabledRun(START, events) && CleanRun(START, events) && BeganAt(events, id, b)
    requires Run(START, events).link.Up? && Run(START, events).channel == []
    ensures var w := Run(START, events);
            var shown := HubPair(w.hub, w.link.client, id);
            || shown == Some(Pair(if LastIsPause(events, id, b) then "paused" else "running", Moves(events, id, b)))
            || (shown == None && !LastIsPause(events, id, b) && Moves(events, id, b) == 0)
  {
    HubAgreesWithTracker(events, id);
    HeldFollowsEvents(events, id);
    StatesDiffer();
  }

  lemma StatesDiffer()
    ensures "paused" != "running"
  {
    assert "paused"[0] != "running"[0];
  }

  // ------------------------------------------------------------ the tracker object

  lemma {:induction false} EnterIsUpdate(sessions: seq<Tracked>, i: nat, id: string, state: string)
    requires i < |sessions| && sessions[i].id == id && (forall j | 0 <= j < i :: sessions[j].id != id)
    ensures Enter(sessions, id, state) == sessions[i := Tracked(id, Pair(state, sessions[i].pair.epoch + 1))]
    ensures Held(sessions, id) == Some(sessions[i].pair)
    ensures Forget(sessions, id) == sessions[..i] + sessions[i + 1..]
  {
    if i > 0 {
      EnterIsUpdate(sessions[1..], i - 1, id, state);
    }
  }

  lemma {:induction false} EnterOfUnheld(sessions: seq<Tracked>, id: string, state: string)
    requires forall j | 0 <= j < |sessions| :: sessions[j].id != id
    ensures Enter(sessions, id, state) == sessions && Held(sessions, id).None? && Forget(sessions, id) == sessions
  {
    if sessions != [] {
      EnterOfUnheld(sessions[1..], id, state);
    }
  }

  lemma {:induction false} ReportsAppend(a: seq<Tracked>, b: Tracked)
    ensures Reports(a + [b]) == Reports(a) + [Report(b.id, b.pair)]
  {
    if a == [] {
      assert a + [b] == [b];
    } else {
      assert (a + [b])[1..] == a[1..] + [b];
      ReportsAppend(a[1..], b);
    }
  }

  /** The first `n` sessions have moved one epoch on, the others not yet. */
  ghost predicate AdvancedUpTo(before: seq<Tracked>, sessions: seq<Tracked>, n: nat)
  {
    |sessions| == |before| && n <= |before| && forall j | 0 <= j < |before| :: sessions[j] == if j < n then NextEpoch(before[j]) else before[j]
  }

  function NextEpoch(t: Tracked): (r: Tracked)
  {
    Tracked(t.id, Pair(t.pair.state, t.pair.epoch + 1))
  }

  lemma AdvanceOne(before: seq<Tracked>, sessions: seq<Tracked>, n: nat)
    requires AdvancedUpTo(before, sessions, n) && n < |before|
    ensures AdvancedUpTo(before, sessions[n := NextEpoch(sessions[n])], n + 1)
  {
  }

  lemma {:induction false} InvalidatedAt(sessions: seq<Tracked>, j: nat)
    requires j < |sessions|
    ensures |Invalidated(sessions)| == |sessions| && Invalidated(sessions)[j] == NextEpoch(sessions[j])
  {
    if sessions[1..] != [] {
      InvalidatedAt(sessions[1..], if j > 0 then j - 1 else 0);
    }
  }

  lemma AllAdvanced(before: seq<Tracked>, sessions: seq<Tracked>)
    requires AdvancedUpTo(before, sessions, |before|)
    ensures sessions == Invalidated(before)
  {
    if before != [] {
      InvalidatedAt(before, 0);
    }
    forall j | 0 <= j < |before| ensures sessions[j] == Invalidated(before)[j] {
      InvalidatedAt(before, j);
    }
  }

  /** The tracker's map of sessions, in insertion order, with `sent` standing for what went out on the open socket. */
  class DebugSessionTracker {
    var sessions: seq<Tracked>
    var open: bool
    var sent: seq<Wire>

    constructor ()
      ensures sessions == [] && sent == [] && !open
    {
      sessions, open, sent := [], false, [];
    }

    method Send(wire: Wire)
      modifies this`sent
      ensures sent == old(sent) + (if open then [wire] else [])
    {
      if open {
        sent := sent + [wire];
      }
    }

    method Find(id: string) returns (i: nat)
      ensures i <= |sessions|
      ensures i < |sessions| ==> sessions[i].id == id && (forall j | 0 <= j < i :: sessions[j].id != id)
      ensures i == |sessions| ==> forall j | 0 <= j < |sessions| :: sessions[j].id != id
    {
      i := 0;
      while i < |sessions| && sessions[i].id != id
        invariant i <= |sessions| && forall j | 0 <= j < i :: sessions[j].id != id
      {
        i := i + 1;
      }
    }

    /** Writes a state into the held session, if there is one, and advances its epoch. */
    method SetState(id: string, state: string)
      modifies this`sessions
      ensures sessions == Enter(old(sessions), id, state)
    {
      var i := Find(id);
      if i < |sessions| {
        EnterIsUpdate(sessions, i, id, state);
        sessions := sessions[i := Tracked(id, Pair(state, sessions[i].pair.epoch + 1))];
      } else {
        EnterOfUnheld(sessions, id, state);
      }
    }

    method Register(id: string)
      modifies this
      ensures sessions == After(old(sessions), Begin(id)) && sent == old(sent) && open == old(open)
    {
      var i := Find(id);
      if i < |sessions| {
        EnterIsUpdate(sessions, i, id, "");
        return;
      }
      EnterOfUnheld(sessions, id, "");
      sessions := sessions + [Tracked(id, STARTED)];
    }

    /** A stop reported by the adapter: `hit` when its reason is a breakpoint. */
    method MarkPaused(id: string, hit: bool)
      modifies this
      ensures open == old(open) && sessions == After(old(sessions), Pause(id, hit))
      ensures sent == old(sent) + (if open then Sends(old(sessions), Pause(id, hit)) else [])
    {
      ghost var before := sessions;
      var i := Find(id);
      if i < |sessions| {
        EnterIsUpdate(sessions, i, id, "paused");
        SetState(id, "paused");
        Send(IdeReport(id, "paused"));
      } else {
        EnterOfUnheld(sessions, id, "paused");
      }
      if hit {
        Send(IdeReport(id, "paused"));
      }
      assert sent == old(sent) + (if open then Sends(before, Pause(id, hit)) else []);
    }

    function IdeReport(id: string, state: string): (r: Wire)
      reads this
    {
      Wire.Report(id, Pair(state, EpochOf(sessions, id)))
    }

    method MarkRunning(id: string)
      modifies this
      ensures open == old(open) && sessions == After(old(sessions), Resume(id))
      ensures sent == old(sent) + (if open then Sends(old(sessions), Resume(id)) else [])
    {
      SetState(id, "running");
      Send(IdeReport(id, "running"));
    }

    method Terminate(id: string)
      modifies this
      ensures open == old(open) && sessions == After(old(sessions), Action.Terminate(id))
      ensures sent == old(sent) + (if open then Sends(old(sessions), Action.Terminate(id)) else [])
    {
      ghost var before := sessions;
      SetState(id, "terminated");
      Send(IdeReport(id, "terminated"));
      ForgetAfterEnter(before, id, "terminated");
      var i := Find(id);
      if i < |sessions| {
        EnterIsUpdate(sessions, i, id, "terminated");
        sessions := sessions[..i] + sessions[i + 1..];
      } else {
        EnterOfUnheld(sessions, id, "terminated");
      }
    }

    /** The adapter answered `initialize`. */
    method OnInitialized(id: string)
      modifies this
      ensures open == old(open) && sessions == After(old(sessions), Initialize(id))
      ensures sent == old(sent) + (if open then Sends(old(sessions), Initialize(id)) else [])
    {
      var i := Find(id);
      if i < |sessions| {
        EnterIsUpdate(sessions, i, id, "");
        Send(IdeReport(id, "running"));
      } else {
        EnterOfUnheld(sessions, id, "");
      }
    }

    method InvalidateBridgeGeneration()
      modifies this
      ensures open == old(open) && sent == old(sent) && sessions == After(old(sessions), Invalidate)
    {
      ghost var before := sessions;
      var i := 0;
      while i < |sessions|
        invariant open == old(open) && sent == old(sent)
        invariant i <= |before| && AdvancedUpTo(before, sessions, i)
      {
        AdvanceOne(before, sessions, i);
        sessions := sessions[i := Tracked(sessions[i].id, Pair(sessions[i].pair.state, sessions[i].pair.epoch + 1))];
        i := i + 1;
      }
      AllAdvanced(before, sessions);
    }

    method ResendKnownSessionStates()
      modifies this
      ensures open == old(open) && sessions == old(sessions)
      ensures sent == old(sent) + (if open then Sends(sessions, Resend) else [])
    {
      var i := 0;
      while i < |sessions|
        invariant open == old(open) && sessions == old(sessions) && i <= |sessions|
        invariant sent == old(sent) + (if open then Reports(sessions[..i]) else [])
      {
        Send(Wire.Report(sessions[i].id, sessions[i].pair));
        assert sessions[..i + 1] == sessions[..i] + [sessions[i]];
        ReportsAppend(sessions[..i], sessions[i]);
        i := i + 1;
      }
      assert sessions[..i] == sessions;
    }

    /** What the extension does when the socket opens: register, advance every epoch, send every state again. */
    method OnConnected()
      modifies this
      ensures open && sessions == Invalidated(old(sessions))
      ensures sent == [Wire.Register] + Reports(sessions)
    {
      open, sent := true, [];
      Send(Wire.Register);
      InvalidateBridgeGeneration();
      ResendKnownSessionStates();
    }

    method OnDisconnected()
      modifies this
      ensures !open && sessions == Invalidated(old(sessions)) && sent == []
    {
      open, sent := false, [];
      InvalidateBridgeGeneration();
    }
  }

  lemma {:induction false} ForgetAfterEnter(sessions: seq<Tracked>, id: string, state: string)
    ensures Forget(Enter(sessions, id, state), id) == Forget(sessions, id)
  {
    if sessions != [] {
      ForgetAfterEnter(sessions[1..], id, state);
    }
  }
}
