/** The per-source locks of the reconciler (src/sessions/BreakpointReconciler.ts, `#acquireLocks`): a map from source
    to the promise at the tail of a chain. Each acquisition takes a ticket, waits for the promise it found in the map,
    and leaves its own promise there. Here the chain is proved to be a first-in first-out queue. */
module SourceLocks {
  import opened Basics

  /** One acquisition: `previous` is the ticket whose promise it found in the map, if any. */
  datatype Ticket = Ticket(source: string, previous: Option<nat>, granted: bool, released: bool)

  datatype RawTable = RawTable(tail: map<string, nat>, tickets: seq<Ticket>)

  predicate WellFormed(l: RawTable)
  {
    && (forall t | 0 <= t < |l.tickets| :: l.tickets[t].previous.Some? ==> l.tickets[t].previous.value < t)
    && (forall s | s in l.tail :: l.tail[s] < |l.tickets|)
  }

  /** Tickets are numbered in arrival order, so the promise a ticket waits for is older. */
  type LockTable = l: RawTable | WellFormed(l) witness RawTable(map[], [])

  datatype LockEvent = Enqueue(source: string) | Grant(ticket: nat) | Release(ticket: nat)

  const EMPTY: LockTable := RawTable(map[], [])

  /** The promise a ticket leaves in the map: settled once its predecessor's is and the ticket itself is released. */
  predicate Settled(l: LockTable, t: nat)
    requires t < |l.tickets|
    decreases t
  {
    l.tickets[t].released && (l.tickets[t].previous.None? || Settled(l, l.tickets[t].previous.value))
  }

  /** The awaited promise has settled. */
  predicate MayResume(l: LockTable, t: nat)
    requires t < |l.tickets|
  {
    l.tickets[t].previous.None? || Settled(l, l.tickets[t].previous.value)
  }

  function Step(l: LockTable, event: LockEvent): (r: LockTable)
  {
    match event
    case Enqueue(source) =>
      var previous := if source in l.tail then Some(l.tail[source]) else None;
      RawTable(l.tail[source := |l.tickets|], l.tickets + [Ticket(source, previous, false, false)])
    case Grant(t) =>
      if t < |l.tickets| && !l.tickets[t].granted && MayResume(l, t)
      then l.(tickets := l.tickets[t := l.tickets[t].(granted := true)])
      else l
    case Release(t) =>
      if t < |l.tickets| && l.tickets[t].granted && !l.tickets[t].released then
        var source := l.tickets[t].source;
        RawTable(if source in l.tail && l.tail[source] == t then l.tail - {source} else l.tail,
                  l.tickets[t := l.tickets[t].(released := true)])
      else l
  }

  ghost predicate Holds(l: LockTable, t: nat)
  {
    t < |l.tickets| && l.tickets[t].granted && !l.tickets[t].released
  }

  /** Some acquisition of the source is waiting or holding. */
  ghost predicate Busy(l: LockTable, source: string)
  {
    exists t | 0 <= t < |l.tickets| :: l.tickets[t].source == source && !l.tickets[t].released
  }

  ghost predicate AllReleasedBefore(l: LockTable, source: string, n: nat)
  {
    forall t | 0 <= t < n && t < |l.tickets| :: l.tickets[t].source == source ==> l.tickets[t].released
  }

  ghost predicate NoneBetween(l: LockTable, source: string, lo: nat, hi: nat)
  {
    forall t | lo < t < hi && t < |l.tickets| :: l.tickets[t].source != source
  }

  ghost predicate ChainedTicket(l: LockTable, t: nat)
    requires t < |l.tickets|
  {
    var ticket := l.tickets[t];
    && (ticket.released ==> ticket.granted)
    && (ticket.granted ==> AllReleasedBefore(l, ticket.source, t))
    && (ticket.previous.None? ==> AllReleasedBefore(l, ticket.source, t))
    && (ticket.previous.Some? ==>
          && ticket.previous.value < t
          && l.tickets[ticket.previous.value].source == ticket.source
          && NoneBetween(l, ticket.source, ticket.previous.value, t))
  }

  ghost predicate TailIsLast(l: LockTable, source: string)
  {
    source in l.tail ==>
      && l.tail[source] < |l.tickets|
      && l.tickets[l.tail[source]].source == source
      && !l.tickets[l.tail[source]].released
      && NoneBetween(l, source, l.tail[source], |l.tickets|)
  }

  ghost predicate Inv(l: LockTable)
  {
    && (forall t | 0 <= t < |l.tickets| :: ChainedTicket(l, t))
    && (forall source :: TailIsLast(l, source))
    && (forall source :: source !in l.tail ==> AllReleasedBefore(l, source, |l.tickets|))
  }

  /** A ticket's promise has settled exactly when every ticket of its source up to it is released. */
  lemma {:induction false} SettledMeansAllReleased(l: LockTable, t: nat)
    requires Inv(l) && t < |l.tickets|
    ensures Settled(l, t) <==> AllReleasedBefore(l, l.tickets[t].source, t + 1)
    decreases t
  {
    assert ChainedTicket(l, t);
    if l.tickets[t].previous.Some? {
      var p := l.tickets[t].previous.value;
      SettledMeansAllReleased(l, p);
      assert NoneBetween(l, l.tickets[t].source, p, t);
      if Settled(l, t) {
        assert AllReleasedBefore(l, l.tickets[t].source, p + 1);
      }
    }
  }

  /** Waiting is over exactly for the first unreleased ticket of a source: grants go in arrival order. */
  lemma MayResumeIffFirst(l: LockTable, t: nat)
    requires Inv(l) && t < |l.tickets|
    ensures MayResume(l, t) <==> AllReleasedBefore(l, l.tickets[t].source, t)
  {
    SettledMeansAllReleased(l, t);
    assert ChainedTicket(l, t);
    if l.tickets[t].previous.Some? {
      SettledMeansAllReleased(l, l.tickets[t].previous.value);
    }
  }

  lemma EnqueueKeepsInv(l: LockTable, source: string)
    requires Inv(l)
    ensures Inv(Step(l, Enqueue(source)))
  {
    assert forall k | 0 <= k < |l.tickets| :: ChainedTicket(l, k);
    assert TailIsLast(l, source);
    var l' := Step(l, Enqueue(source));
    forall t | 0 <= t < |l'.tickets| ensures ChainedTicket(l', t) {
      if t < |l.tickets| {
        assert ChainedTicket(l, t);
        assert l'.tickets[t] == l.tickets[t];
      }
    }
    forall s ensures TailIsLast(l', s) {
      assert TailIsLast(l, s);
    }
  }

  lemma GrantKeepsInv(l: LockTable, t: nat)
    requires Inv(l)
    ensures Inv(Step(l, Grant(t)))
  {
    assert forall k | 0 <= k < |l.tickets| :: ChainedTicket(l, k);
    var l' := Step(l, Grant(t));
    if t < |l.tickets| {
      MayResumeIffFirst(l, t);
    }
    forall k | 0 <= k < |l'.tickets| ensures ChainedTicket(l', k) {
      assert ChainedTicket(l, k);
    }
    forall s ensures TailIsLast(l', s) {
      assert TailIsLast(l, s);
    }
  }

  lemma ReleaseKeepsInv(l: LockTable, t: nat)
    requires Inv(l)
    ensures Inv(Step(l, Release(t)))
  {
    assert forall k | 0 <= k < |l.tickets| :: ChainedTicket(l, k);
    var l' := Step(l, Release(t));
    forall k | 0 <= k < |l'.tickets| ensures ChainedTicket(l', k) {
      assert ChainedTicket(l, k);
    }
    forall s ensures TailIsLast(l', s) {
      assert TailIsLast(l, s);
    }
    forall s | s !in l'.tail ensures AllReleasedBefore(l', s, |l'.tickets|) {
      if s in l.tail {
        assert TailIsLast(l, s) && ChainedTicket(l, t);
      }
    }
  }

  lemma StepKeepsInv(l: LockTable, event: LockEvent)
    requires Inv(l)
    ensures Inv(Step(l, event))
  {
    match event
    case Enqueue(source) => EnqueueKeepsInv(l, source);
    case Grant(t) => GrantKeepsInv(l, t);
    case Release(t) => ReleaseKeepsInv(l, t);
  }

  /** The table after any interleaving of acquisitions and releases. */
  function Run(events: seq<LockEvent>): (r: LockTable)
  {
    if events == [] then EMPTY else Step(Run(events[..|events| - 1]), events[|events| - 1])
  }

  lemma {:induction false} RunKeepsInv(events: seq<LockEvent>)
    ensures Inv(Run(events))
  {
    if events != [] {
      RunKeepsInv(events[..|events| - 1]);
      StepKeepsInv(Run(events[..|events| - 1]), events[|events| - 1]);
    }
  }

  /** In every interleaving: a source has at most one holder; a ticket is granted only after every earlier ticket of
      its source has been granted and released; a waiter can be granted exactly when it is the oldest of its source;
      and the map has no entry for a source exactly when nobody holds it or waits for it. */
  lemma LocksAreFairAndExclusive(events: seq<LockEvent>)
    ensures var l := Run(events);
            && (forall t: nat, u: nat | Holds(l, t) && Holds(l, u) && l.tickets[t].source == l.tickets[u].source :: t == u)
            && (forall t, u | 0 <= u < t < |l.tickets| && l.tickets[t].source == l.tickets[u].source && l.tickets[t].granted ::
                  l.tickets[u].granted && l.tickets[u].released)
            && (forall t | 0 <= t < |l.tickets| && !l.tickets[t].granted ::
                  MayResume(l, t) <==> AllReleasedBefore(l, l.tickets[t].source, t))
            && (forall source :: source !in l.tail <==> !Busy(l, source))
  {
    RunKeepsInv(events);
    var l := Run(events);
    forall t | 0 <= t < |l.tickets| ensures ChainedTicket(l, t) && (MayResume(l, t) <==> AllReleasedBefore(l, l.tickets[t].source, t)) {
      MayResumeIffFirst(l, t);
    }
    forall source ensures source !in l.tail <==> !Busy(l, source) {
      assert TailIsLast(l, source);
    }
  }

  // ------------------------------------------------------------ as a plain queue

  /** The acquisitions of a source among the first `n` tickets that are not yet released, oldest first. */
  function Waiting(l: LockTable, source: string, n: nat): (r: seq<nat>)
    requires n <= |l.tickets|
  {
    if n == 0 then []
    else if l.tickets[n - 1].source == source && !l.tickets[n - 1].released then Waiting(l, source, n - 1) + [n - 1]
    else Waiting(l, source, n - 1)
  }

  function Queue(l: LockTable, source: string): (r: seq<nat>)
  {
    Waiting(l, source, |l.tickets|)
  }

  lemma {:induction false} NothingWaiting(l: LockTable, source: string, n: nat)
    requires n <= |l.tickets| && AllReleasedBefore(l, source, n)
    ensures Waiting(l, source, n) == []
  {
    if n > 0 {
      NothingWaiting(l, source, n - 1);
    }
  }

  lemma {:induction false} WaitingAfterRelease(l: LockTable, l': LockTable, source: string, t: nat, n: nat)
    requires t < |l.tickets| && n <= |l.tickets| == |l'.tickets|
    requires l'.tickets == l.tickets[t := l.tickets[t].(released := true)] && !l.tickets[t].released
    requires l.tickets[t].source == source ==> AllReleasedBefore(l, source, t)
    ensures Waiting(l, source, n) == (if l.tickets[t].source == source && t < n then [t] else []) + Waiting(l', source, n)
  {
    if n > 0 {
      WaitingAfterRelease(l, l', source, t, n - 1);
      if n - 1 == t && l.tickets[t].source == source {
        NothingWaiting(l, source, t);
        NothingWaiting(l', source, t);
      }
    }
  }

  lemma {:induction false} WaitingFrame(l: LockTable, l': LockTable, source: string, n: nat)
    requires n <= |l.tickets| && n <= |l'.tickets|
    requires forall t | 0 <= t < n :: l'.tickets[t].source == l.tickets[t].source && l'.tickets[t].released == l.tickets[t].released
    ensures Waiting(l', source, n) == Waiting(l, source, n)
  {
    if n > 0 {
      WaitingFrame(l, l', source, n - 1);
    }
  }

  /** The chain of promises is a queue: acquiring appends, being granted needs to be at the head and changes nothing,
      releasing drops the head, and every other source is left alone. */
  lemma ChainIsAQueue(events: seq<LockEvent>, event: LockEvent, source: string)
    ensures var l := Run(events);
            var l' := Run(events + [event]);
            match event
            case Enqueue(s) => Queue(l', source) == Queue(l, source) + (if s == source then [|l.tickets|] else [])
            case Grant(t) =>
              && Queue(l', source) == Queue(l, source)
              && (l' != l ==> Queue(l, l.tickets[t].source) != [] && Queue(l, l.tickets[t].source)[0] == t)
            case Release(t) =>
              Queue(l, source) == (if l' != l && l.tickets[t].source == source then [t] else []) + Queue(l', source)
  {
    var l := Run(events);
    assert (events + [event])[..|events|] == events;
    RunKeepsInv(events);
    match event
    case Enqueue(s) => EnqueueAppends(l, s, source);
    case Grant(t) => GrantTakesHead(l, t, source);
    case Release(t) => ReleaseDropsHead(l, t, source);
  }

  lemma EnqueueAppends(l: LockTable, s: string, source: string)
    ensures Queue(Step(l, Enqueue(s)), source) == Queue(l, source) + (if s == source then [|l.tickets|] else [])
  {
    WaitingFrame(l, Step(l, Enqueue(s)), source, |l.tickets|);
  }

  lemma GrantTakesHead(l: LockTable, t: nat, source: string)
    requires Inv(l)
    ensures Queue(Step(l, Grant(t)), source) == Queue(l, source)
    ensures Step(l, Grant(t)) != l ==>
              t < |l.tickets| && Queue(l, l.tickets[t].source) != [] && Queue(l, l.tickets[t].source)[0] == t
  {
    WaitingFrame(l, Step(l, Grant(t)), source, |l.tickets|);
    if Step(l, Grant(t)) != l {
      MayResumeIffFirst(l, t);
      assert ChainedTicket(l, t);
      HeadOfQueue(l, t, |l.tickets|);
    }
  }

  lemma ReleaseDropsHead(l: LockTable, t: nat, source: string)
    requires Inv(l)
    ensures Step(l, Release(t)) != l ==> t < |l.tickets|
    ensures Queue(l, source)
         == (if Step(l, Release(t)) != l && l.tickets[t].source == source then [t] else []) + Queue(Step(l, Release(t)), source)
  {
    var l' := Step(l, Release(t));
    if l' != l {
      assert ChainedTicket(l, t);
      WaitingAfterRelease(l, l', source, t, |l.tickets|);
    }
  }

  lemma {:induction false} HeadOfQueue(l: LockTable, t: nat, n: nat)
    requires t < n <= |l.tickets| && !l.tickets[t].released
    requires AllReleasedBefore(l, l.tickets[t].source, t)
    ensures Waiting(l, l.tickets[t].source, n) != [] && Waiting(l, l.tickets[t].source, n)[0] == t
  {
    var source := l.tickets[t].source;
    if n - 1 > t {
      HeadOfQueue(l, t, n - 1);
    } else {
      NothingWaiting(l, source, t);
    }
  }

  lemma {:induction false} WaitingMembers(l: LockTable, source: string, n: nat)
    requires n <= |l.tickets|
    ensures forall t: nat :: t in Waiting(l, source, n) <==> t < n && l.tickets[t].source == source && !l.tickets[t].released
    ensures forall i | 0 <= i < |Waiting(l, source, n)| :: Waiting(l, source, n)[i] < n
  {
    if n > 0 {
      WaitingMembers(l, source, n - 1);
      var before := Waiting(l, source, n - 1);
      assert (before + [n - 1])[|before|] == n - 1;
    }
  }

  lemma {:induction false} HeadIsFirst(l: LockTable, source: string, n: nat)
    requires n <= |l.tickets| && Waiting(l, source, n) != []
    ensures Waiting(l, source, n)[0] < n && AllReleasedBefore(l, source, Waiting(l, source, n)[0])
  {
    if Waiting(l, source, n - 1) != [] {
      HeadIsFirst(l, source, n - 1);
    } else {
      WaitingMembers(l, source, n - 1);
    }
  }

  /** The same table as the source keeps it: one mutable map and the promises it has created. */
  class SourceLockMap {
    var tail: map<string, nat>
    var tickets: seq<Ticket>

    ghost predicate Valid()
      reads this
    {
      WellFormed(RawTable(tail, tickets))
    }

    ghost function State(): LockTable
      reads this
      requires Valid()
    {
      RawTable(tail, tickets)
    }

    constructor ()
      ensures Valid() && State() == EMPTY
    {
      tail, tickets := map[], [];
    }

    /** Take the promise found in the map, leave one's own, and await the former. */
    method Acquire(source: string) returns (ticket: nat)
      requires Valid()
      modifies this
      ensures Valid() && State() == Step(old(State()), Enqueue(source)) && ticket == |old(tickets)|
    {
      var previous := if source in tail then Some(tail[source]) else None;
      ticket := |tickets|;
      tickets := tickets + [Ticket(source, previous, false, false)];
      tail := tail[source := ticket];
    }

    /** The awaited promise has settled and the acquisition goes on. */
    method Resume(ticket: nat) returns (granted: bool)
      requires Valid() && ticket < |tickets| && !tickets[ticket].granted
      modifies this
      ensures Valid() && State() == Step(old(State()), Grant(ticket))
      ensures granted <==> MayResume(old(State()), ticket)
    {
      granted := MayResume(RawTable(tail, tickets), ticket);
      if granted {
        tickets := tickets[ticket := tickets[ticket].(granted := true)];
      }
    }

    /** Settle one's own promise; if it is still the one in the map, remove it. */
    method ReleaseTicket(ticket: nat)
      requires Valid() && ticket < |tickets| && tickets[ticket].granted && !tickets[ticket].released
      modifies this
      ensures Valid() && State() == Step(old(State()), Release(ticket))
    {
      var source := tickets[ticket].source;
      tickets := tickets[ticket := tickets[ticket].(released := true)];
      if source in tail && tail[source] == ticket {
        tail := tail - {source};
      }
    }
  }
}
