/** First-in first-out queues for source locks, and why taking locks in sorted order cannot end in a cycle of waiting calls
    (src/sessions/BreakpointReconciler.ts). Every state of the queues is the view of a reachable state of the promise chains
    in `SourceLocks`. */
module LockQueues {
  import opened Basics
  import SourceLocks

  // ------------------------------------------------------------------- queues

  type Queues = map<string, seq<nat>>

  function Enqueued(q: Queues, source: string, c: nat): (r: Queues)
  {
    q[source := (if source in q then q[source] else []) + [c]]
  }

  /** Drop the head of a queue; an emptied queue leaves the map. */
  function Released(q: Queues, source: string): (r: Queues)
  {
    if source !in q then q
    else if |q[source]| <= 1 then q - {source}
    else q[source := q[source][1..]]
  }

  function ReleasedAll(q: Queues, sources: seq<string>): (r: Queues)
  {
    if sources == [] then q else ReleasedAll(Released(q, sources[0]), sources[1..])
  }

  /** What a call holds and what it waits for. */
  datatype View = View(held: set<string>, waits: Option<string>)

  type Views = map<nat, View>

  ghost predicate Distinct<T>(s: seq<T>)
  {
    forall i, j | 0 <= i < j < |s| :: s[i] != s[j]
  }

  // ------------------------------------------------- the queues as views of the chains

  function Owners(owner: seq<nat>, queue: seq<nat>): (r: seq<nat>)
    ensures |r| == |queue|
  {
    seq(|queue|, i requires 0 <= i < |queue| => if queue[i] < |owner| then owner[queue[i]] else 0)
  }

  /** The queue of a source lists the calls whose tickets the chain has not yet seen released, oldest first. */
  ghost predicate QueueShown(l: SourceLocks.LockTable, owner: seq<nat>, q: Queues, s: string)
  {
    var queue := SourceLocks.Queue(l, s);
    (s in q <==> queue != []) && (s in q ==> q[s] == Owners(owner, queue))
  }

  /** A ticket is granted exactly when its call holds the source. */
  ghost predicate TicketShown(l: SourceLocks.LockTable, owner: seq<nat>, v: Views, t: nat)
    requires t < |l.tickets| == |owner|
  {
    owner[t] in v && (l.tickets[t].granted <==> l.tickets[t].source in v[owner[t]].held)
  }

  /** The promise chains, with each ticket's call, seen as queues and views. */
  ghost predicate Shows(l: SourceLocks.LockTable, owner: seq<nat>, q: Queues, v: Views)
  {
    && SourceLocks.Inv(l) && |owner| == |l.tickets|
    && (forall s: string :: QueueShown(l, owner, q, s))
    && (forall t | 0 <= t < |l.tickets| && !l.tickets[t].released :: TicketShown(l, owner, v, t))
  }

  /** Some run of the promise chains looks like this. */
  ghost predicate Chained(q: Queues, v: Views)
  {
    exists locks: seq<SourceLocks.LockEvent>, owner: seq<nat> :: Shows(SourceLocks.Run(locks), owner, q, v)
  }

  lemma NothingIsChained()
    ensures Chained(map[], map[])
  {
    SourceLocks.RunKeepsInv([]);
    assert Shows(SourceLocks.Run([]), [], map[], map[]);
  }

  lemma OneMoreStep(locks: seq<SourceLocks.LockEvent>, event: SourceLocks.LockEvent)
    ensures SourceLocks.Run(locks + [event]) == SourceLocks.Step(SourceLocks.Run(locks), event)
  {
    assert (locks + [event])[..|locks|] == locks;
  }

  lemma OwnersOfMore(owner: seq<nat>, c: nat, queue: seq<nat>)
    requires forall i | 0 <= i < |queue| :: queue[i] < |owner|
    ensures Owners(owner + [c], queue) == Owners(owner, queue)
    ensures Owners(owner + [c], queue + [|owner|]) == Owners(owner, queue) + [c]
  {
  }

  /** Acquiring: the chain gets a ticket, the queue the call. */
  lemma EnqueueShown(l: SourceLocks.LockTable, owner: seq<nat>, q: Queues, v: Views, c: nat, source: string)
    requires Shows(l, owner, q, v) && (c in v ==> source !in v[c].held)
    ensures var held := if c in v then v[c].held else {};
            Shows(SourceLocks.Step(l, SourceLocks.Enqueue(source)), owner + [c], Enqueued(q, source, c), v[c := View(held, Some(source))])
  {
    var l' := SourceLocks.Step(l, SourceLocks.Enqueue(source));
    var v' := v[c := View(if c in v then v[c].held else {}, Some(source))];
    SourceLocks.EnqueueKeepsInv(l, source);
    forall s: string ensures QueueShown(l', owner + [c], Enqueued(q, source, c), s) {
      assert QueueShown(l, owner, q, s);
      SourceLocks.EnqueueAppends(l, source, s);
      SourceLocks.WaitingMembers(l, s, |l.tickets|);
      OwnersOfMore(owner, c, SourceLocks.Queue(l, s));
    }
    forall t | 0 <= t < |l'.tickets| && !l'.tickets[t].released ensures TicketShown(l', owner + [c], v', t) {
      if t < |l.tickets| {
        assert TicketShown(l, owner, v, t);
      }
    }
  }

  /** The head of a queue, as a ticket: its call is the only one with a ticket of that source. */
  lemma HeadTicket(l: SourceLocks.LockTable, owner: seq<nat>, q: Queues, v: Views, source: string) returns (t: nat)
    requires Shows(l, owner, q, v) && source in q && Distinct(q[source])
    ensures t < |l.tickets| && l.tickets[t].source == source && !l.tickets[t].released
    ensures q[source] != [] && owner[t] == q[source][0] && TicketShown(l, owner, v, t) && SourceLocks.MayResume(l, t)
    ensures SourceLocks.Queue(l, source) != [] && SourceLocks.Queue(l, source)[0] == t
    ensures forall u | 0 <= u < |l.tickets| && l.tickets[u].source == source && !l.tickets[u].released && owner[u] == owner[t] :: u == t
  {
    assert QueueShown(l, owner, q, source);
    var queue := SourceLocks.Queue(l, source);
    SourceLocks.WaitingMembers(l, source, |l.tickets|);
    t := queue[0];
    SourceLocks.HeadIsFirst(l, source, |l.tickets|);
    SourceLocks.MayResumeIffFirst(l, t);
    forall u | 0 <= u < |l.tickets| && l.tickets[u].source == source && !l.tickets[u].released && owner[u] == owner[t] ensures u == t {
      var i :| 0 <= i < |queue| && queue[i] == u;
      assert q[source][i] == owner[u] && q[source][0] == owner[t];
    }
  }

  /** Being granted: the head's ticket is let through, and its call holds the source. */
  lemma GrantShown(l: SourceLocks.LockTable, owner: seq<nat>, q: Queues, v: Views, source: string) returns (t: nat)
    requires Shows(l, owner, q, v) && source in q && Distinct(q[source]) && q[source] != []
    requires q[source][0] in v && source !in v[q[source][0]].held
    ensures t < |l.tickets| && SourceLocks.MayResume(l, t)
    ensures var c := q[source][0];
            Shows(SourceLocks.Step(l, SourceLocks.Grant(t)), owner, q, v[c := View(v[c].held + {source}, None)])
  {
    t := HeadTicket(l, owner, q, v, source);
    var c := q[source][0];
    var l' := SourceLocks.Step(l, SourceLocks.Grant(t));
    SourceLocks.GrantKeepsInv(l, t);
    forall s: string ensures QueueShown(l', owner, q, s) {
      assert QueueShown(l, owner, q, s);
      SourceLocks.GrantTakesHead(l, t, s);
    }
    forall u | 0 <= u < |l'.tickets| && !l'.tickets[u].released ensures TicketShown(l', owner, v[c := View(v[c].held + {source}, None)], u) {
      assert TicketShown(l, owner, v, u);
    }
  }

  /** Releasing: the head's ticket is settled, the queue drops its head. */
  lemma ReleaseShown(l: SourceLocks.LockTable, owner: seq<nat>, q: Queues, v: Views, source: string) returns (t: nat)
    requires Shows(l, owner, q, v) && source in q && Distinct(q[source]) && q[source] != []
    requires q[source][0] in v && source in v[q[source][0]].held
    ensures t < |l.tickets|
    ensures var c := q[source][0];
            Shows(SourceLocks.Step(l, SourceLocks.Release(t)), owner, Released(q, source), v[c := View(v[c].held - {source}, None)])
  {
    t := HeadTicket(l, owner, q, v, source);
    var c := q[source][0];
    var l' := SourceLocks.Step(l, SourceLocks.Release(t));
    SourceLocks.ReleaseKeepsInv(l, t);
    forall s: string ensures QueueShown(l', owner, Released(q, source), s) {
      assert QueueShown(l, owner, q, s);
      SourceLocks.ReleaseDropsHead(l, t, s);
      if s == source {
        OwnersOfRest(owner, t, SourceLocks.Queue(l', s));
      }
    }
    forall u | 0 <= u < |l'.tickets| && !l'.tickets[u].released ensures TicketShown(l', owner, v[c := View(v[c].held - {source}, None)], u) {
      assert TicketShown(l, owner, v, u);
    }
  }

  lemma OwnersOfRest(owner: seq<nat>, t: nat, rest: seq<nat>)
    ensures Owners(owner, [t] + rest)[1..] == Owners(owner, rest)
  {
  }

  /** A ticket that waits can resume exactly when its call is at the head of the queue. */
  lemma MayResumeIffHead(l: SourceLocks.LockTable, owner: seq<nat>, q: Queues, v: Views, t: nat)
    requires Shows(l, owner, q, v) && t < |l.tickets| && !l.tickets[t].granted
    requires forall s | s in q :: Distinct(q[s])
    ensures var s := l.tickets[t].source;
            s in q && q[s] != [] && (SourceLocks.MayResume(l, t) <==> q[s][0] == owner[t])
  {
    var s := l.tickets[t].source;
    assert SourceLocks.ChainedTicket(l, t);
    assert QueueShown(l, owner, q, s);
    SourceLocks.WaitingMembers(l, s, |l.tickets|);
    SourceLocks.MayResumeIffFirst(l, t);
    var head := HeadTicket(l, owner, q, v, s);
    SourceLocks.MayResumeIffFirst(l, head);
  }

  // ------------------------------------------------------------------- the discipline

  /** The lock discipline: holders are heads, everybody queued holds or waits, and a call waits only for a source above
      all the sources it holds. */
  ghost predicate QueueInv(q: Queues, v: Views)
  {
    && (forall s | s in q :: q[s] != [] && Distinct(q[s]))
    && (forall s, i | s in q && 0 <= i < |q[s]| :: q[s][i] in v && (s in v[q[s][i]].held || v[q[s][i]].waits == Some(s)))
    && (forall c, s | c in v && s in v[c].held :: s in q && q[s] != [] && q[s][0] == c)
    && (forall c | c in v && v[c].waits.Some? :: v[c].waits.value in q && c in q[v[c].waits.value])
    && (forall c, s | c in v && v[c].waits.Some? && s in v[c].held :: Less(s, v[c].waits.value))
  }

  ghost predicate LockInv(q: Queues, v: Views)
  {
    QueueInv(q, v) && Chained(q, v)
  }

  /** Everybody in a queue holds its source or waits for it. */
  ghost predicate Accounted(q: Queues, v: Views)
  {
    forall s, i | s in q && 0 <= i < |q[s]| :: q[s][i] in v && (s in v[q[s][i]].held || v[q[s][i]].waits == Some(s))
  }

  ghost predicate WaitersQueued(q: Queues, v: Views)
  {
    forall c | c in v && v[c].waits.Some? :: v[c].waits.value in q && c in q[v[c].waits.value]
  }

  lemma EnqueueAccounts(q: Queues, v: Views, c: nat, source: string)
    requires QueueInv(q, v) && (c in v ==> v[c].waits.None?)
    ensures Accounted(Enqueued(q, source, c), v[c := View(if c in v then v[c].held else {}, Some(source))])
  {
    var v' := v[c := View(if c in v then v[c].held else {}, Some(source))];
    var q' := Enqueued(q, source, c);
    forall s, i | s in q' && 0 <= i < |q'[s]|
      ensures q'[s][i] in v' && (s in v'[q'[s][i]].held || v'[q'[s][i]].waits == Some(s))
    {
      if s != source || (s in q && i < |q[s]|) {
        assert q'[s][i] == q[s][i];
      }
    }
  }

  lemma EnqueueKeepsWaiters(q: Queues, v: Views, c: nat, source: string)
    requires WaitersQueued(q, v)
    ensures WaitersQueued(Enqueued(q, source, c), v[c := View(if c in v then v[c].held else {}, Some(source))])
  {
    var v' := v[c := View(if c in v then v[c].held else {}, Some(source))];
    var q' := Enqueued(q, source, c);
    assert q'[source][|q'[source]| - 1] == c;
    forall d | d in v' && v'[d].waits.Some? ensures v'[d].waits.value in q' && d in q'[v'[d].waits.value] {
      if d != c {
        var w := v[d].waits.value;
        var i :| 0 <= i < |q[w]| && q[w][i] == d;
        assert q'[w][i] == d;
      }
    }
  }

  lemma NewInQueue(q: Queues, v: Views, c: nat, source: string)
    requires QueueInv(q, v) && source in q && (c in v ==> v[c].waits.None? && source !in v[c].held)
    ensures c !in q[source]
  {
  }

  lemma EnqueueKeepsQueueInv(q: Queues, v: Views, c: nat, source: string)
    requires QueueInv(q, v)
    requires c !in v || (v[c].waits.None? && source !in v[c].held && forall s | s in v[c].held :: Less(s, source))
    ensures QueueInv(Enqueued(q, source, c), v[c := View(if c in v then v[c].held else {}, Some(source))])
  {
    var v' := v[c := View(if c in v then v[c].held else {}, Some(source))];
    var q' := Enqueued(q, source, c);
    if source in q {
      NewInQueue(q, v, c, source);
    }
    EnqueueAccounts(q, v, c, source);
    EnqueueKeepsWaiters(q, v, c, source);
    assert Accounted(q', v') && WaitersQueued(q', v');
    forall d, s | d in v' && s in v'[d].held ensures s in q' && q'[s] != [] && q'[s][0] == d {
      assert d in v && s in v[d].held;
    }
  }

  lemma EnqueueKeepsLockInv(q: Queues, v: Views, c: nat, source: string)
    requires LockInv(q, v)
    requires c !in v || (v[c].waits.None? && forall s | s in v[c].held :: Less(s, source))
    ensures LockInv(Enqueued(q, source, c), v[c := View(if c in v then v[c].held else {}, Some(source))])
  {
    if c in v && source in v[c].held {
      LessIsStrict(source, source);
    }
    EnqueueKeepsQueueInv(q, v, c, source);
    EnqueueKeepsChain(q, v, c, source);
  }

  lemma EnqueueKeepsChain(q: Queues, v: Views, c: nat, source: string)
    requires Chained(q, v) && (c in v ==> source !in v[c].held)
    ensures Chained(Enqueued(q, source, c), v[c := View(if c in v then v[c].held else {}, Some(source))])
  {
    var locks, owner :| Shows(SourceLocks.Run(locks), owner, q, v);
    EnqueueShown(SourceLocks.Run(locks), owner, q, v, c, source);
    OneMoreStep(locks, SourceLocks.Enqueue(source));
  }

  lemma GrantKeepsQueueInv(q: Queues, v: Views, c: nat)
    requires QueueInv(q, v) && c in v && v[c].waits.Some?
    requires q[v[c].waits.value][0] == c
    ensures QueueInv(q, v[c := View(v[c].held + {v[c].waits.value}, None)])
  {
    var v' := v[c := View(v[c].held + {v[c].waits.value}, None)];
    forall s, i | s in q && 0 <= i < |q[s]|
      ensures q[s][i] in v' && (s in v'[q[s][i]].held || v'[q[s][i]].waits == Some(s))
    {
      assert s in v[q[s][i]].held || v[q[s][i]].waits == Some(s);
    }
  }

  /** The head of the queue a call waits in is the call itself: it now holds the source. */
  lemma GrantKeepsLockInv(q: Queues, v: Views, c: nat)
    requires LockInv(q, v) && c in v && v[c].waits.Some?
    requires q[v[c].waits.value][0] == c
    ensures LockInv(q, v[c := View(v[c].held + {v[c].waits.value}, None)])
  {
    var source := v[c].waits.value;
    if source in v[c].held {
      LessIsStrict(source, source);
    }
    GrantKeepsQueueInv(q, v, c);
    var locks, owner :| Shows(SourceLocks.Run(locks), owner, q, v);
    var t := GrantShown(SourceLocks.Run(locks), owner, q, v, source);
    OneMoreStep(locks, SourceLocks.Grant(t));
  }

  lemma ReleaseOneKeepsQueueInv(q: Queues, v: Views, c: nat, source: string)
    requires QueueInv(q, v) && c in v && v[c].waits.None? && source in v[c].held
    ensures QueueInv(Released(q, source), v[c := View(v[c].held - {source}, None)])
  {
    var q' := Released(q, source);
    var v' := v[c := View(v[c].held - {source}, None)];
    forall s, i | s in q' && 0 <= i < |q'[s]|
      ensures q'[s][i] in v' && (s in v'[q'[s][i]].held || v'[q'[s][i]].waits == Some(s))
    {
      if s == source {
        assert q'[s][i] == q[s][i + 1];
        assert q[s][0] != q[s][i + 1];
        assert s in v[q[s][i + 1]].held || v[q[s][i + 1]].waits == Some(s);
      } else {
        assert q'[s][i] == q[s][i];
        assert s in v[q[s][i]].held || v[q[s][i]].waits == Some(s);
      }
    }
    ReleaseKeepsWaiters(q, v, c, source);
    assert WaitersQueued(q', v');
  }

  lemma ReleaseKeepsWaiters(q: Queues, v: Views, c: nat, source: string)
    requires WaitersQueued(q, v) && c in v && v[c].waits.None? && source in q && q[source] != [] && q[source][0] == c
    ensures WaitersQueued(Released(q, source), v[c := View(v[c].held - {source}, None)])
  {
    var q' := Released(q, source);
    var v' := v[c := View(v[c].held - {source}, None)];
    forall d | d in v' && v'[d].waits.Some? ensures v'[d].waits.value in q' && d in q'[v'[d].waits.value] {
      var w := v[d].waits.value;
      var i :| 0 <= i < |q[w]| && q[w][i] == d;
      if w == source {
        assert q'[w][i - 1] == d;
      }
    }
  }

  lemma ReleaseOneKeepsLockInv(q: Queues, v: Views, c: nat, source: string)
    requires LockInv(q, v) && c in v && v[c].waits.None? && source in v[c].held
    ensures LockInv(Released(q, source), v[c := View(v[c].held - {source}, None)])
  {
    ReleaseOneKeepsQueueInv(q, v, c, source);
    var locks, owner :| Shows(SourceLocks.Run(locks), owner, q, v);
    var t := ReleaseShown(SourceLocks.Run(locks), owner, q, v, source);
    OneMoreStep(locks, SourceLocks.Release(t));
  }

  lemma IdleKeepsQueueInv(q: Queues, v: Views, c: nat)
    requires QueueInv(q, v) && c !in v
    ensures QueueInv(q, v[c := View({}, None)])
  {
    var v' := v[c := View({}, None)];
    forall s, i | s in q && 0 <= i < |q[s]|
      ensures q[s][i] in v' && (s in v'[q[s][i]].held || v'[q[s][i]].waits == Some(s))
    {
      assert s in v[q[s][i]].held || v[q[s][i]].waits == Some(s);
    }
  }

  lemma IdleShown(l: SourceLocks.LockTable, owner: seq<nat>, q: Queues, v: Views, c: nat)
    requires Shows(l, owner, q, v) && c !in v
    ensures Shows(l, owner, q, v[c := View({}, None)])
  {
    forall t | 0 <= t < |l.tickets| && !l.tickets[t].released ensures TicketShown(l, owner, v[c := View({}, None)], t) {
      assert TicketShown(l, owner, v, t);
    }
  }

  /** A call that neither holds nor waits. */
  lemma IdleKeepsLockInv(q: Queues, v: Views, c: nat)
    requires LockInv(q, v) && c !in v
    ensures LockInv(q, v[c := View({}, None)])
  {
    IdleKeepsQueueInv(q, v, c);
    var locks, owner :| Shows(SourceLocks.Run(locks), owner, q, v);
    IdleShown(SourceLocks.Run(locks), owner, q, v, c);
  }

  lemma WithoutFirst(held: set<string>, sources: seq<string>)
    requires sources != [] && Distinct(sources) && forall s :: s in held <==> s in sources
    ensures Distinct(sources[1..]) && sources[0] in held
    ensures forall s :: s in held - {sources[0]} <==> s in sources[1..]
  {
    assert sources == [sources[0]] + sources[1..];
    forall s ensures s in held - {sources[0]} <==> s in sources[1..] {
      if s in sources[1..] {
        var i :| 0 <= i < |sources[1..]| && sources[1..][i] == s;
        assert sources[i + 1] == s;
      }
    }
  }

  lemma TwoUpdates(v: Views, c: nat, first: View, second: View)
    ensures v[c := first][c := second] == v[c := second]
  {
  }

  lemma {:induction false} ReleaseAllKeepsLockInv(q: Queues, v: Views, c: nat, sources: seq<string>)
    requires LockInv(q, v) && c in v && v[c].waits.None? && Distinct(sources)
    requires forall s :: s in v[c].held <==> s in sources
    ensures LockInv(ReleasedAll(q, sources), v[c := View({}, None)])
  {
    if sources == [] {
      assert v[c].held == {};
      assert v[c := View({}, None)] == v;
    } else {
      var next := View(v[c].held - {sources[0]}, None);
      WithoutFirst(v[c].held, sources);
      ReleaseOneKeepsLockInv(q, v, c, sources[0]);
      ReleaseAllKeepsLockInv(Released(q, sources[0]), v[c := next], c, sources[1..]);
      TwoUpdates(v, c, next, View({}, None));
    }
  }

  // ----------------------------------------------------- mutual exclusion, no deadlock

  /** `c` waits for a source that `d` holds. */
  ghost predicate BlockedBy(v: Views, c: nat, d: nat)
  {
    c in v && d in v && v[c].waits.Some? && v[c].waits.value in v[d].held
  }

  lemma OneHolder(q: Queues, v: Views, c: nat, d: nat, source: string)
    requires LockInv(q, v) && c in v && d in v && source in v[c].held && source in v[d].held
    ensures c == d
  {
    assert q[source][0] == c && q[source][0] == d;
  }

  ghost function WaitOf(v: Views, c: nat): (r: string)
  {
    if c in v && v[c].waits.Some? then v[c].waits.value else ""
  }

  lemma {:induction false} WaitsIncrease(q: Queues, v: Views, path: seq<nat>)
    requires LockInv(q, v) && |path| >= 2
    requires forall i | 0 <= i < |path| - 1 :: BlockedBy(v, path[i], path[i + 1])
    requires path[|path| - 1] in v && v[path[|path| - 1]].waits.Some?
    ensures Less(WaitOf(v, path[0]), WaitOf(v, path[|path| - 1]))
  {
    assert BlockedBy(v, path[0], path[1]);
    if |path| > 2 {
      WaitsIncrease(q, v, path[1..]) by {
        forall i | 0 <= i < |path[1..]| - 1 ensures BlockedBy(v, path[1..][i], path[1..][i + 1]) {
          assert BlockedBy(v, path[i + 1], path[i + 2]);
        }
      }
      assert BlockedBy(v, path[1], path[2]);
      LessIsTransitive(WaitOf(v, path[0]), WaitOf(v, path[1]), WaitOf(v, path[|path| - 1]));
    }
  }

  /** The wait-for graph has no cycle. */
  lemma NoWaitCycle(q: Queues, v: Views, path: seq<nat>)
    requires LockInv(q, v) && |path| >= 2
    requires forall i | 0 <= i < |path| - 1 :: BlockedBy(v, path[i], path[i + 1])
    ensures path[0] != path[|path| - 1]
  {
    assert BlockedBy(v, path[0], path[1]);
    if path[0] == path[|path| - 1] {
      WaitsIncrease(q, v, path);
      LessIsStrict(WaitOf(v, path[0]), WaitOf(v, path[0]));
    }
  }

  ghost function WaitersAbove(v: Views, source: string): (r: set<nat>)
  {
    set d | d in v && v[d].waits.Some? && Less(source, v[d].waits.value)
  }

  /** Somewhere down the chain from any blocked call there is a call that holds a source and waits for nobody. */
  lemma {:induction false} SomeHolderIsNotBlocked(q: Queues, v: Views, c: nat) returns (d: nat)
    requires LockInv(q, v) && c in v && exists b :: BlockedBy(v, c, b)
    ensures d in v && v[d].held != {} && !exists b :: BlockedBy(v, d, b)
    decreases |WaitersAbove(v, v[c].waits.value)|
  {
    d :| BlockedBy(v, c, d);
    if exists b :: BlockedBy(v, d, b) {
      var lower, upper := v[c].waits.value, v[d].waits.value;
      forall x | x in WaitersAbove(v, upper) ensures x in WaitersAbove(v, lower) {
        LessIsTransitive(lower, upper, v[x].waits.value);
      }
      assert d !in WaitersAbove(v, upper) by {
        if Less(upper, upper) { LessIsStrict(upper, upper); }
      }
      assert d in WaitersAbove(v, lower);
      SubsetIsSmaller(WaitersAbove(v, upper), WaitersAbove(v, lower), d);
      d := SomeHolderIsNotBlocked(q, v, d);
    }
  }

  lemma SubsetIsSmaller<T>(a: set<T>, b: set<T>, x: T)
    requires a <= b && x in b && x !in a
    ensures |a| < |b|
  {
    var rest := b - a - {x};
    assert b == a + {x} + rest;
  }
}
