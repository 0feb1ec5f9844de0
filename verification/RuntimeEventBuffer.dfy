/** The bounded, cursor-addressed buffer of runtime events (src/runtime/RuntimeEventBuffer.ts). */
module RuntimeEventBuffer {
  import opened Basics

  const DEFAULT_CAPACITY: int := 256
  const DEFAULT_LIMIT: int := 50
  const MAX_LIMIT: int := 256

  const KINDS: set<string> :=
    {"breakpoint", "breakpointError", "tracepoint", "output", "stopped", "continued", "thread", "process", "invalidated", "terminated"}

  /** What a caller wrote in an event, besides its kind. */
  datatype Input = Input(kind: string, body: string)

  datatype RuntimeEvent = RuntimeEvent(sequence: nat, kind: string, body: string)

  /** A number argument: finite, or not. */
  datatype Number = Finite(x: real) | NotFinite

  datatype BufferState = BufferState(capacity: int, events: seq<RuntimeEvent>, nextSequence: nat, defaultCursor: int)

  datatype Page = Page(
    items: seq<RuntimeEvent>,
    cursor: int,
    nextCursor: int,
    oldestCursor: int,
    hasMore: bool,
    overflowed: bool,
    droppedCount: int)

  // -------------------------------------------------------------- limits and capacity

  /** Toward zero. */
  function Trunc(x: real): (r: int)
  {
    if x >= 0.0 then x.Floor else -((-x).Floor)
  }

  function Clamp(n: int, high: int): (r: int)
    requires high >= 1
    ensures 1 <= r <= high
    ensures 1 <= n <= high ==> r == n
  {
    var atLeastOne := if n < 1 then 1 else n;
    if atLeastOne > high then high else atLeastOne
  }

  function NormalizeLimit(limit: Option<Number>): (r: int)
    ensures 1 <= r <= MAX_LIMIT
    ensures limit.None? ==> r == 50
    ensures limit.Some? && limit.value.NotFinite? ==> r == 1
    ensures limit.Some? && limit.value.Finite? && 1 <= Trunc(limit.value.x) <= MAX_LIMIT ==> r == Trunc(limit.value.x)
    ensures limit.Some? && limit.value.Finite? && Trunc(limit.value.x) < 1 ==> r == 1
    ensures limit.Some? && limit.value.Finite? && Trunc(limit.value.x) > MAX_LIMIT ==> r == MAX_LIMIT
  {
    if limit.None? then DEFAULT_LIMIT
    else if limit.value.NotFinite? then 1
    else Clamp(Trunc(limit.value.x), MAX_LIMIT)
  }

  function NormalizeCapacity(capacity: Number): (r: int)
    ensures 1 <= r <= DEFAULT_CAPACITY
    ensures capacity.NotFinite? ==> r == 256
    ensures capacity.Finite? && 1 <= Trunc(capacity.x) <= DEFAULT_CAPACITY ==> r == Trunc(capacity.x)
    ensures capacity.Finite? && Trunc(capacity.x) < 1 ==> r == 1
    ensures capacity.Finite? && Trunc(capacity.x) > DEFAULT_CAPACITY ==> r == DEFAULT_CAPACITY
  {
    if capacity.NotFinite? then DEFAULT_CAPACITY else Clamp(Trunc(capacity.x), DEFAULT_CAPACITY)
  }

  // ----------------------------------------------------------------------- operations

  function Fresh(capacity: Number): (r: BufferState)
  {
    BufferState(NormalizeCapacity(capacity), [], 1, 0)
  }

  function Appended(s: BufferState, input: Input): (r: BufferState)
  {
    if input.kind !in KINDS then s
    else
      var events := s.events + [RuntimeEvent(s.nextSequence, input.kind, input.body)];
      s.(events := if |events| > s.capacity then events[1..] else events, nextSequence := s.nextSequence + 1)
  }

  function Oldest(s: BufferState): (r: int)
  {
    if s.events == [] then s.nextSequence else s.events[0].sequence
  }

  function Beyond(events: seq<RuntimeEvent>, cursor: int): (r: seq<RuntimeEvent>)
  {
    if events == [] then []
    else if events[0].sequence > cursor then [events[0]] + Beyond(events[1..], cursor)
    else Beyond(events[1..], cursor)
  }

  function Take(events: seq<RuntimeEvent>, limit: int): (r: seq<RuntimeEvent>)
    requires limit >= 0
  {
    if |events| > limit then events[..limit] else events
  }

  function Effective(s: BufferState, cursor: int): (r: int)
  {
    if cursor < Oldest(s) - 1 then Oldest(s) - 1 else cursor
  }

  function PageOf(s: BufferState, requested: int, limit: int): (r: Page)
    requires limit >= 0
  {
    var items := Take(Beyond(s.events, Effective(s, requested)), limit);
    var next := if items == [] then Effective(s, requested) else items[|items| - 1].sequence;
    Page(items, requested, next, Oldest(s), Beyond(s.events, next) != [], requested < Oldest(s) - 1,
         if Oldest(s) - 1 - requested > 0 then Oldest(s) - 1 - requested else 0)
  }

  function ReadPage(s: BufferState, cursor: Option<int>, limit: Option<Number>): (r: Page)
  {
    PageOf(s, if cursor.Some? then cursor.value else s.defaultCursor, NormalizeLimit(limit))
  }

  function AfterRead(s: BufferState, cursor: Option<int>, limit: Option<Number>): (r: BufferState)
  {
    if cursor.None? then s.(defaultCursor := ReadPage(s, cursor, limit).nextCursor) else s
  }

  // ------------------------------------------------------------------------ invariant

  /** The newest sequence number given out. */
  function Latest(s: BufferState): (r: int)
  {
    s.nextSequence - 1
  }

  /** The buffer holds the last events, in an unbroken run that ends at the latest. */
  ghost predicate Valid(s: BufferState)
  {
    && 1 <= s.capacity <= DEFAULT_CAPACITY
    && s.nextSequence >= 1
    && |s.events| == (if Latest(s) < s.capacity then Latest(s) else s.capacity)
    && (forall i | 0 <= i < |s.events| :: s.events[i].sequence == Latest(s) - |s.events| + 1 + i)
  }

  lemma AppendKeepsValid(s: BufferState, input: Input)
    requires Valid(s)
    ensures Valid(Appended(s, input))
  {
  }

  /** In a run of consecutive numbers, what lies beyond a cursor is a tail. */
  lemma {:induction false} BeyondIsTail(events: seq<RuntimeEvent>, first: int, cursor: int)
    requires forall i | 0 <= i < |events| :: events[i].sequence == first + i
    ensures Beyond(events, cursor)
         == if cursor < first then events else if cursor - first + 1 <= |events| then events[cursor - first + 1..] else []
  {
    if events != [] {
      forall i | 0 <= i < |events[1..]| ensures events[1..][i].sequence == first + 1 + i {
        assert events[1..][i] == events[i + 1];
      }
      BeyondIsTail(events[1..], first + 1, cursor);
    }
  }

  /** The retained event with a given sequence number. */
  function At(s: BufferState, sequence: int): (r: RuntimeEvent)
    requires Valid(s) && Oldest(s) <= sequence <= Latest(s)
    ensures r in s.events && r.sequence == sequence
  {
    s.events[sequence - Oldest(s)]
  }

  lemma OldestOfValid(s: BufferState)
    requires Valid(s)
    ensures Oldest(s) == Latest(s) - |s.events| + 1
  {
  }

  /** The index of the first retained event behind a cursor. */
  function FirstBehind(s: BufferState, cursor: int): (r: nat)
  {
    if cursor < Oldest(s) then 0 else cursor - Oldest(s) + 1
  }

  lemma PageItemsAreSlice(s: BufferState, cursor: int, limit: int, from: nat)
    requires limit >= 0 && from <= |s.events| && Beyond(s.events, Effective(s, cursor)) == s.events[from..]
    ensures var items := PageOf(s, cursor, limit).items;
            from + |items| <= |s.events| && items == s.events[from..from + |items|]
  {
    TakeIsSlice(s.events, from, limit);
  }

  /** A page, as a slice of the buffer. */
  lemma PageIsSlice(s: BufferState, cursor: int, limit: int)
    requires Valid(s) && limit >= 1 && cursor <= Latest(s)
    ensures FirstBehind(s, cursor) + |PageOf(s, cursor, limit).items| <= |s.events|
    ensures var n := |PageOf(s, cursor, limit).items|;
            PageOf(s, cursor, limit).items == s.events[FirstBehind(s, cursor)..FirstBehind(s, cursor) + n]
  {
    BehindCursor(s, cursor);
    PageItemsAreSlice(s, cursor, limit, FirstBehind(s, cursor));
  }

  /** What lies behind a page. */
  lemma RestBehindPage(s: BufferState, cursor: int, limit: int)
    requires Valid(s) && limit >= 1 && cursor <= Latest(s)
    ensures FirstBehind(s, cursor) + |PageOf(s, cursor, limit).items| <= |s.events|
    ensures Beyond(s.events, PageOf(s, cursor, limit).nextCursor)
         == s.events[FirstBehind(s, cursor) + |PageOf(s, cursor, limit).items|..]
  {
    PageIsSlice(s, cursor, limit);
    PageCounts(s, cursor, limit);
    TailFrom(s, FirstBehind(s, cursor) + |PageOf(s, cursor, limit).items|);
  }

  lemma TailFrom(s: BufferState, k: nat)
    requires Valid(s) && k <= |s.events|
    ensures Beyond(s.events, Oldest(s) + k - 1) == s.events[k..]
  {
    OldestOfValid(s);
    BeyondIsTail(s.events, Oldest(s), Oldest(s) + k - 1);
  }

  lemma BehindCursor(s: BufferState, cursor: int)
    requires Valid(s) && cursor <= Latest(s)
    ensures var from := FirstBehind(s, cursor);
            && from <= |s.events| && Effective(s, cursor) == Oldest(s) + from - 1
            && Beyond(s.events, cursor) == s.events[from..] == Beyond(s.events, Effective(s, cursor))
  {
    OldestOfValid(s);
    BeyondIsTail(s.events, Oldest(s), cursor);
    BeyondIsTail(s.events, Oldest(s), Effective(s, cursor));
  }

  lemma TakeIsSlice(events: seq<RuntimeEvent>, from: nat, limit: int)
    requires from <= |events| && limit >= 0
    ensures var items := Take(events[from..], limit);
            from + |items| <= |events| && items == events[from..from + |items|]
  {
  }

  lemma NextCursorOf(s: BufferState, cursor: int, limit: int, from: nat)
    requires Valid(s) && limit >= 1 && from <= |s.events| && Effective(s, cursor) == Oldest(s) + from - 1
    requires Beyond(s.events, Effective(s, cursor)) == s.events[from..]
    ensures PageOf(s, cursor, limit).nextCursor == Oldest(s) + from + |PageOf(s, cursor, limit).items| - 1
  {
    OldestOfValid(s);
    TakeIsSlice(s.events, from, limit);
  }

  lemma PageCounts(s: BufferState, requested: int, limit: int)
    requires Valid(s) && limit >= 1 && requested <= Latest(s)
    ensures var p := PageOf(s, requested, limit);
            && p.nextCursor == Oldest(s) + FirstBehind(s, requested) + |p.items| - 1
            && requested + p.droppedCount == Oldest(s) + FirstBehind(s, requested) - 1
            && p.droppedCount >= 0 && (p.droppedCount > 0 ==> FirstBehind(s, requested) == 0)
            && (p.overflowed <==> p.droppedCount > 0)
  {
    OldestOfValid(s);
    BehindCursor(s, requested);
    NextCursorOf(s, requested, limit, FirstBehind(s, requested));
  }

  lemma SliceIsRun(s: BufferState, items: seq<RuntimeEvent>, from: nat, first: int)
    requires Valid(s) && from + |items| <= |s.events| && items == s.events[from..from + |items|] && first == Oldest(s) + from
    ensures Oldest(s) <= first && first + |items| - 1 <= Latest(s)
    ensures forall i | 0 <= i < |items| :: items[i] == At(s, first + i)
  {
  }

  lemma PageItems(s: BufferState, requested: int, limit: int)
    requires Valid(s) && limit >= 1 && requested <= Latest(s)
    ensures var p := PageOf(s, requested, limit);
            && Oldest(s) <= requested + p.droppedCount + 1 && requested + p.droppedCount + |p.items| <= Latest(s)
            && forall i | 0 <= i < |p.items| :: p.items[i] == At(s, requested + p.droppedCount + 1 + i)
  {
    PageCounts(s, requested, limit);
    PageIsSlice(s, requested, limit);
    var p := PageOf(s, requested, limit);
    SliceIsRun(s, p.items, FirstBehind(s, requested), requested + p.droppedCount + 1);
  }

  lemma PageHasMore(s: BufferState, requested: int, limit: int)
    requires Valid(s) && limit >= 1 && requested <= Latest(s)
    ensures var p := PageOf(s, requested, limit);
            (p.hasMore <==> p.nextCursor < Latest(s)) && (p.hasMore ==> |p.items| == limit)
  {
    OldestOfValid(s);
    BehindCursor(s, requested);
    PageCounts(s, requested, limit);
    RestBehindPage(s, requested, limit);
  }

  /** A page is the next unbroken run of retained events behind its cursor: nothing is skipped but what was dropped, and
      `hasMore` tells whether the run stopped short of the latest. */
  lemma PageIsNextRun(s: BufferState, requested: int, limit: int)
    requires Valid(s) && limit >= 1 && requested <= Latest(s)
    ensures var p := PageOf(s, requested, limit);
            && requested + p.droppedCount + |p.items| == p.nextCursor <= Latest(s)
            && p.droppedCount >= 0 && requested + p.droppedCount + 1 >= Oldest(s)
            && (p.droppedCount > 0 ==> requested + p.droppedCount + 1 == Oldest(s))
            && (forall i | 0 <= i < |p.items| :: p.items[i] == At(s, requested + p.droppedCount + 1 + i))
            && (p.hasMore <==> p.nextCursor < Latest(s))
            && (p.hasMore ==> |p.items| == limit)
            && (p.overflowed <==> p.droppedCount > 0)
            && p.cursor == requested && p.oldestCursor == Latest(s) - |s.events| + 1
  {
    OldestOfValid(s);
    PageCounts(s, requested, limit);
    PageItems(s, requested, limit);
    PageHasMore(s, requested, limit);
  }

  /** A cursor beyond the latest event gets an empty page and stays where it is. */
  lemma PageBeyondLatest(s: BufferState, requested: int, limit: int)
    requires Valid(s) && limit >= 1 && requested > Latest(s)
    ensures var p := PageOf(s, requested, limit);
            p.items == [] && p.nextCursor == requested && !p.hasMore && !p.overflowed && p.droppedCount == 0
  {
    OldestOfValid(s);
    BeyondIsTail(s.events, Oldest(s), requested);
  }

  // ------------------------------------------------------------------- conservation

  /** A reader that always asks with the cursor it was last given: what it got, and how many events it was told it
      missed. */
  datatype Reader = Reader(cursor: int, delivered: seq<RuntimeEvent>, dropped: int)

  /** The buffer, the log of everything ever appended, one reader that follows its own cursor, and what all reads without a
      cursor got together. */
  datatype World = World(state: BufferState, log: seq<RuntimeEvent>, reader: Reader, byDefault: Reader)

  datatype Op =
    | Append(input: Input)
    | Poll(limit: Option<Number>)
    | OtherRead(cursor: Option<int>, limit: Option<Number>)

  function Told(reader: Reader, p: Page): (r: Reader)
  {
    Reader(p.nextCursor, reader.delivered + p.items, reader.dropped + p.droppedCount)
  }

  function Step(w: World, op: Op): (r: World)
  {
    match op
    case Append(input) =>
      w.(state := Appended(w.state, input),
         log := if input.kind in KINDS then w.log + [RuntimeEvent(w.state.nextSequence, input.kind, input.body)] else w.log)
    case Poll(limit) =>
      var p := ReadPage(w.state, Some(w.reader.cursor), limit);
      w.(reader := Told(w.reader, p))
    case OtherRead(cursor, limit) =>
      w.(state := AfterRead(w.state, cursor, limit),
         byDefault := if cursor.None? then Told(w.byDefault, ReadPage(w.state, cursor, limit)) else w.byDefault)
  }

  function Run(w: World, ops: seq<Op>): (r: World)
    decreases |ops|
  {
    if ops == [] then w else Run(Step(w, ops[0]), ops[1..])
  }

  function Start(capacity: Number): (r: World)
  {
    World(Fresh(capacity), [], Reader(0, [], 0), Reader(0, [], 0))
  }

  ghost predicate Increasing(events: seq<RuntimeEvent>)
  {
    forall i, j | 0 <= i < j < |events| :: events[i].sequence < events[j].sequence
  }

  /** The log numbers its events from 1, and the buffer is its tail. */
  ghost predicate LogOk(w: World)
  {
    && Valid(w.state)
    && |w.log| == Latest(w.state)
    && (forall i | 0 <= i < |w.log| :: w.log[i].sequence == i + 1)
    && |w.state.events| <= |w.log|
    && w.state.events == w.log[|w.log| - |w.state.events|..]
  }

  /** Delivered and dropped events add up to the cursor; what was delivered is what was appended, in order and once. */
  ghost predicate ReaderOk(log: seq<RuntimeEvent>, reader: Reader)
  {
    && 0 <= reader.cursor <= |log| && reader.dropped >= 0
    && |reader.delivered| + reader.dropped == reader.cursor
    && Increasing(reader.delivered)
    && (forall i | 0 <= i < |reader.delivered| :: WasLogged(log, reader.delivered[i]))
    && (forall i | 0 <= i < |reader.delivered| :: reader.delivered[i].sequence <= reader.cursor)
  }

  ghost predicate WasLogged(log: seq<RuntimeEvent>, event: RuntimeEvent)
  {
    1 <= event.sequence <= |log| && log[event.sequence - 1] == event
  }

  ghost predicate Inv(w: World)
  {
    LogOk(w) && ReaderOk(w.log, w.reader) && ReaderOk(w.log, w.byDefault) && w.byDefault.cursor == w.state.defaultCursor
  }

  lemma AppendKeepsLog(w: World, input: Input)
    requires LogOk(w)
    ensures LogOk(Step(w, Append(input)))
  {
    AppendKeepsValid(w.state, input);
    var w' := Step(w, Append(input));
    if input.kind in KINDS {
      var k := |w.log| - |w.state.events|;
      assert w'.log[k..] == w.log[k..] + [w'.log[|w.log|]];
      assert w'.log[k..][1..] == w'.log[k + 1..];
    }
  }

  lemma AppendKeepsInv(w: World, input: Input)
    requires Inv(w)
    ensures Inv(Step(w, Append(input)))
  {
    AppendKeepsLog(w, input);
    var w' := Step(w, Append(input));
    LongerLogKeepsReader(w.log, w'.log, w.reader);
    LongerLogKeepsReader(w.log, w'.log, w.byDefault);
  }

  lemma LongerLogKeepsReader(log: seq<RuntimeEvent>, longer: seq<RuntimeEvent>, reader: Reader)
    requires log <= longer && ReaderOk(log, reader)
    ensures ReaderOk(longer, reader)
  {
    forall i | 0 <= i < |reader.delivered| ensures WasLogged(longer, reader.delivered[i]) {
      assert WasLogged(log, reader.delivered[i]);
    }
  }

  lemma PageWasLogged(w: World, requested: int, limit: int, i: int)
    requires LogOk(w) && limit >= 1 && 0 <= requested <= |w.log|
    requires 0 <= i < |PageOf(w.state, requested, limit).items|
    ensures WasLogged(w.log, PageOf(w.state, requested, limit).items[i])
  {
    PageIsNextRun(w.state, requested, limit);
    OldestOfValid(w.state);
  }

  /** A reader takes delivery of events that come after everything it has. */
  lemma DeliveryKeepsReader(log: seq<RuntimeEvent>, delivered: seq<RuntimeEvent>, items: seq<RuntimeEvent>, cursor: int, next: int)
    requires Increasing(delivered) && (forall i | 0 <= i < |delivered| :: WasLogged(log, delivered[i]) && delivered[i].sequence <= cursor)
    requires forall i | 0 <= i < |items| :: WasLogged(log, items[i]) && items[i].sequence == next - |items| + 1 + i
    requires cursor <= next - |items|
    ensures Increasing(delivered + items)
    ensures forall i | 0 <= i < |delivered + items| ::
              WasLogged(log, (delivered + items)[i]) && (delivered + items)[i].sequence <= next
  {
  }

  /** A reader that asks with the cursor it was last given. */
  lemma FollowingKeepsReader(w: World, reader: Reader, limit: int)
    requires LogOk(w) && ReaderOk(w.log, reader) && limit >= 1
    ensures ReaderOk(w.log, Told(reader, PageOf(w.state, reader.cursor, limit)))
  {
    var p := PageOf(w.state, reader.cursor, limit);
    PageIsNextRun(w.state, reader.cursor, limit);
    forall i | 0 <= i < |p.items| ensures WasLogged(w.log, p.items[i]) {
      PageWasLogged(w, reader.cursor, limit, i);
    }
    DeliveryKeepsReader(w.log, reader.delivered, p.items, reader.cursor, p.nextCursor);
  }

  lemma PollKeepsInv(w: World, limit: Option<Number>)
    requires Inv(w)
    ensures Inv(Step(w, Poll(limit)))
  {
    var w' := Step(w, Poll(limit));
    assert w' == w.(reader := Told(w.reader, PageOf(w.state, w.reader.cursor, NormalizeLimit(limit))));
    FollowingKeepsReader(w, w.reader, NormalizeLimit(limit));
  }

  lemma DefaultReadKeepsInv(w: World, limit: Option<Number>)
    requires Inv(w)
    ensures Inv(Step(w, OtherRead(None, limit)))
  {
    var told := Told(w.byDefault, PageOf(w.state, w.byDefault.cursor, NormalizeLimit(limit)));
    var w' := Step(w, OtherRead(None, limit));
    assert w' == w.(state := w.state.(defaultCursor := told.cursor), byDefault := told);
    FollowingKeepsReader(w, w.byDefault, NormalizeLimit(limit));
    SameLogOk(w, w');
  }

  lemma SameLogOk(w: World, v: World)
    requires LogOk(w) && v.log == w.log
    requires v.state.capacity == w.state.capacity && v.state.events == w.state.events && v.state.nextSequence == w.state.nextSequence
    ensures LogOk(v)
  {
  }

  lemma StepKeepsInv(w: World, op: Op)
    requires Inv(w)
    ensures Inv(Step(w, op))
  {
    match op
    case Append(input) => AppendKeepsInv(w, input);
    case Poll(limit) => PollKeepsInv(w, limit);
    case OtherRead(cursor, limit) =>
      if cursor.None? {
        DefaultReadKeepsInv(w, limit);
      }
  }

  lemma {:induction false} RunKeepsInv(w: World, ops: seq<Op>)
    requires Inv(w)
    ensures Inv(Run(w, ops))
    decreases |ops|
  {
    if ops != [] {
      StepKeepsInv(w, ops[0]);
      RunKeepsInv(Step(w, ops[0]), ops[1..]);
    }
  }

  /** Over every interleaving of appends and reads, for a reader that follows its cursor from 0 and for all reads without a
      cursor taken together: delivered plus dropped is the cursor, items are strictly increasing and each is the very event
      that was appended under its number. */
  lemma EventsAreConserved(capacity: Number, ops: seq<Op>)
    ensures var w := Run(Start(capacity), ops);
            && |w.reader.delivered| + w.reader.dropped == w.reader.cursor <= |w.log|
            && Increasing(w.reader.delivered)
            && (forall i | 0 <= i < |w.reader.delivered| :: WasLogged(w.log, w.reader.delivered[i]))
            && |w.byDefault.delivered| + w.byDefault.dropped == w.state.defaultCursor <= |w.log|
            && Increasing(w.byDefault.delivered)
            && (forall i | 0 <= i < |w.byDefault.delivered| :: WasLogged(w.log, w.byDefault.delivered[i]))
  {
    RunKeepsInv(Start(capacity), ops);
  }

  /** And always the buffer is the unbroken end of the log, as long as its capacity allows. */
  lemma BufferIsTheLatestRun(capacity: Number, ops: seq<Op>)
    ensures var w := Run(Start(capacity), ops);
            && |w.state.events| == (if |w.log| < NormalizeCapacity(capacity) then |w.log| else NormalizeCapacity(capacity))
            && w.state.events == w.log[|w.log| - |w.state.events|..]
            && (forall i | 0 <= i < |w.log| :: w.log[i].sequence == i + 1)
            && w.state.nextSequence == |w.log| + 1
  {
    RunKeepsInv(Start(capacity), ops);
    CapacityIsFixed(Start(capacity), ops);
  }

  lemma {:induction false} CapacityIsFixed(w: World, ops: seq<Op>)
    ensures Run(w, ops).state.capacity == w.state.capacity
    decreases |ops|
  {
    if ops != [] {
      CapacityIsFixed(Step(w, ops[0]), ops[1..]);
    }
  }

  // -------------------------------------------------------------------- draining

  /** Reading page after page, each from the last one's `nextCursor`, until there is no more. */
  function DrainFrom(s: BufferState, cursor: int, limit: int): (r: (seq<RuntimeEvent>, int))
    requires Valid(s) && limit >= 1 && cursor <= Latest(s)
    decreases Latest(s) - cursor
  {
    var p := PageOf(s, cursor, limit);
    PageIsNextRun(s, cursor, limit);
    if p.hasMore then
      var later := DrainFrom(s, p.nextCursor, limit);
      (p.items + later.0, later.1)
    else (p.items, p.nextCursor)
  }

  /** Without appends, reads come to an end with `hasMore` false and the cursor at the latest, having given every retained
      event behind the first cursor, whatever the page size. */
  lemma {:induction false} DrainingGivesAllThatIsRetained(s: BufferState, cursor: int, limit: int)
    requires Valid(s) && limit >= 1 && cursor <= Latest(s)
    ensures DrainFrom(s, cursor, limit) == (Beyond(s.events, cursor), Latest(s))
    decreases Latest(s) - cursor
  {
    var p := PageOf(s, cursor, limit);
    PageIsNextRun(s, cursor, limit);
    PageThenRest(s, cursor, limit);
    if p.hasMore {
      DrainingGivesAllThatIsRetained(s, p.nextCursor, limit);
    } else {
      assert p.items + [] == p.items;
    }
  }

  lemma PageThenRest(s: BufferState, cursor: int, limit: int)
    requires Valid(s) && limit >= 1 && cursor <= Latest(s)
    ensures var p := PageOf(s, cursor, limit);
            Beyond(s.events, cursor) == p.items + Beyond(s.events, p.nextCursor)
  {
    BehindCursor(s, cursor);
    PageIsSlice(s, cursor, limit);
    RestBehindPage(s, cursor, limit);
    SplitTail(s.events, FirstBehind(s, cursor), |PageOf(s, cursor, limit).items|);
  }

  lemma SplitTail(events: seq<RuntimeEvent>, from: nat, n: nat)
    requires from + n <= |events|
    ensures events[from..] == events[from..from + n] + events[from + n..]
  {
  }

  // ------------------------------------------------------------------------ the object

  class EventBuffer {
    const capacity: int
    var events: seq<RuntimeEvent>
    var nextSequence: nat
    var defaultCursor: int

    ghost function State(): (r: BufferState)
      reads this
    {
      BufferState(capacity, events, nextSequence, defaultCursor)
    }

    constructor (capacity: Number)
      ensures State() == Fresh(capacity)
    {
      this.capacity, events, nextSequence, defaultCursor := NormalizeCapacity(capacity), [], 1, 0;
    }

    /** None when the kind is not one the buffer takes. */
    method Append(input: Input) returns (event: Option<RuntimeEvent>)
      modifies this
      ensures State() == Appended(old(State()), input)
      ensures event == if input.kind in KINDS then Some(RuntimeEvent(old(nextSequence), input.kind, input.body)) else None
    {
      if input.kind !in KINDS {
        return None;
      }
      var normalized := RuntimeEvent(nextSequence, input.kind, input.body);
      nextSequence := nextSequence + 1;
      events := events + [normalized];
      if |events| > capacity {
        events := events[1..];
      }
      return Some(normalized);
    }

    method Read(cursor: Option<int>, limit: Option<Number>) returns (page: Page)
      modifies this`defaultCursor
      ensures page == ReadPage(old(State()), cursor, limit)
      ensures State() == AfterRead(old(State()), cursor, limit)
    {
      var requested := if cursor.Some? then cursor.value else defaultCursor;
      var size := NormalizeLimit(limit);
      var oldest := if events == [] then nextSequence else events[0].sequence;
      var overflowed := requested < oldest - 1;
      var effective := if overflowed then oldest - 1 else requested;
      var items := Take(Beyond(events, effective), size);
      var next := if items == [] then effective else items[|items| - 1].sequence;
      if cursor.None? {
        defaultCursor := next;
      }
      var dropped := oldest - 1 - requested;
      page := Page(items, requested, next, oldest, Beyond(events, next) != [], overflowed, if dropped > 0 then dropped else 0);
    }
  }
}
