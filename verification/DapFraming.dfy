/** Framing of the Debug Adapter Protocol's base protocol (src/dap/DapClient.ts). A stream is a string with one
    character, 0 to 255, for each byte. */
module DapFraming {
  import opened Basics

  const SEPARATOR: string := "\r\n\r\n"

  const FIELD: string := "content-length:"

  // ------------------------------------------------------------------- the header

  predicate StartsWithSeparator(s: string)
  {
    |s| >= 4 && s[0] == '\r' && s[1] == '\n' && s[2] == '\r' && s[3] == '\n'
  }

  /** Where the separator first occurs. */
  function HeaderEnd(buffer: string): (r: Option<nat>)
    ensures r.Some? ==> r.value + 4 <= |buffer|
  {
    if |buffer| < 4 then None
    else if StartsWithSeparator(buffer) then Some(0)
    else
      var later := HeaderEnd(buffer[1..]);
      if later.Some? then Some(later.value + 1) else None
  }

  function Lower(c: char): (r: char)
  {
    if 'A' <= c <= 'Z' then c - 'A' + 'a' else c
  }

  predicate IsSpace(c: char)
  {
    c == ' ' || c == '\t' || c == '\r' || c == '\n' || c as int == 11 || c as int == 12
  }

  function SkipSpace(s: string): (r: string)
  {
    if s != [] && IsSpace(s[0]) then SkipSpace(s[1..]) else s
  }

  function LeadingDigits(s: string): (r: string)
    ensures forall i | 0 <= i < |r| :: IsDigit(r[i])
  {
    if s != [] && IsDigit(s[0]) then [s[0]] + LeadingDigits(s[1..]) else []
  }

  /** The field name, in any case. */
  predicate NamesField(s: string)
    requires |s| >= |FIELD|
  {
    forall i | 0 <= i < |FIELD| :: Lower(s[i]) == FIELD[i]
  }

  /** The field name, then white space, then at least one digit, right at the start. */
  function LengthAt(s: string): (r: Option<nat>)
    requires |s| >= |FIELD|
  {
    if NamesField(s) then
      var digits := LeadingDigits(SkipSpace(s[|FIELD|..]));
      if digits == [] then None else Some(Value(digits))
    else None
  }

  /** The leftmost match in the header. */
  function LengthIn(header: string): (r: Option<nat>)
  {
    if |header| < |FIELD| then None
    else if LengthAt(header).Some? then LengthAt(header)
    else LengthIn(header[1..])
  }

  // ---------------------------------------------------------------- draining a buffer

  /** What the front of a buffer amounts to. */
  datatype Front = NeedMore | Malformed(header: string, rest: string) | Complete(payload: string, rest: string)

  /** The front, given where the header ends and the length it announces. */
  function FrontAt(buffer: string, end: nat, length: Option<nat>): (r: Front)
    requires end + 4 <= |buffer|
    ensures !r.NeedMore? ==> |r.rest| < |buffer|
  {
    if length.None? then Malformed(buffer[..end], buffer[end + 4..])
    else if |buffer| < end + 4 + length.value then NeedMore
    else Complete(buffer[end + 4..end + 4 + length.value], buffer[end + 4 + length.value..])
  }

  function Parse(buffer: string): (r: Front)
    ensures !r.NeedMore? ==> |r.rest| < |buffer|
  {
    var end := HeaderEnd(buffer);
    if end.None? then NeedMore else FrontAt(buffer, end.value, LengthIn(buffer[..end.value]))
  }

  /** What the reader reports: a message, a header without a length, or a payload on which it throws. */
  datatype Event = Message(payload: string) | ProtocolError(header: string) | Thrown(payload: string)

  datatype Outcome = Outcome(events: seq<Event>, rest: string)

  function Before(events: seq<Event>, outcome: Outcome): (r: Outcome)
  {
    Outcome(events + outcome.events, outcome.rest)
  }

  /** One pass of the reader. A payload it cannot handle is taken off the buffer and ends the pass. */
  function Drain(handles: string -> bool, buffer: string): (r: Outcome)
    ensures |r.rest| <= |buffer|
    decreases |buffer|
  {
    var front := Parse(buffer);
    match front
    case NeedMore => Outcome([], buffer)
    case Malformed(header, rest) => Before([ProtocolError(header)], Drain(handles, rest))
    case Complete(payload, rest) =>
      if handles(payload) then Before([Message(payload)], Drain(handles, rest)) else Outcome([Thrown(payload)], rest)
  }

  /** Chunks arrive one after the other; each is appended to the buffer and starts a pass. */
  function Feed(handles: string -> bool, buffer: string, chunks: seq<string>): (r: Outcome)
    decreases |chunks|
  {
    if chunks == [] then Outcome([], buffer)
    else
      var first := Drain(handles, buffer + chunks[0]);
      Before(first.events, Feed(handles, first.rest, chunks[1..]))
  }

  function Concat(chunks: seq<string>): (r: string)
  {
    if chunks == [] then "" else chunks[0] + Concat(chunks[1..])
  }

  // ------------------------------------------------------------- chunk independence

  lemma {:induction false} HeaderEndIsStable(buffer: string, more: string)
    requires HeaderEnd(buffer).Some?
    ensures HeaderEnd(buffer + more) == HeaderEnd(buffer)
  {
    if !StartsWithSeparator(buffer) {
      assert (buffer + more)[1..] == buffer[1..] + more;
      HeaderEndIsStable(buffer[1..], more);
    }
  }

  lemma FrontAtOfMore(buffer: string, more: string, end: nat, length: Option<nat>)
    requires end + 4 <= |buffer| && !FrontAt(buffer, end, length).NeedMore?
    ensures FrontAt(buffer + more, end, length) == Appended(FrontAt(buffer, end, length), more)
  {
    assert (buffer + more)[..end] == buffer[..end];
    assert (buffer + more)[end + 4..] == buffer[end + 4..] + more;
    if length.Some? {
      var stop := end + 4 + length.value;
      assert (buffer + more)[end + 4..stop] == buffer[end + 4..stop];
      assert (buffer + more)[stop..] == buffer[stop..] + more;
    }
  }

  function Appended(front: Front, more: string): (r: Front)
  {
    if front.NeedMore? then front else front.(rest := front.rest + more)
  }

  /** What is complete stays as it is when more bytes come. */
  lemma CompleteIsStable(buffer: string, more: string)
    requires !Parse(buffer).NeedMore?
    ensures Parse(buffer + more) == Appended(Parse(buffer), more)
  {
    HeaderEndIsStable(buffer, more);
    var end := HeaderEnd(buffer).value;
    assert (buffer + more)[..end] == buffer[..end];
    FrontAtOfMore(buffer, more, end, LengthIn(buffer[..end]));
  }

  /** Whether the pass ends on a payload the reader throws on. */
  predicate Throws(handles: string -> bool, buffer: string)
    decreases |buffer|
  {
    match Parse(buffer)
    case NeedMore => false
    case Malformed(_, rest) => Throws(handles, rest)
    case Complete(payload, rest) => !handles(payload) || Throws(handles, rest)
  }

  lemma {:induction false} PassUntilThrow(handles: string -> bool, buffer: string)
    requires !Throws(handles, buffer)
    ensures Parse(Drain(handles, buffer).rest).NeedMore?
    decreases |buffer|
  {
    var front := Parse(buffer);
    if !front.NeedMore? {
      PassUntilThrow(handles, front.rest);
    }
  }

  lemma BeforeTwice(first: seq<Event>, second: seq<Event>, outcome: Outcome)
    ensures Before(first, Before(second, outcome)) == Before(first + second, outcome)
  {
    assert first + (second + outcome.events) == (first + second) + outcome.events;
  }

  /** More bytes behind a buffer: they wait behind a throw, and otherwise continue where the pass stopped. */
  lemma {:induction false} DrainOfMore(handles: string -> bool, buffer: string, more: string)
    ensures var first := Drain(handles, buffer);
            Drain(handles, buffer + more)
            == if Throws(handles, buffer) then Outcome(first.events, first.rest + more)
               else Before(first.events, Drain(handles, first.rest + more))
    decreases |buffer|
  {
    var front := Parse(buffer);
    if front.NeedMore? {
      assert [] + Drain(handles, buffer + more).events == Drain(handles, buffer + more).events;
    } else {
      CompleteIsStable(buffer, more);
      if front.Malformed? {
        DrainOfMore(handles, front.rest, more);
        var later := Drain(handles, front.rest);
        BeforeTwice([ProtocolError(front.header)], later.events, Drain(handles, later.rest + more));
      } else if handles(front.payload) {
        DrainOfMore(handles, front.rest, more);
        var later := Drain(handles, front.rest);
        BeforeTwice([Message(front.payload)], later.events, Drain(handles, later.rest + more));
      }
    }
  }

  lemma PrefixNeedsMore(buffer: string, more: string)
    requires Parse(buffer + more).NeedMore?
    ensures Parse(buffer).NeedMore?
  {
    if !Parse(buffer).NeedMore? {
      CompleteIsStable(buffer, more);
    }
  }

  /** Whenever nothing complete is left behind by the pass over everything, any split gives the same events and the same
      leftover. */
  lemma {:induction false} SplitsAgree(handles: string -> bool, buffer: string, chunks: seq<string>)
    requires Parse(buffer).NeedMore?
    requires Parse(Drain(handles, buffer + Concat(chunks)).rest).NeedMore?
    ensures Feed(handles, buffer, chunks) == Drain(handles, buffer + Concat(chunks))
    decreases |chunks|
  {
    if chunks == [] {
      assert buffer + Concat(chunks) == buffer;
    } else {
      var first := Drain(handles, buffer + chunks[0]);
      var more := Concat(chunks[1..]);
      assert buffer + Concat(chunks) == (buffer + chunks[0]) + more;
      DrainOfMore(handles, buffer + chunks[0], more);
      if Throws(handles, buffer + chunks[0]) {
        PrefixNeedsMore(first.rest, more);
      } else {
        PassUntilThrow(handles, buffer + chunks[0]);
      }
      SplitsAgree(handles, first.rest, chunks[1..]);
    }
  }

  /** The bytes behind the first payload that cannot be handled, if there is one. */
  function BehindThrow(handles: string -> bool, stream: string): (r: Option<string>)
    decreases |stream|
  {
    match Parse(stream)
    case NeedMore => None
    case Malformed(_, rest) => BehindThrow(handles, rest)
    case Complete(payload, rest) => if handles(payload) then BehindThrow(handles, rest) else Some(rest)
  }

  /** Every payload can be handled, or nothing complete stands behind the first that cannot. */
  predicate NothingBehindThrow(handles: string -> bool, stream: string)
  {
    var behind := BehindThrow(handles, stream);
    behind.Some? ==> Parse(behind.value).NeedMore?
  }

  /** The pass over the whole stream leaves behind what stands behind the payload it throws on. */
  lemma {:induction false} PassLeavesBehind(handles: string -> bool, stream: string)
    ensures BehindThrow(handles, stream).Some? <==> Throws(handles, stream)
    ensures NothingBehindThrow(handles, stream) <==> Parse(Drain(handles, stream).rest).NeedMore?
    decreases |stream|
  {
    var front := Parse(stream);
    if !front.NeedMore? {
      PassLeavesBehind(handles, front.rest);
    }
  }

  /** Every way of cutting the stream into nonempty chunks gives what the whole stream gives at once. */
  ghost predicate ChunkIndependent(handles: string -> bool, stream: string)
  {
    forall chunks: seq<string> | NonEmptyChunks(chunks) && Concat(chunks) == stream ::
      Feed(handles, "", chunks) == Drain(handles, stream)
  }

  predicate NonEmptyChunks(chunks: seq<string>)
  {
    forall i | 0 <= i < |chunks| :: chunks[i] != ""
  }

  /** The first item of a buffer stands by itself. */
  lemma FrontAlone(buffer: string)
    requires !Parse(buffer).NeedMore?
    ensures var item := buffer[..|buffer| - |Parse(buffer).rest|];
            && buffer == item + Parse(buffer).rest
            && Parse(item) == Parse(buffer).(rest := "")
  {
    var end := HeaderEnd(buffer).value;
    var length := LengthIn(buffer[..end]);
    var n := if length.None? then end + 4 else end + 4 + length.value;
    HeaderEndWithin(buffer, n);
    assert buffer[..n][..end] == buffer[..end];
    FrontAtAlone(buffer, end, length, n);
  }

  lemma FrontAtAlone(buffer: string, end: nat, length: Option<nat>, n: nat)
    requires end + 4 <= |buffer| && !FrontAt(buffer, end, length).NeedMore?
    requires n == if length.None? then end + 4 else end + 4 + length.value
    ensures n == |buffer| - |FrontAt(buffer, end, length).rest| && n >= end + 4
    ensures buffer == buffer[..n] + FrontAt(buffer, end, length).rest
    ensures FrontAt(buffer[..n], end, length) == FrontAt(buffer, end, length).(rest := "")
  {
    var item := buffer[..n];
    assert item[..end] == buffer[..end];
    assert item[end + 4..n] == buffer[end + 4..n];
    assert item[n..] == "";
  }

  lemma ItemWithMore(item: string, more: string)
    requires !Parse(item).NeedMore? && Parse(item).rest == ""
    ensures Parse(item + more) == Parse(item).(rest := more)
  {
    CompleteIsStable(item, more);
    assert "" + more == more;
  }

  function EventOf(handles: string -> bool, front: Front): (r: Event)
    requires !front.NeedMore?
  {
    if front.Malformed? then ProtocolError(front.header)
    else if handles(front.payload) then Message(front.payload) else Thrown(front.payload)
  }

  predicate GoesOn(handles: string -> bool, front: Front)
  {
    front.Malformed? || (front.Complete? && handles(front.payload))
  }

  /** One item of a pass. */
  lemma DrainUnfolds(handles: string -> bool, buffer: string, front: Front)
    requires Parse(buffer) == front && !front.NeedMore?
    ensures GoesOn(handles, front) ==> Drain(handles, buffer) == Before([EventOf(handles, front)], Drain(handles, front.rest))
    ensures !GoesOn(handles, front) ==> Drain(handles, buffer) == Outcome([EventOf(handles, front)], front.rest)
  {
  }

  function FirstItem(buffer: string): (r: string)
    requires !Parse(buffer).NeedMore?
  {
    buffer[..|buffer| - |Parse(buffer).rest|]
  }

  /** The bytes a pass takes off the buffer. */
  function Taken(handles: string -> bool, buffer: string): (r: string)
    decreases |buffer|
  {
    var front := Parse(buffer);
    if front.NeedMore? then ""
    else FirstItem(buffer) + if GoesOn(handles, front) then Taken(handles, front.rest) else ""
  }

  lemma {:induction false} TakenThenRest(handles: string -> bool, buffer: string)
    ensures buffer == Taken(handles, buffer) + Drain(handles, buffer).rest
    decreases |buffer|
  {
    var front := Parse(buffer);
    if !front.NeedMore? {
      FrontAlone(buffer);
      DrainUnfolds(handles, buffer, front);
      if GoesOn(handles, front) {
        TakenThenRest(handles, front.rest);
        ConcatThree(FirstItem(buffer), Taken(handles, front.rest), Drain(handles, front.rest).rest);
      } else {
        assert FirstItem(buffer) + "" == FirstItem(buffer);
      }
    }
  }

  lemma ConcatThree(a: string, b: string, c: string)
    ensures a + (b + c) == (a + b) + c
  {
  }

  /** The bytes a pass took before it threw give the same events and leave nothing. */
  lemma {:induction false} DrainOfTaken(handles: string -> bool, buffer: string)
    requires Throws(handles, buffer)
    ensures Drain(handles, Taken(handles, buffer)) == Outcome(Drain(handles, buffer).events, "")
    decreases |buffer|
  {
    var front := Parse(buffer);
    var later := if GoesOn(handles, front) then Taken(handles, front.rest) else "";
    FrontAlone(buffer);
    ItemWithMore(FirstItem(buffer), later);
    DrainUnfolds(handles, buffer, front);
    DrainUnfolds(handles, FirstItem(buffer) + later, front.(rest := later));
    if GoesOn(handles, front) {
      DrainOfTaken(handles, front.rest);
    }
  }

  lemma {:induction false} HeaderEndWithin(buffer: string, n: nat)
    requires HeaderEnd(buffer).Some? && HeaderEnd(buffer).value + 4 <= n <= |buffer|
    ensures HeaderEnd(buffer[..n]) == HeaderEnd(buffer)
  {
    if !StartsWithSeparator(buffer) {
      TailOfPrefix(buffer, n);
      HeaderEndWithin(buffer[1..], n - 1);
    }
  }

  lemma TailOfPrefix(s: string, n: nat)
    requires 1 <= n <= |s|
    ensures s[..n][1..] == s[1..][..n - 1]
  {
  }

  /** Framing does not depend on chunking exactly when nothing complete stands behind a payload the reader throws on. */
  lemma ChunkIndependentIffNothingBehindThrow(handles: string -> bool, stream: string)
    ensures ChunkIndependent(handles, stream) <==> NothingBehindThrow(handles, stream)
  {
    PassLeavesBehind(handles, stream);
    if NothingBehindThrow(handles, stream) {
      forall chunks: seq<string> | NonEmptyChunks(chunks) && Concat(chunks) == stream
        ensures Feed(handles, "", chunks) == Drain(handles, stream)
      {
        assert "" + Concat(chunks) == stream;
        SplitsAgree(handles, "", chunks);
      }
    } else {
      CutBehindThrow(handles, stream);
    }
  }

  /** Otherwise the cut right behind that payload lets the reader go on where it would have stopped. */
  lemma CutBehindThrow(handles: string -> bool, stream: string)
    requires !NothingBehindThrow(handles, stream)
    ensures !ChunkIndependent(handles, stream)
  {
    PassLeavesBehind(handles, stream);
    if !Throws(handles, stream) {
      PassUntilThrow(handles, stream);
    }
    ThrowingShows(handles, stream);
    TakenThenRest(handles, stream);
    DrainOfTaken(handles, stream);
    var used, rest := Taken(handles, stream), Drain(handles, stream).rest;
    TwoChunks(handles, used, rest);
    GoingOnShows(handles, used, rest);
    NotIndependent(handles, stream, [used, rest]);
  }

  lemma GoingOnShows(handles: string -> bool, used: string, rest: string)
    requires !Parse(rest).NeedMore? && |Drain(handles, used).events| > 0
    ensures NonEmptyChunks([used, rest])
    ensures |Drain(handles, used).events + Drain(handles, rest).events| > |Drain(handles, used).events|
  {
    SomethingComes(handles, rest);
    NothingFromNothing(handles, used, rest);
  }

  lemma NotIndependent(handles: string -> bool, stream: string, chunks: seq<string>)
    requires NonEmptyChunks(chunks) && Concat(chunks) == stream
    requires Feed(handles, "", chunks) != Drain(handles, stream)
    ensures !ChunkIndependent(handles, stream)
  {
  }

  lemma ThrowingShows(handles: string -> bool, buffer: string)
    requires Throws(handles, buffer)
    ensures |Drain(handles, buffer).events| > 0
  {
  }

  lemma SomethingComes(handles: string -> bool, buffer: string)
    requires !Parse(buffer).NeedMore?
    ensures |Drain(handles, buffer).events| > 0
  {
  }

  lemma NothingFromNothing(handles: string -> bool, used: string, rest: string)
    requires !Parse(rest).NeedMore? && |Drain(handles, used).events| > 0
    ensures used != "" && rest != ""
  {
  }

  lemma TwoChunks(handles: string -> bool, a: string, b: string)
    ensures Concat([a, b]) == a + b
    ensures Drain(handles, a).rest == "" ==>
              Feed(handles, "", [a, b]) == Outcome(Drain(handles, a).events + Drain(handles, b).events, Drain(handles, b).rest)
  {
    assert [a, b][1..] == [b] && [b][1..] == [];
    assert Concat([b]) == b + Concat([]) == b;
    assert "" + a == a && "" + b == b;
    if Drain(handles, a).rest == "" {
      var second := Drain(handles, b);
      assert Feed(handles, "", [b]) == Before(second.events, Feed(handles, second.rest, [])) == Outcome(second.events, second.rest);
      assert Feed(handles, "", [a, b]) == Before(Drain(handles, a).events, Feed(handles, "", [b]));
    }
  }

  /** A stream whose own payloads can all be handled never depends on chunking, malformed headers included. */
  lemma HandledStreamIsChunkIndependent(handles: string -> bool, stream: string)
    requires !Throws(handles, stream)
    ensures ChunkIndependent(handles, stream)
  {
    PassUntilThrow(handles, stream);
    PassLeavesBehind(handles, stream);
    ChunkIndependentIffNothingBehindThrow(handles, stream);
  }

  // ------------------------------------------------------------------- round trip

  /** The header `#send` writes for a payload of `n` bytes. */
  function Header(n: nat): (r: string)
  {
    "Content-Length: " + Decimal(n)
  }

  /** What `#send` writes for a message's JSON text. */
  function Frame(json: string): (r: string)
  {
    Header(|json|) + SEPARATOR + json
  }

  lemma {:induction false} NoEarlierSeparator(header: string, more: string)
    requires '\r' !in header
    ensures HeaderEnd(header + SEPARATOR + more) == Some(|header|)
  {
    var all := header + SEPARATOR + more;
    if header == [] {
      assert StartsWithSeparator(all);
    } else {
      assert all[0] == header[0];
      assert all[1..] == header[1..] + SEPARATOR + more;
      NoEarlierSeparator(header[1..], more);
    }
  }

  lemma {:induction false} AllDigitsLead(digits: string)
    requires forall i | 0 <= i < |digits| :: IsDigit(digits[i])
    ensures LeadingDigits(digits) == digits
  {
    if digits != [] {
      AllDigitsLead(digits[1..]);
    }
  }

  lemma FieldIsNamed(n: nat)
    ensures |Header(n)| >= |FIELD| && NamesField(Header(n)) && Header(n)[|FIELD|..] == [' '] + Decimal(n)
  {
    assert |FIELD| == 15;
    assert forall i | 0 <= i < 15 :: Header(n)[i] == "Content-Length: "[i];
  }

  lemma NoReturnInHeader(n: nat)
    ensures '\r' !in Header(n)
  {
    forall i | 0 <= i < |Header(n)| ensures Header(n)[i] != '\r' {
      if i >= 16 {
        assert Header(n)[i] == Decimal(n)[i - 16] && IsDigit(Decimal(n)[i - 16]);
      }
    }
  }

  lemma LengthAfterField(header: string, digits: string)
    requires |header| >= |FIELD| && NamesField(header) && header[|FIELD|..] == [' '] + digits
    requires digits != [] && forall i | 0 <= i < |digits| :: IsDigit(digits[i])
    ensures LengthIn(header) == Some(Value(digits))
  {
    SpaceIsSkipped(digits);
    AllDigitsLead(digits);
  }

  lemma SpaceIsSkipped(digits: string)
    requires digits != [] && IsDigit(digits[0])
    ensures SkipSpace([' '] + digits) == digits
  {
    assert ([' '] + digits)[1..] == digits;
    assert SkipSpace(digits) == digits;
  }

  lemma HeaderIsUnderstood(n: nat)
    ensures LengthIn(Header(n)) == Some(n)
  {
    FieldIsNamed(n);
    LengthAfterField(Header(n), Decimal(n));
    ValueOfDecimal(n);
  }

  lemma FrameIsComplete(json: string, more: string)
    ensures Parse(Frame(json) + more) == Complete(json, more)
  {
    var header := Header(|json|);
    var all := Frame(json) + more;
    assert all == header + SEPARATOR + (json + more);
    HeaderIsUnderstood(|json|);
    NoReturnInHeader(|json|);
    NoEarlierSeparator(header, json + more);
    assert all[..|header|] == header;
    var start := |header| + 4;
    assert all[start..start + |json|] == json;
    assert all[start + |json|..] == more;
  }

  function Frames(messages: seq<string>): (r: string)
  {
    if messages == [] then "" else Frame(messages[0]) + Frames(messages[1..])
  }

  function Messages(messages: seq<string>): (r: seq<Event>)
  {
    seq(|messages|, i requires 0 <= i < |messages| => Message(messages[i]))
  }

  /** Framed messages come back, each once and in order, and leave the buffer empty. */
  lemma {:induction false} FramesComeBack(handles: string -> bool, messages: seq<string>)
    requires forall i | 0 <= i < |messages| :: handles(messages[i])
    ensures Drain(handles, Frames(messages)) == Outcome(Messages(messages), "")
  {
    if messages != [] {
      FrameIsComplete(messages[0], Frames(messages[1..]));
      FramesComeBack(handles, messages[1..]);
      DrainUnfolds(handles, Frames(messages), Complete(messages[0], Frames(messages[1..])));
      assert Messages(messages) == [Message(messages[0])] + Messages(messages[1..]);
    }
  }

  /** And they do so however the bytes are cut into chunks. */
  lemma FramesComeBackInChunks(handles: string -> bool, messages: seq<string>, chunks: seq<string>)
    requires forall i | 0 <= i < |messages| :: handles(messages[i])
    requires Concat(chunks) == Frames(messages)
    ensures Feed(handles, "", chunks) == Outcome(Messages(messages), "")
  {
    FramesComeBack(handles, messages);
    assert "" + Concat(chunks) == Frames(messages);
    SplitsAgree(handles, "", chunks);
  }

  // ------------------------------------------------------------------- the client

  /** A pass in progress: what has been emitted, and what the rest of the pass will add, make up the whole pass. */
  predicate Continues(handles: string -> bool, start: string, before: seq<Event>, buffer: string, emitted: seq<Event>)
  {
    && Before(emitted, Drain(handles, buffer)) == Before(before, Drain(handles, start))
    && Throws(handles, buffer) == Throws(handles, start)
  }

  lemma OneItem(handles: string -> bool, start: string, before: seq<Event>, buffer: string, emitted: seq<Event>)
    requires Continues(handles, start, before, buffer, emitted)
    ensures Parse(buffer).NeedMore? ==>
              !Throws(handles, start) && Outcome(emitted, buffer) == Before(before, Drain(handles, start))
    ensures Parse(buffer).Malformed? ==>
              Continues(handles, start, before, Parse(buffer).rest, emitted + [ProtocolError(Parse(buffer).header)])
    ensures Parse(buffer).Complete? && handles(Parse(buffer).payload) ==>
              Continues(handles, start, before, Parse(buffer).rest, emitted + [Message(Parse(buffer).payload)])
    ensures Parse(buffer).Complete? && !handles(Parse(buffer).payload) ==>
              && Throws(handles, start)
              && Outcome(emitted + [Thrown(Parse(buffer).payload)], Parse(buffer).rest) == Before(before, Drain(handles, start))
  {
    var front := Parse(buffer);
    if front.NeedMore? {
      assert emitted + [] == emitted;
    } else if front.Malformed? {
      BeforeTwice(emitted, [ProtocolError(front.header)], Drain(handles, front.rest));
    } else if handles(front.payload) {
      BeforeTwice(emitted, [Message(front.payload)], Drain(handles, front.rest));
    }
  }

  /** The reading side of the client; `emitted` is what its listeners have been told. */
  class DapClient {
    const handles: string -> bool
    var buffer: string
    var emitted: seq<Event>

    constructor (handles: string -> bool)
      ensures this.handles == handles && buffer == "" && emitted == []
    {
      this.handles, buffer, emitted := handles, "", [];
    }

    /** Takes one item off the buffer and tells the listeners. Returns false when no item is complete; `threw` when the item
        could not be handled. */
    method TakeItem() returns (took: bool, threw: bool)
      modifies this
      ensures var front := Parse(old(buffer));
              && took == !front.NeedMore?
              && (front.NeedMore? ==> !threw && buffer == old(buffer) && emitted == old(emitted))
              && (front.Malformed? ==> !threw && buffer == front.rest && emitted == old(emitted) + [ProtocolError(front.header)])
              && (front.Complete? ==>
                    && threw == !handles(front.payload) && buffer == front.rest
                    && emitted == old(emitted) + [if threw then Thrown(front.payload) else Message(front.payload)])
    {
      var end := HeaderEnd(buffer);
      if end.None? {
        return false, false;
      }
      var header := buffer[..end.value];
      var length := LengthIn(header);
      if length.None? {
        emitted := emitted + [ProtocolError(header)];
        buffer := buffer[end.value + 4..];
        return true, false;
      }
      var messageStart := end.value + 4;
      var messageEnd := messageStart + length.value;
      if |buffer| < messageEnd {
        return false, false;
      }
      var payload := buffer[messageStart..messageEnd];
      buffer := buffer[messageEnd..];
      threw := !handles(payload);
      emitted := emitted + [if threw then Thrown(payload) else Message(payload)];
      return true, threw;
    }

    /** Returns whether the pass was cut short by a payload that could not be handled. */
    method OnData(chunk: string) returns (threw: bool)
      modifies this
      ensures threw == Throws(handles, old(buffer) + chunk)
      ensures Outcome(emitted, buffer) == Before(old(emitted), Drain(handles, old(buffer) + chunk))
    {
      buffer := buffer + chunk;
      ghost var start, before := buffer, emitted;
      while true
        invariant Continues(handles, start, before, buffer, emitted)
        decreases |buffer|
      {
        OneItem(handles, start, before, buffer, emitted);
        var took;
        took, threw := TakeItem();
        if !took || threw {
          return;
        }
      }
    }

    /** One message framed onto the wire. */
    method Send(json: string) returns (bytes: string)
      ensures bytes == Frame(json)
      ensures forall more :: Parse(bytes + more) == Complete(json, more)
    {
      bytes := "Content-Length: " + Decimal(|json|) + "\r\n\r\n" + json;
      forall more ensures Parse(bytes + more) == Complete(json, more) {
        FrameIsComplete(json, more);
      }
    }
  }
}
