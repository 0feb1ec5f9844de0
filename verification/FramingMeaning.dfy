/** What the reader of the Debug Adapter Protocol's base protocol makes of a stream, in the protocol's own terms
    (src/dap/DapClient.ts). */
module FramingMeaning {
  import opened Basics
  import opened DapFraming

  /** An empty line stands at this place. */
  predicate BreakAt(s: string, i: nat)
  {
    i + 4 <= |s| && s[i..i + 4] == "\r\n\r\n"
  }

  /** The header ends at the first empty line. */
  predicate EndsHeader(buffer: string, end: nat)
  {
    BreakAt(buffer, end) && forall i: nat | i < end :: !BreakAt(buffer, i)
  }

  lemma {:induction false} HeaderEndMeans(buffer: string)
    ensures HeaderEnd(buffer).Some? ==> EndsHeader(buffer, HeaderEnd(buffer).value)
    ensures HeaderEnd(buffer).None? ==> forall i: nat :: !BreakAt(buffer, i)
    decreases |buffer|
  {
    if |buffer| >= 4 {
      assert BreakAt(buffer, 0) <==> StartsWithSeparator(buffer);
      if !StartsWithSeparator(buffer) {
        HeaderEndMeans(buffer[1..]);
        forall i: nat | i > 0 ensures BreakAt(buffer, i) <==> BreakAt(buffer[1..], i - 1) {
          if i + 4 <= |buffer| {
            assert buffer[i..i + 4] == buffer[1..][i - 1..i + 3];
          }
        }
      }
    }
  }

  /** The letter, in either case. */
  predicate SameLetter(c: char, lower: char)
  {
    c == lower || ('a' <= lower <= 'z' && c == lower - 'a' + 'A')
  }

  /** From `p` on: the field's name in any case, white space up to `q`, and then digits, all there are, up to `r`. */
  predicate FieldAt(header: string, p: nat, q: nat, r: nat)
  {
    && p + 15 <= q < r <= |header|
    && (forall i | 0 <= i < 15 :: SameLetter(header[p + i], "content-length:"[i]))
    && (forall i | p + 15 <= i < q :: header[i] in " \t\r\n" || header[i] as int == 11 || header[i] as int == 12)
    && (forall i | q <= i < r :: '0' <= header[i] <= '9')
    && (r < |header| ==> !('0' <= header[r] <= '9'))
  }

  ghost predicate FieldFrom(header: string, p: nat)
  {
    exists q: nat, r: nat :: FieldAt(header, p, q, r)
  }

  /** The header announces this length: it is the number in the first such field. */
  ghost predicate Announces(header: string, n: nat)
  {
    exists p: nat, q: nat, r: nat :: NumberAt(header, p, q, r, n) && NoneBefore(header, p)
  }

  predicate NumberAt(header: string, p: nat, q: nat, r: nat, n: nat)
  {
    FieldAt(header, p, q, r) && n == Value(header[q..r])
  }

  ghost predicate NoneBefore(header: string, p: nat)
  {
    forall i: nat | i < p :: !FieldFrom(header, i)
  }

  // ------------------------------------------------------------------- one header

  /** How many leading characters are white space, and how many digits follow. */
  lemma {:induction false} SkippedSpace(s: string)
    ensures |SkipSpace(s)| <= |s| && SkipSpace(s) == s[|s| - |SkipSpace(s)|..]
    ensures forall i | 0 <= i < |s| - |SkipSpace(s)| :: IsSpace(s[i])
    ensures SkipSpace(s) != [] ==> !IsSpace(SkipSpace(s)[0])
    decreases |s|
  {
    if s != [] && IsSpace(s[0]) {
      SkippedSpace(s[1..]);
      var n := |s| - |SkipSpace(s)|;
      assert s[1..][n - 1..] == s[n..];
      forall i | 0 <= i < n ensures IsSpace(s[i]) {
        if i > 0 { assert s[i] == s[1..][i - 1]; }
      }
    }
  }

  lemma {:induction false} TakenDigits(s: string)
    ensures |LeadingDigits(s)| <= |s| && LeadingDigits(s) == s[..|LeadingDigits(s)|]
    ensures |LeadingDigits(s)| < |s| ==> !IsDigit(s[|LeadingDigits(s)|])
    decreases |s|
  {
    if s != [] && IsDigit(s[0]) {
      TakenDigits(s[1..]);
      assert s == [s[0]] + s[1..];
    }
  }

  lemma NameMeans(header: string)
    requires |header| >= 15
    ensures NamesField(header) <==> forall i | 0 <= i < 15 :: SameLetter(header[i], "content-length:"[i])
  {
    assert |FIELD| == 15;
    forall i | 0 <= i < 15 ensures Lower(header[i]) == FIELD[i] <==> SameLetter(header[i], "content-length:"[i]) {
      var f := FIELD[i];
      assert f in "content-length:";
    }
  }

  /** The field right at the start of a header, if any, is the one that is read. */
  lemma FieldAtStart(header: string)
    requires |header| >= 15
    ensures LengthAt(header).Some? ==>
              exists q: nat, r: nat :: NumberAt(header, 0, q, r, LengthAt(header).value)
    ensures LengthAt(header).None? ==> !FieldFrom(header, 0)
  {
    var s := header[15..];
    var t := SkipSpace(s);
    var digits := LeadingDigits(t);
    var q := |header| - |t|;
    var r := q + |digits|;
    NameMeans(header);
    SkippedSpace(s);
    TakenDigits(t);
    assert s[|s| - |t|..] == header[q..];
    assert header[q..][..|digits|] == header[q..r];
    forall i | 15 <= i < q ensures IsSpace(header[i]) {
      assert header[i] == s[i - 15];
    }
    if LengthAt(header).Some? {
      forall i | q <= i < r ensures IsDigit(header[i]) {
        assert header[i] == digits[i - q];
      }
      assert r < |header| ==> header[r] == t[|digits|];
      assert NumberAt(header, 0, q, r, LengthAt(header).value);
    }
    forall k: nat, l: nat | FieldAt(header, 0, k, l) ensures NamesField(header) && digits != [] {
      SpaceEndsThere(header, q, k);
      assert header[k] == t[0];
    }
  }

  /** White space followed by a digit ends where skipping it ends. */
  lemma SpaceEndsThere(header: string, q: nat, k: nat)
    requires 15 <= q <= |header| && 15 <= k < |header| && IsDigit(header[k])
    requires forall i | 15 <= i < q :: IsSpace(header[i])
    requires forall i | 15 <= i < k :: IsSpace(header[i])
    requires q < |header| ==> !IsSpace(header[q])
    ensures k == q
  {
    assert !IsSpace(header[k]);
  }

  lemma FieldFurtherOn(header: string, p: nat, q: nat, r: nat)
    requires header != [] && p > 0 && q > 0 && r > 0
    ensures FieldAt(header, p, q, r) <==> FieldAt(header[1..], p - 1, q - 1, r - 1)
  {
    var later := header[1..];
    assert forall i | 0 <= i < |later| :: later[i] == header[i + 1];
    if FieldAt(later, p - 1, q - 1, r - 1) {
      forall i | 0 <= i < 15 ensures SameLetter(header[p + i], "content-length:"[i]) {
        assert header[p + i] == later[p - 1 + i];
      }
      forall i | p + 15 <= i < q ensures header[i] == later[i - 1] {}
      forall i | q <= i < r ensures header[i] == later[i - 1] {}
    }
  }

  lemma FieldsFurtherOn(header: string, p: nat)
    requires header != [] && p > 0
    ensures FieldFrom(header, p) <==> FieldFrom(header[1..], p - 1)
  {
    if FieldFrom(header, p) {
      var q: nat, r: nat :| FieldAt(header, p, q, r);
      FieldFurtherOn(header, p, q, r);
    }
    if FieldFrom(header[1..], p - 1) {
      var q: nat, r: nat :| FieldAt(header[1..], p - 1, q, r);
      FieldFurtherOn(header, p, q + 1, r + 1);
    }
  }

  /** The length of a header is the one it announces; there is none exactly when it has no such field. */
  lemma {:induction false} LengthMeans(header: string)
    ensures LengthIn(header).Some? ==> Announces(header, LengthIn(header).value)
    ensures LengthIn(header).None? ==> forall p: nat :: !FieldFrom(header, p)
    decreases |header|
  {
    if |header| >= 15 {
      FieldAtStart(header);
      if LengthAt(header).Some? {
        assert NoneBefore(header, 0);
      } else {
        LengthMeans(header[1..]);
        forall p: nat | p > 0 ensures FieldFrom(header, p) <==> FieldFrom(header[1..], p - 1) {
          FieldsFurtherOn(header, p);
        }
        if LengthIn(header).Some? {
          AnnouncedFurtherOn(header, LengthIn(header).value);
        }
      }
    }
  }

  lemma NoneFurtherOn(header: string, p: nat)
    requires header != [] && !FieldFrom(header, 0) && NoneBefore(header[1..], p)
    ensures NoneBefore(header, p + 1)
  {
    forall i: nat | i < p + 1 ensures !FieldFrom(header, i) {
      if i > 0 {
        FieldsFurtherOn(header, i);
      }
    }
  }

  lemma AnnouncedFurtherOn(header: string, n: nat)
    requires header != [] && !FieldFrom(header, 0) && Announces(header[1..], n)
    ensures Announces(header, n)
  {
    var later := header[1..];
    var p: nat, q: nat, r: nat :| NumberAt(later, p, q, r, n) && NoneBefore(later, p);
    NumberFurtherOn(header, p, q, r, n);
    NoneFurtherOn(header, p);
  }

  lemma NumberFurtherOn(header: string, p: nat, q: nat, r: nat, n: nat)
    requires header != [] && NumberAt(header[1..], p, q, r, n)
    ensures NumberAt(header, p + 1, q + 1, r + 1, n)
  {
    FieldFurtherOn(header, p + 1, q + 1, r + 1);
    assert header[1..][q..r] == header[q + 1..r + 1];
  }

  // -------------------------------------------------------------------- the stream

  /** Nothing can be taken off: there is no empty line, or fewer bytes behind it than announced. */
  ghost predicate Waits(buffer: string)
  {
    || (forall i: nat :: !BreakAt(buffer, i))
    || (exists end: nat, n: nat :: EndsHeader(buffer, end) && Announces(buffer[..end], n) && |buffer| < end + 4 + n)
  }

  /** The first item of a buffer is this event and leaves this rest. */
  ghost predicate FirstItem(handles: string -> bool, buffer: string, event: Event, rest: string)
  {
    match event
    case ProtocolError(header) =>
      && buffer == header + "\r\n\r\n" + rest && EndsHeader(buffer, |header|) && (forall p: nat :: !FieldFrom(header, p))
    case Message(payload) =>
      handles(payload) && exists header: string :: IsFrame(buffer, header, payload, rest)
    case Thrown(payload) =>
      !handles(payload) && exists header: string :: IsFrame(buffer, header, payload, rest)
  }

  ghost predicate IsFrame(buffer: string, header: string, payload: string, rest: string)
  {
    buffer == header + "\r\n\r\n" + payload + rest && EndsHeader(buffer, |header|) && Announces(header, |payload|)
  }

  /** The items of a stream in order: each event is the first item of what is left; a payload that cannot be handled is the
      last; otherwise what remains is waiting for more. */
  ghost predicate Reads(handles: string -> bool, buffer: string, events: seq<Event>, rest: string)
    decreases |events|
  {
    if events == [] then rest == buffer && Waits(buffer)
    else
      exists behind: string ::
        FirstItem(handles, buffer, events[0], behind)
        && if events[0].Thrown? then events[1..] == [] && rest == behind else Reads(handles, behind, events[1..], rest)
  }

  lemma HeaderThenRest(buffer: string, end: nat)
    requires EndsHeader(buffer, end)
    ensures buffer == buffer[..end] + "\r\n\r\n" + buffer[end + 4..]
  {
    assert buffer == buffer[..end] + buffer[end..end + 4] + buffer[end + 4..];
  }

  lemma FrameStands(buffer: string, end: nat, stop: nat)
    requires EndsHeader(buffer, end) && end + 4 <= stop <= |buffer| && Announces(buffer[..end], stop - end - 4)
    ensures IsFrame(buffer, buffer[..end], buffer[end + 4..stop], buffer[stop..])
  {
    HeaderThenRest(buffer, end);
    assert buffer[end + 4..] == buffer[end + 4..stop] + buffer[stop..];
  }

  lemma ParseMeans(handles: string -> bool, buffer: string)
    ensures var front := Parse(buffer);
            && (front.NeedMore? ==> Waits(buffer))
            && (front.Malformed? ==> FirstItem(handles, buffer, ProtocolError(front.header), front.rest))
            && (front.Complete? && handles(front.payload) ==> FirstItem(handles, buffer, Message(front.payload), front.rest))
            && (front.Complete? && !handles(front.payload) ==> FirstItem(handles, buffer, Thrown(front.payload), front.rest))
  {
    HeaderEndMeans(buffer);
    if HeaderEnd(buffer).Some? {
      var end := HeaderEnd(buffer).value;
      LengthMeans(buffer[..end]);
      if LengthIn(buffer[..end]).None? {
        HeaderThenRest(buffer, end);
      } else if |buffer| >= end + 4 + LengthIn(buffer[..end]).value {
        FrameStands(buffer, end, end + 4 + LengthIn(buffer[..end]).value);
      }
    }
  }

  /** One pass reports the items of the stream, all that are complete, up to the first payload that cannot be handled. */
  lemma {:induction false} PassReadsTheStream(handles: string -> bool, buffer: string)
    ensures Reads(handles, buffer, Drain(handles, buffer).events, Drain(handles, buffer).rest)
    decreases |buffer|
  {
    ParseMeans(handles, buffer);
    var front := Parse(buffer);
    var pass := Drain(handles, buffer);
    if front.Malformed? || (front.Complete? && handles(front.payload)) {
      PassReadsTheStream(handles, front.rest);
      var later := Drain(handles, front.rest);
      assert pass.events[1..] == later.events;
      assert FirstItem(handles, buffer, pass.events[0], front.rest);
    } else if front.Complete? {
      assert FirstItem(handles, buffer, pass.events[0], front.rest);
    }
  }
}
