/** What the decoder makes of any bytes, in terms of the frames of section 5.2 of RFC 6455 (src/ide/IdeBridgeServer.ts). */
module WebSocketMeaning {
  import opened Basics
  import opened WebSocketFrames

  /** The three ways of writing a length. */
  datatype Form = Short | Medium | Long

  /** A frame on the wire: its first byte, the form of its length, its mask if any, and its payload before masking. */
  datatype Wire = Wire(first: Byte, form: Form, mask: Option<Bytes>, payload: Bytes)

  predicate WireOk(w: Wire)
  {
    && (w.mask.Some? ==> |w.mask.value| == 4)
    && (match w.form
        case Short => |w.payload| < 126
        case Medium => |w.payload| < 0x1_0000
        case Long => |w.payload| < 0x1_0000_0000_0000_0000)
  }

  function LengthCode(w: Wire): (r: Byte)
    requires WireOk(w)
  {
    (if w.mask.Some? then 128 else 0) + (match w.form case Short => |w.payload| case Medium => 126 case Long => 127)
  }

  function ExtendedLength(w: Wire): (r: Bytes)
  {
    match w.form
    case Short => []
    case Medium => BigEndian(|w.payload|, 2)
    case Long => BigEndian(|w.payload|, 8)
  }

  function MaskAndPayload(w: Wire): (r: Bytes)
    requires WireOk(w)
  {
    if w.mask.Some? then w.mask.value + Masked(w.payload, w.mask.value) else w.payload
  }

  function WireBytes(w: Wire): (r: Bytes)
    requires WireOk(w)
  {
    [w.first, LengthCode(w)] + ExtendedLength(w) + MaskAndPayload(w)
  }

  predicate AllOk(wires: seq<Wire>)
  {
    forall i | 0 <= i < |wires| :: WireOk(wires[i])
  }

  function AllBytes(wires: seq<Wire>): (r: Bytes)
    requires AllOk(wires)
  {
    if wires == [] then [] else WireBytes(wires[0]) + AllBytes(wires[1..])
  }

  /** A text frame gives its text, a close frame a close, any other frame nothing. */
  function MessagesOf(wires: seq<Wire>): (r: seq<Message>)
  {
    if wires == [] then []
    else if wires[0].first % 16 == 1 then [Text(wires[0].payload)] + MessagesOf(wires[1..])
    else if wires[0].first % 16 == 8 then [Close] + MessagesOf(wires[1..])
    else MessagesOf(wires[1..])
  }

  /** The bytes do not begin with a whole frame. */
  ghost predicate NoWholeFrame(b: Bytes)
  {
    forall w: Wire | WireOk(w) :: !(WireBytes(w) <= b)
  }

  /** How much of an unfinished frame the decoder steps over: the two fixed bytes once they are there, then the extended
      length once it is there, then the mask once it is there. */
  function HeaderLost(b: Bytes): (r: nat)
    ensures r <= |b|
  {
    if |b| < 2 then 0
    else
      var extended := if b[1] % 128 == 126 then 2 else if b[1] % 128 == 127 then 8 else 0;
      if |b| < 2 + extended then 2
      else if b[1] >= 128 && |b| >= 2 + extended + 4 then 2 + extended + 4
      else 2 + extended
  }

  // ---------------------------------------------------------------------- masking

  function Bit(a: nat, k: nat): (r: nat)
  {
    if k == 0 then a % 2 else Bit(a / 2, k - 1)
  }

  lemma {:induction false} BitOfXor(a: nat, b: nat, bits: nat, k: nat)
    requires k < bits
    ensures Bit(XorBits(a, b, bits), k) == if Bit(a, k) == Bit(b, k) then 0 else 1
    decreases bits
  {
    var low := if a % 2 == b % 2 then 0 else 1;
    var high := XorBits(a / 2, b / 2, bits - 1);
    assert XorBits(a, b, bits) == 2 * high + low;
    if k > 0 {
      assert (2 * high + low) / 2 == high;
      BitOfXor(a / 2, b / 2, bits - 1, k - 1);
    } else {
      assert (2 * high + low) % 2 == low;
      assert a % 2 == 0 || a % 2 == 1;
    }
  }

  /** Masking flips exactly the bits that are set in the mask's byte at the position modulo four. */
  lemma MaskingFlipsBits(payload: Bytes, mask: Bytes, i: nat, k: nat)
    requires |mask| == 4 && i < |payload| && k < 8
    ensures Bit(Masked(payload, mask)[i], k) == if Bit(mask[i % 4], k) == 0 then Bit(payload[i], k) else 1 - Bit(payload[i], k)
  {
    BitOfXor(payload[i], mask[i % 4], 8, k);
    BitIsBinary(payload[i], k);
    BitIsBinary(mask[i % 4], k);
  }

  lemma {:induction false} BitIsBinary(a: nat, k: nat)
    ensures Bit(a, k) == 0 || Bit(a, k) == 1
  {
    if k > 0 {
      BitIsBinary(a / 2, k - 1);
    }
  }

  // ------------------------------------------------------------------- one frame

  lemma {:induction false} BigEndianOfValue(bytes: Bytes)
    ensures BigEndian(WebSocketFrames.Value(bytes), |bytes|) == bytes
  {
    if bytes != [] {
      var front, last := bytes[..|bytes| - 1], bytes[|bytes| - 1];
      BigEndianOfValue(front);
      assert WebSocketFrames.Value(bytes) / 256 == WebSocketFrames.Value(front) && WebSocketFrames.Value(bytes) % 256 == last;
    }
  }

  lemma {:induction false} ValueIsBounded(bytes: Bytes)
    ensures WebSocketFrames.Value(bytes) < Power256(|bytes|)
  {
    if bytes != [] {
      ValueIsBounded(bytes[..|bytes| - 1]);
    }
  }

  lemma Powers()
    ensures Power256(2) == 0x1_0000 && Power256(8) == 0x1_0000_0000_0000_0000
  {
    assert Power256(4) == 0x1_0000_0000;
  }

  lemma WireLengthIsRead(w: Wire, b: Bytes)
    requires WireOk(w) && |b| >= 2 + |ExtendedLength(w)| && b[1] == LengthCode(w)
    requires b[2..2 + |ExtendedLength(w)|] == ExtendedLength(w)
    ensures ScanLength(b) == Known(|w.payload|, 2 + |ExtendedLength(w)|)
    ensures b[1] >= 128 <==> w.mask.Some?
  {
    Powers();
    match w.form
    case Short =>
    case Medium => ValueOfBigEndian(|w.payload|, 2);
    case Long => ValueOfBigEndian(|w.payload|, 8);
  }

  lemma WirePayloadIsRead(w: Wire, b: Bytes, offset: nat, more: Bytes)
    requires WireOk(w) && 2 <= offset <= |b| && (b[1] >= 128 <==> w.mask.Some?)
    requires b[offset..] == MaskAndPayload(w) + more
    ensures ScanPayload(b, |w.payload|, offset) == Frame(b[0] % 16, w.payload, offset + |MaskAndPayload(w)|)
  {
    var n := |w.payload|;
    if w.mask.Some? {
      assert b[offset..][..4] == w.mask.value;
      assert b[offset..][4..4 + n] == Masked(w.payload, w.mask.value);
      assert b[offset..offset + 4] == b[offset..][..4];
      assert b[offset + 4..offset + 4 + n] == b[offset..][4..4 + n];
      UnmaskingUndoesMasking(w.payload, w.mask.value);
    } else {
      assert b[offset..][..n] == w.payload;
      assert b[offset..offset + n] == b[offset..][..n];
    }
  }

  /** A whole frame is read back, whatever follows. */
  lemma WireIsRead(w: Wire, more: Bytes)
    requires WireOk(w)
    ensures ScanFrame(WireBytes(w) + more) == Frame(w.first % 16, w.payload, |WireBytes(w)|)
  {
    var b := WireBytes(w) + more;
    var offset := 2 + |ExtendedLength(w)|;
    assert b[0] == w.first && b[1] == LengthCode(w);
    assert b[2..offset] == ExtendedLength(w);
    assert b[offset..] == MaskAndPayload(w) + more;
    WireLengthIsRead(w, b);
    WirePayloadIsRead(w, b, offset, more);
  }

  /** The frame that is read off the front of some bytes. */
  function WireAt(b: Bytes): (r: Wire)
    requires ScanFrame(b).Frame?
  {
    var length := ScanLength(b);
    Wire(b[0],
         if b[1] % 128 == 126 then Medium else if b[1] % 128 == 127 then Long else Short,
         if b[1] >= 128 then Some(b[length.offset..length.offset + 4]) else None,
         ScanFrame(b).payload)
  }

  lemma ReadLengthIsWire(b: Bytes)
    requires ScanFrame(b).Frame?
    ensures var w, length := WireAt(b), ScanLength(b);
            && length.Known? && |w.payload| == length.length && WireOk(w) && b[1] == LengthCode(w)
            && b[2..length.offset] == ExtendedLength(w)
  {
    var length := ScanLength(b);
    Powers();
    ValueIsBounded(b[2..length.offset]);
    BigEndianOfValue(b[2..length.offset]);
  }

  /** The part behind the length, read and written again. */
  lemma ReadPayloadIsWire(b: Bytes)
    requires ScanFrame(b).Frame?
    ensures var w, start, end := WireAt(b), ScanLength(b), ScanFrame(b).offset;
            && WireOk(w) && start.Known? && start.offset <= end <= |b| && b[start.offset..end] == MaskAndPayload(w)
  {
    var w, start, end := WireAt(b), ScanLength(b).offset, ScanFrame(b).offset;
    ReadLengthIsWire(b);
    if w.mask.Some? {
      UnmaskingUndoesMasking(b[start + 4..end], w.mask.value);
      SplitSlice(b, start, start + 4, end);
    }
  }

  lemma SplitSlice(b: Bytes, i: nat, j: nat, k: nat)
    requires i <= j <= k <= |b|
    ensures b[i..k] == b[i..j] + b[j..k]
  {
  }

  lemma ReadIsWire(b: Bytes)
    requires ScanFrame(b).Frame?
    ensures WireOk(WireAt(b)) && b == WireBytes(WireAt(b)) + b[ScanFrame(b).offset..]
    ensures ScanFrame(b).opcode == WireAt(b).first % 16 && ScanFrame(b).payload == WireAt(b).payload
  {
    ReadLengthIsWire(b);
    ReadPayloadIsWire(b);
    FourPieces(b, ScanLength(b).offset, ScanFrame(b).offset);
  }

  lemma FourPieces(b: Bytes, start: nat, end: nat)
    requires 2 <= start <= end <= |b|
    ensures b == [b[0], b[1]] + b[2..start] + b[start..end] + b[end..]
  {
  }

  /** Where the decoder stops, no whole frame stands, and it has stepped over the header as far as it came. */
  lemma StopMeans(b: Bytes)
    requires ScanFrame(b).Stopped?
    ensures NoWholeFrame(b) && ScanFrame(b).offset == HeaderLost(b)
  {
    forall w: Wire | WireOk(w) ensures !(WireBytes(w) <= b) {
      if WireBytes(w) <= b {
        assert b == WireBytes(w) + b[|WireBytes(w)|..];
        WireIsRead(w, b[|WireBytes(w)|..]);
        assert false;
      }
    }
  }

  /** The extended length is written with its most significant byte first. */
  lemma MostSignificantFirst(w: Wire)
    requires WireOk(w)
    ensures var e, n := ExtendedLength(w), |w.payload|;
            && (w.form.Medium? ==> |e| == 2 && n == Horner(0, e[0], e[1]))
            && (w.form.Long? ==> |e| == 8 && n == Horner(Horner(Horner(Horner(0, e[0], e[1]), e[2], e[3]), e[4], e[5]), e[6], e[7]))
  {
    Powers();
    var e := ExtendedLength(w);
    if w.form.Medium? {
      ValueOfBigEndian(|w.payload|, 2);
      TwoDigits(e);
    } else if w.form.Long? {
      ValueOfBigEndian(|w.payload|, 8);
      TwoDigits(e[..2]);
      TwoMoreDigits(e[..4]);
      TwoMoreDigits(e[..6]);
      TwoMoreDigits(e);
      assert e[..4][..2] == e[..2] && e[..6][..4] == e[..4];
    }
  }

  /** Two digits to the base 256 below a leading number. */
  function Horner(high: nat, a: nat, b: nat): (r: nat)
  {
    (high * 256 + a) * 256 + b
  }

  lemma TwoDigits(bytes: Bytes)
    requires |bytes| == 2
    ensures WebSocketFrames.Value(bytes) == Horner(0, bytes[0], bytes[1])
  {
    TwoMoreDigits(bytes);
  }

  lemma TwoMoreDigits(bytes: Bytes)
    requires |bytes| >= 2
    ensures WebSocketFrames.Value(bytes)
         == (WebSocketFrames.Value(bytes[..|bytes| - 2]) * 256 + bytes[|bytes| - 2]) * 256 + bytes[|bytes| - 1]
  {
    var front := bytes[..|bytes| - 1];
    assert front[..|front| - 1] == bytes[..|bytes| - 2];
  }

  /** Any bytes are some whole frames, in order, and a tail that does not begin with one. The decoder gives the text of each
      text frame and a close for each close frame, skips the others, and keeps the tail without as much of its header as it
      had stepped over. */
  lemma {:induction false} DecodingMeans(b: Bytes) returns (wires: seq<Wire>, tail: Bytes)
    ensures AllOk(wires) && b == AllBytes(wires) + tail && NoWholeFrame(tail)
    ensures Decode(b) == Decoded(MessagesOf(wires), tail[HeaderLost(tail)..])
    decreases |b|
  {
    var scan := ScanFrame(b);
    if scan.Stopped? {
      StopMeans(b);
      wires, tail := [], b;
    } else {
      ReadIsWire(b);
      var later;
      later, tail := DecodingMeans(b[scan.offset..]);
      wires := [WireAt(b)] + later;
      OneMoreFrame(b, WireAt(b), later, tail);
    }
  }

  lemma OneMoreFrame(b: Bytes, w: Wire, later: seq<Wire>, tail: Bytes)
    requires ScanFrame(b).Frame? && WireOk(w) && AllOk(later)
    requires b == WireBytes(w) + b[ScanFrame(b).offset..] && b[ScanFrame(b).offset..] == AllBytes(later) + tail
    requires ScanFrame(b).opcode == w.first % 16 && ScanFrame(b).payload == w.payload
    requires Decode(b[ScanFrame(b).offset..]) == Decoded(MessagesOf(later), tail[HeaderLost(tail)..])
    ensures AllOk([w] + later) && b == AllBytes([w] + later) + tail
    ensures Decode(b) == Decoded(MessagesOf([w] + later), tail[HeaderLost(tail)..])
  {
    BytesOfMore(w, later, tail);
    MessagesOfMore(w, later);
  }

  lemma BytesOfMore(w: Wire, later: seq<Wire>, tail: Bytes)
    requires WireOk(w) && AllOk(later)
    ensures AllOk([w] + later) && AllBytes([w] + later) + tail == WireBytes(w) + (AllBytes(later) + tail)
  {
    assert ([w] + later)[1..] == later;
  }

  lemma MessagesOfMore(w: Wire, later: seq<Wire>)
    ensures MessagesOf([w] + later)
         == (if w.first % 16 == 1 then [Text(w.payload)] else if w.first % 16 == 8 then [Close] else []) + MessagesOf(later)
  {
    assert ([w] + later)[1..] == later;
    assert [] + MessagesOf(later) == MessagesOf(later);
  }
}
