/** WebSocket frames as the bridge server writes and reads them (src/ide/IdeBridgeServer.ts; sections 5.2 and 5.3 of
    RFC 6455). Masking a byte with 0x0f, 0x80 or 0x7f is taken as arithmetic on its value. */
module WebSocketFrames {
  import opened Basics

  type Byte = n: int | 0 <= n < 256

  type Bytes = seq<Byte>

  // ------------------------------------------------------------------ big-endian numbers

  function Power256(width: nat): (r: nat)
    ensures r > 0
  {
    if width == 0 then 1 else 256 * Power256(width - 1)
  }

  function BigEndian(n: nat, width: nat): (r: Bytes)
    ensures |r| == width
  {
    if width == 0 then [] else BigEndian(n / 256, width - 1) + [n % 256]
  }

  function Value(bytes: Bytes): (r: nat)
  {
    if bytes == [] then 0 else Value(bytes[..|bytes| - 1]) * 256 + bytes[|bytes| - 1]
  }

  lemma {:induction false} ValueOfBigEndian(n: nat, width: nat)
    requires n < Power256(width)
    ensures Value(BigEndian(n, width)) == n
  {
    if width > 0 {
      ValueOfBigEndian(n / 256, width - 1);
      assert BigEndian(n, width)[..width - 1] == BigEndian(n / 256, width - 1);
    }
  }

  // --------------------------------------------------------------------------- masking

  /** Exclusive or of the low `bits` bits. */
  function XorBits(a: nat, b: nat, bits: nat): (r: nat)
  {
    if bits == 0 then 0
    else 2 * XorBits(a / 2, b / 2, bits - 1) + (if a % 2 == b % 2 then 0 else 1)
  }

  function Power2(bits: nat): (r: nat)
    ensures r > 0
  {
    if bits == 0 then 1 else 2 * Power2(bits - 1)
  }

  lemma {:induction false} XorIsSmall(a: nat, b: nat, bits: nat)
    ensures XorBits(a, b, bits) < Power2(bits)
  {
    if bits > 0 {
      XorIsSmall(a / 2, b / 2, bits - 1);
    }
  }

  lemma {:induction false} XorTwice(a: nat, b: nat, bits: nat)
    requires a < Power2(bits)
    ensures XorBits(XorBits(a, b, bits), b, bits) == a
  {
    if bits > 0 {
      XorTwice(a / 2, b / 2, bits - 1);
      var x := XorBits(a / 2, b / 2, bits - 1);
      assert XorBits(a, b, bits) / 2 == x;
    }
  }

  lemma EightBits()
    ensures Power2(8) == 256
  {
    assert Power2(4) == 16;
  }

  function Xor(a: Byte, b: Byte): (r: Byte)
  {
    XorIsSmall(a, b, 8);
    EightBits();
    XorBits(a, b, 8)
  }

  lemma XorUndoesItself(a: Byte, b: Byte)
    ensures Xor(Xor(a, b), b) == a
  {
    EightBits();
    XorTwice(a, b, 8);
  }

  /** Each byte with the mask's byte at its position modulo four; the same operation masks and unmasks. */
  function Masked(payload: Bytes, mask: Bytes): (r: Bytes)
    requires |mask| == 4
    ensures |r| == |payload|
  {
    seq(|payload|, i requires 0 <= i < |payload| => Xor(payload[i], mask[i % 4]))
  }

  lemma UnmaskingUndoesMasking(payload: Bytes, mask: Bytes)
    requires |mask| == 4
    ensures Masked(Masked(payload, mask), mask) == payload
  {
    forall i | 0 <= i < |payload| ensures Masked(Masked(payload, mask), mask)[i] == payload[i] {
      XorUndoesItself(payload[i], mask[i % 4]);
    }
  }

  // ------------------------------------------------------------------------- encoding

  /** The second header byte and the extended length: 7, 7+16 or 7+64 bits. */
  function LengthHeader(length: nat, maskBit: Byte): (r: Bytes)
    requires maskBit == 0 || maskBit == 128
  {
    if length < 126 then [maskBit + length]
    else if length < 65536 then [maskBit + 126] + BigEndian(length, 2)
    else [maskBit + 127] + BigEndian(length, 8)
  }

  const TEXT: Byte := 0x81

  function EncodeFrame(payload: Bytes): (r: Bytes)
  {
    [TEXT] + LengthHeader(|payload|, 0) + payload
  }

  /** The form a client sends: the mask follows the length, and the payload is masked with it. */
  function EncodeMaskedFrame(payload: Bytes, mask: Bytes): (r: Bytes)
    requires |mask| == 4
  {
    [TEXT] + LengthHeader(|payload|, 128) + mask + Masked(payload, mask)
  }

  // ------------------------------------------------------------------------- decoding

  datatype Message = Text(payload: Bytes) | Close

  /** One frame read off the front, or the offset the decoder had reached when the bytes ran out. */
  datatype Scan = Stopped(offset: nat) | Frame(opcode: Byte, payload: Bytes, offset: nat)

  /** The extended length, once the two fixed bytes are there. */
  datatype Length = Unknown | Known(length: nat, offset: nat)

  function ScanLength(b: Bytes): (r: Length)
    requires |b| >= 2
    ensures r.Known? ==> 2 <= r.offset <= |b|
  {
    var short := b[1] % 128;
    if short == 126 then (if |b| < 4 then Unknown else Known(Value(b[2..4]), 4))
    else if short == 127 then (if |b| < 10 then Unknown else Known(Value(b[2..10]), 10))
    else Known(short, 2)
  }

  function ScanPayload(b: Bytes, length: nat, offset: nat): (r: Scan)
    requires 2 <= offset <= |b|
    ensures r.Stopped? ==> 2 <= r.offset <= |b|
    ensures r.Frame? ==> 2 <= r.offset <= |b| && |r.payload| == length && r.offset >= offset + length
  {
    if b[1] >= 128 then
      if offset + 4 > |b| then Stopped(offset)
      else if offset + 4 + length > |b| then Stopped(offset + 4)
      else Frame(b[0] % 16, Masked(b[offset + 4..offset + 4 + length], b[offset..offset + 4]), offset + 4 + length)
    else if offset + length > |b| then Stopped(offset)
    else Frame(b[0] % 16, b[offset..offset + length], offset + length)
  }

  /** The header is stepped over before the frame is known to be complete. */
  function ScanFrame(b: Bytes): (r: Scan)
    ensures r.Stopped? ==> r.offset <= |b| && (r.offset == 0 <==> |b| < 2)
    ensures r.Frame? ==> 2 <= r.offset <= |b|
  {
    if |b| < 2 then Stopped(0)
    else
      var length := ScanLength(b);
      if length.Unknown? then Stopped(2) else ScanPayload(b, length.length, length.offset)
  }

  datatype Decoded = Decoded(messages: seq<Message>, rest: Bytes)

  function Shown(frame: Scan): (r: seq<Message>)
    requires frame.Frame?
  {
    if frame.opcode == 8 then [Close] else if frame.opcode == 1 then [Text(frame.payload)] else []
  }

  function Decode(b: Bytes): (r: Decoded)
    decreases |b|
  {
    var frame := ScanFrame(b);
    if frame.Stopped? then Decoded([], b[frame.offset..])
    else
      var later := Decode(b[frame.offset..]);
      Decoded(Shown(frame) + later.messages, later.rest)
  }

  // ----------------------------------------------------------------------- round trips

  lemma LengthIsRead(b: Bytes, length: nat, maskBit: Byte)
    requires maskBit == 0 || maskBit == 128
    requires length < Power256(8) && 1 + |LengthHeader(length, maskBit)| <= |b|
    requires b[1..1 + |LengthHeader(length, maskBit)|] == LengthHeader(length, maskBit)
    ensures ScanLength(b) == Known(length, 1 + |LengthHeader(length, maskBit)|)
    ensures b[1] >= 128 <==> maskBit == 128
  {
    var header := LengthHeader(length, maskBit);
    assert b[1] == header[0];
    if 126 <= length < 65536 {
      assert b[2..4] == header[1..];
      assert Power256(2) == 65536;
      ValueOfBigEndian(length, 2);
    } else if length >= 65536 {
      assert b[2..10] == header[1..];
      ValueOfBigEndian(length, 8);
    }
  }

  lemma FrameIsRead(payload: Bytes, more: Bytes)
    requires |payload| < Power256(8)
    ensures ScanFrame(EncodeFrame(payload) + more) == Frame(1, payload, |EncodeFrame(payload)|)
  {
    var b, header := EncodeFrame(payload) + more, LengthHeader(|payload|, 0);
    assert b[1..1 + |header|] == header;
    LengthIsRead(b, |payload|, 0);
    assert b[1 + |header|..1 + |header| + |payload|] == payload;
  }

  lemma MaskedFrameIsRead(payload: Bytes, mask: Bytes, more: Bytes)
    requires |payload| < Power256(8) && |mask| == 4
    ensures ScanFrame(EncodeMaskedFrame(payload, mask) + more) == Frame(1, payload, |EncodeMaskedFrame(payload, mask)|)
  {
    var b, header := EncodeMaskedFrame(payload, mask) + more, LengthHeader(|payload|, 128);
    var masked := Masked(payload, mask);
    assert b[1..1 + |header|] == header;
    LengthIsRead(b, |payload|, 128);
    var start := 1 + |header|;
    assert b[start..start + 4] == mask;
    assert b[start + 4..start + 4 + |payload|] == masked;
    UnmaskingUndoesMasking(payload, mask);
  }

  /** A frame to be sent, with a mask or without. */
  datatype Outgoing = Plain(payload: Bytes) | WithMask(payload: Bytes, mask: Bytes)

  predicate Sendable(f: Outgoing)
  {
    |f.payload| < Power256(8) && (f.WithMask? ==> |f.mask| == 4)
  }

  function Encode(f: Outgoing): (r: Bytes)
    requires Sendable(f)
  {
    if f.Plain? then EncodeFrame(f.payload) else EncodeMaskedFrame(f.payload, f.mask)
  }

  function EncodeAll(frames: seq<Outgoing>): (r: Bytes)
    requires forall i | 0 <= i < |frames| :: Sendable(frames[i])
  {
    if frames == [] then [] else Encode(frames[0]) + EncodeAll(frames[1..])
  }

  function Payloads(frames: seq<Outgoing>): (r: seq<Message>)
  {
    seq(|frames|, i requires 0 <= i < |frames| => Text(frames[i].payload))
  }

  lemma DecodeStep(first: Bytes, more: Bytes, payload: Bytes)
    requires ScanFrame(first + more) == Frame(1, payload, |first|)
    ensures Decode(first + more) == After([Text(payload)], Decode(more))
  {
    assert (first + more)[|first|..] == more;
  }

  /** Whole frames, masked or not and of any length form, decode to their payloads in order, with nothing left over. */
  lemma {:induction false} FramesRoundTrip(frames: seq<Outgoing>)
    requires forall i | 0 <= i < |frames| :: Sendable(frames[i])
    ensures Decode(EncodeAll(frames)) == Decoded(Payloads(frames), [])
  {
    if frames != [] {
      var first, more := Encode(frames[0]), EncodeAll(frames[1..]);
      EncodedIsRead(frames[0], more);
      FramesRoundTrip(frames[1..]);
      DecodeStep(first, more, frames[0].payload);
      PayloadsFirst(frames);
    }
  }

  lemma EncodedIsRead(f: Outgoing, more: Bytes)
    requires Sendable(f)
    ensures ScanFrame(Encode(f) + more) == Frame(1, f.payload, |Encode(f)|)
  {
    if f.Plain? {
      FrameIsRead(f.payload, more);
    } else {
      MaskedFrameIsRead(f.payload, f.mask, more);
    }
  }

  lemma PayloadsFirst(frames: seq<Outgoing>)
    requires frames != []
    ensures Payloads(frames) == [Text(frames[0].payload)] + Payloads(frames[1..])
  {
  }

  // ------------------------------------------------------- what a cut inside a frame does

  /** An incomplete frame is kept for the next chunk exactly when not even its two fixed bytes have come. */
  lemma PartialFrameIsKeptIff(b: Bytes)
    requires ScanFrame(b).Stopped?
    ensures Decode(b).rest == b <==> |b| < 2
  {
    if |b| >= 2 {
      assert |Decode(b).rest| < |b|;
    } else {
      assert b[0..] == b;
    }
  }

  /** Two chunks, as the server reads them: the leftover of the first is put before the second. */
  function DecodeTwo(first: Bytes, second: Bytes): (r: Decoded)
  {
    var one := Decode(first);
    var two := Decode(one.rest + second);
    Decoded(one.messages + two.messages, two.rest)
  }

  /** No frame can carry a payload in fewer bytes than `EncodeFrame` uses. */
  lemma EncodingIsShortest(b: Bytes)
    requires ScanFrame(b).Frame?
    ensures ScanFrame(b).offset >= |EncodeFrame(ScanFrame(b).payload)|
  {
    var length := ScanLength(b);
    if b[1] % 128 == 126 {
      TwoByteValue(b[2..4]);
    }
  }

  lemma TwoByteValue(bytes: Bytes)
    requires |bytes| == 2
    ensures Value(bytes) < 65536
  {
    assert bytes[..1][..0] == [];
    assert Value(bytes[..1]) == Value([]) * 256 + bytes[0];
  }

  lemma {:induction false} ShorterBytesCannotCarry(b: Bytes, payload: Bytes)
    requires |b| < |EncodeFrame(payload)|
    ensures Text(payload) !in Decode(b).messages
    decreases |b|
  {
    var frame := ScanFrame(b);
    if frame.Frame? {
      EncodingIsShortest(b);
      ShorterBytesCannotCarry(b[frame.offset..], payload);
    }
  }

  function HeaderOf(f: Outgoing): (r: Bytes)
  {
    LengthHeader(|f.payload|, if f.Plain? then 0 else 128)
  }

  /** How far the decoder has stepped into a frame of which `k` bytes have come: over the two fixed bytes, then over the
      extended length if it is whole, then over the mask if it is whole. */
  function Stepped(f: Outgoing, k: nat): (r: nat)
    requires k >= 2
    ensures 2 <= r <= k
  {
    var bare := 1 + |HeaderOf(f)|;
    if k < bare then 2 else if f.Plain? || k < bare + 4 then bare else bare + 4
  }

  lemma CutInsideStops(f: Outgoing, k: nat)
    requires Sendable(f) && 2 <= k < |Encode(f)|
    ensures ScanFrame(Encode(f)[..k]) == Stopped(Stepped(f, k))
  {
    var frame, header := Encode(f), HeaderOf(f);
    var b := frame[..k];
    HeaderInFrame(f);
    if k >= 1 + |header| {
      SliceOfPrefix(frame, 1, 1 + |header|, k);
      LengthIsRead(b, |f.payload|, if f.Plain? then 0 else 128);
    }
  }

  lemma SliceOfSlice(b: Bytes, i: nat, k: nat)
    requires i <= k <= |b|
    ensures b[..k][i..] + b[k..] == b[i..]
  {
  }

  /** A frame, masked or not, cut in two: it decodes as if whole when the cut leaves fewer than two bytes in front or is no
      cut, and otherwise what is decoded is the frame without the header bytes that were stepped over. */
  lemma CutFrameLosesHeader(f: Outgoing, k: nat)
    requires Sendable(f) && k <= |Encode(f)|
    ensures var frame := Encode(f);
            DecodeTwo(frame[..k], frame[k..]) == Decode(if k < 2 || k == |frame| then frame else frame[Stepped(f, k)..])
  {
    var frame := Encode(f);
    OneFrameDecodes(f);
    var one := Decode(frame[..k]);
    if k < 2 {
      assert one == Decoded([], frame[..k]);
      assert frame[..k] + frame[k..] == frame;
      assert [] + Decode(frame).messages == Decode(frame).messages;
    } else if k == |frame| {
      assert frame[..k] == frame && frame[k..] == [];
      assert Decode([]) == Decoded([], []);
    } else {
      CutInsideStops(f, k);
      var n := Stepped(f, k);
      assert one == Decoded([], frame[..k][n..]);
      SliceOfSlice(frame, n, k);
      assert [] + Decode(frame[n..]).messages == Decode(frame[n..]).messages;
    }
  }

  /** For an unmasked frame the bytes that are left are too few to carry the payload, so it decodes as if whole exactly when
      the cut leaves fewer than two bytes in front, or is no cut. */
  lemma CutFrameDecodesIff(payload: Bytes, k: nat)
    requires |payload| < Power256(8) && k <= |EncodeFrame(payload)|
    ensures var frame := EncodeFrame(payload);
            DecodeTwo(frame[..k], frame[k..]) == Decode(frame) <==> k < 2 || k == |frame|
  {
    var frame := EncodeFrame(payload);
    CutFrameLosesHeader(Plain(payload), k);
    OneFrameDecodes(Plain(payload));
    if 2 <= k < |frame| {
      ShorterBytesCannotCarry(frame[Stepped(Plain(payload), k)..], payload);
      assert Text(payload) in Decode(frame).messages;
    }
  }

  const IMITATION: Bytes := [0x82, 0, 0x81, 0]

  /** For a masked frame they may still spell it, so the equivalence does not carry over: this mask, read as frames, is one
      that is skipped and one with the payload. */
  lemma MaskMayImitateFrame()
    ensures var frame := EncodeMaskedFrame([], IMITATION);
            DecodeTwo(frame[..2], frame[2..]) == Decode(frame)
  {
    var f := WithMask([], IMITATION);
    CutFrameLosesHeader(f, 2);
    OneFrameDecodes(f);
    EmptyMaskedFrame(IMITATION);
    ImitationDecodes(IMITATION);
  }

  lemma EmptyMaskedFrame(mask: Bytes)
    requires |mask| == 4
    ensures EncodeMaskedFrame([], mask)[2..] == mask && |EncodeMaskedFrame([], mask)| == 6
    ensures Stepped(WithMask([], mask), 2) == 2
  {
    assert LengthHeader(0, 128) == [128];
  }

  lemma ImitationDecodes(b: Bytes)
    requires |b| == 4 && b[0] == 0x82 && b[1] == 0 && b[2] == 0x81 && b[3] == 0
    ensures Decode(b) == Decoded([Text([])], [])
  {
    BareFrame(b, 0x82);
    BareFrame(b[2..], 0x81);
    DecodeNothing(b[2..][2..]);
  }

  lemma DecodeNothing(b: Bytes)
    requires b == []
    ensures Decode(b) == Decoded([], [])
  {
  }

  /** A frame without payload or mask. */
  lemma BareFrame(b: Bytes, first: Byte)
    requires |b| >= 2 && b[0] == first && b[1] == 0
    ensures Decode(b) == After(Shown(Frame(first % 16, [], 2)), Decode(b[2..]))
  {
    assert b[2..2] == [];
  }

  lemma HeaderInFrame(f: Outgoing)
    requires Sendable(f)
    ensures var frame, header := Encode(f), HeaderOf(f);
            && |frame| == 1 + |header| + |f.payload| + (if f.Plain? then 0 else 4) && |header| >= 1
            && frame[1] == header[0] && frame[1..1 + |header|] == header
  {
  }

  lemma SliceOfPrefix(b: Bytes, i: nat, j: nat, k: nat)
    requires i <= j <= k <= |b|
    ensures b[..k][i..j] == b[i..j]
  {
  }

  /** One frame by itself. */
  lemma OneFrameDecodes(f: Outgoing)
    requires Sendable(f)
    ensures Decode(Encode(f)) == Decoded([Text(f.payload)], [])
  {
    var frames := [f];
    FramesRoundTrip(frames);
    assert frames[1..] == [];
    assert EncodeAll(frames) == Encode(f) + EncodeAll([]);
    assert Encode(f) + [] == Encode(f);
    assert Payloads(frames) == [Text(f.payload)];
  }

  // ------------------------------------------------------------------------- the loops

  method EncodeText(payload: Bytes) returns (frame: Bytes)
    requires |payload| < Power256(8)
    ensures frame == EncodeFrame(payload)
    ensures Decode(frame) == Decoded([Text(payload)], [])
  {
    var header: Bytes;
    if |payload| < 126 {
      header := [0x81, |payload|];
    } else if |payload| < 65536 {
      header := [0x81, 126] + BigEndian(|payload|, 2);
    } else {
      header := [0x81, 127] + BigEndian(|payload|, 8);
    }
    assert header == [TEXT] + LengthHeader(|payload|, 0);
    frame := header + payload;
    OneFrameDecodes(Plain(payload));
  }

  /** The two fixed bytes and the extended length of the frame at `start`. */
  method ReadLength(buffer: Bytes, start: nat) returns (known: bool, length: nat, offset: nat)
    requires start + 2 <= |buffer|
    ensures start + 2 <= offset <= |buffer|
    ensures known ==> ScanLength(buffer[start..]) == Known(length, offset - start)
    ensures !known ==> ScanLength(buffer[start..]).Unknown? && offset == start + 2
  {
    ghost var b := buffer[start..];
    length := buffer[start + 1] % 128;
    offset := start + 2;
    known := true;
    if length == 126 {
      if offset + 2 > |buffer| {
        return false, length, offset;
      }
      assert b[2..4] == buffer[offset..offset + 2];
      length := Value(buffer[offset..offset + 2]);
      offset := offset + 2;
    } else if length == 127 {
      if offset + 8 > |buffer| {
        return false, length, offset;
      }
      assert b[2..10] == buffer[offset..offset + 8];
      length := Value(buffer[offset..offset + 8]);
      offset := offset + 8;
    }
  }

  /** The mask and the payload behind a header that ends at `from`. */
  method ReadPayload(buffer: Bytes, start: nat, length: nat, from: nat)
    returns (complete: bool, payload: Bytes, offset: nat)
    requires start + 2 <= from <= |buffer|
    ensures start + 2 <= offset <= |buffer|
    ensures ScanPayload(buffer[start..], length, from - start)
         == if complete then Frame(buffer[start] % 16, payload, offset - start) else Stopped(offset - start)
  {
    ghost var b := buffer[start..];
    offset := from;
    var masked := buffer[start + 1] >= 128;
    var mask: Bytes := [];
    if masked {
      if offset + 4 > |buffer| {
        return false, [], offset;
      }
      mask := buffer[offset..offset + 4];
      assert b[offset - start..offset + 4 - start] == mask;
      offset := offset + 4;
    }
    if offset + length > |buffer| {
      return false, [], offset;
    }
    payload := buffer[offset..offset + length];
    assert b[offset - start..offset - start + length] == payload;
    offset := offset + length;
    if masked {
      payload := Masked(payload, mask);
    }
    complete := true;
  }

  /** One turn of the loop: the frame at `start`, or where its bytes ran out. */
  method ReadFrame(buffer: Bytes, start: nat) returns (scan: Scan)
    requires start + 2 <= |buffer|
    ensures scan == ScanFrame(buffer[start..])
  {
    var opcode := buffer[start] % 16;
    var known, length, from := ReadLength(buffer, start);
    if !known {
      return Stopped(from - start);
    }
    var complete, payload, end := ReadPayload(buffer, start, length, from);
    scan := if complete then Frame(opcode, payload, end - start) else Stopped(end - start);
  }

  /** What has been decoded up to `offset`, and what the rest will give, make up the whole. */
  predicate InProgress(buffer: Bytes, messages: seq<Message>, offset: nat)
  {
    offset <= |buffer| && Decode(buffer) == After(messages, Decode(buffer[offset..]))
  }

  lemma ProgressStarts(buffer: Bytes)
    ensures InProgress(buffer, [], 0)
  {
    assert buffer[0..] == buffer;
    assert [] + Decode(buffer).messages == Decode(buffer).messages;
  }

  lemma ProgressStops(buffer: Bytes, messages: seq<Message>, offset: nat)
    requires InProgress(buffer, messages, offset) && ScanFrame(buffer[offset..]).Stopped?
    ensures Decode(buffer) == Decoded(messages, buffer[offset + ScanFrame(buffer[offset..]).offset..])
  {
    assert buffer[offset..][ScanFrame(buffer[offset..]).offset..] == buffer[offset + ScanFrame(buffer[offset..]).offset..];
    assert messages + [] == messages;
  }

  lemma ProgressGoesOn(buffer: Bytes, messages: seq<Message>, offset: nat)
    requires InProgress(buffer, messages, offset) && ScanFrame(buffer[offset..]).Frame?
    ensures var frame := ScanFrame(buffer[offset..]);
            InProgress(buffer, messages + Shown(frame), offset + frame.offset)
  {
    var frame := ScanFrame(buffer[offset..]);
    assert buffer[offset..][frame.offset..] == buffer[offset + frame.offset..];
    AfterTwice(messages, Shown(frame), Decode(buffer[offset + frame.offset..]));
  }

  /** The decoder's loop: `offset` moves over each frame, and over what was read of the one that is incomplete. */
  method DecodeFrames(buffer: Bytes) returns (messages: seq<Message>, rest: Bytes)
    ensures Decoded(messages, rest) == Decode(buffer)
  {
    messages := [];
    var offset := 0;
    ProgressStarts(buffer);
    while offset + 2 <= |buffer|
      invariant InProgress(buffer, messages, offset)
      decreases |buffer| - offset
    {
      var scan := ReadFrame(buffer, offset);
      if scan.Stopped? {
        ProgressStops(buffer, messages, offset);
        return messages, buffer[offset + scan.offset..];
      }
      ProgressGoesOn(buffer, messages, offset);
      messages := messages + Shown(scan);
      offset := offset + scan.offset;
    }
    ProgressStops(buffer, messages, offset);
    rest := buffer[offset..];
  }

  function After(messages: seq<Message>, later: Decoded): (r: Decoded)
  {
    Decoded(messages + later.messages, later.rest)
  }

  lemma AfterTwice(first: seq<Message>, second: seq<Message>, later: Decoded)
    ensures After(first, After(second, later)) == After(first + second, later)
  {
    assert first + (second + later.messages) == (first + second) + later.messages;
  }
}
