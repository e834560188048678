/** The hand-written WebSocket framing of the TouchDesigner side (td/modules/utils/tdmcp_tunnel.py):
    an encoder of masked frames and a stream decoder, after RFC 6455 sections 5.2, 5.3 and 5.5.
    Bytes are integers; the bit operations on the two header bytes are written as arithmetic. */
module WsCodec {
  import opened Options

  type byte = x: int | 0 <= x < 256

  type Mask = m: seq<byte> | |m| == 4 witness [0, 0, 0, 0]

  const TWO_16: nat := 0x1_0000
  const TWO_64: nat := 0x1_0000_0000_0000_0000

  const OP_TEXT: nat := 1
  const OP_CLOSE: nat := 8
  const OP_PING: nat := 9
  const OP_PONG: nat := 10

  /** Exclusive or of the low `bits` bits. */
  function XorBits(a: nat, b: nat, bits: nat): nat {
    if bits == 0 then 0 else 2 * XorBits(a / 2, b / 2, bits - 1) + if a % 2 == b % 2 then 0 else 1
  }

  function Pow2(n: nat): (p: nat)
    ensures p > 0
  {
    if n == 0 then 1 else 2 * Pow2(n - 1)
  }

  lemma {:induction false} XorBound(a: nat, b: nat, bits: nat)
    ensures XorBits(a, b, bits) < Pow2(bits)
  {
    if bits > 0 {
      XorBound(a / 2, b / 2, bits - 1);
    }
  }

  lemma {:induction false} XorTwice(a: nat, m: nat, bits: nat)
    requires a < Pow2(bits)
    ensures XorBits(XorBits(a, m, bits), m, bits) == a
  {
    if bits > 0 {
      assert XorBits(a, m, bits) / 2 == XorBits(a / 2, m / 2, bits - 1);
      XorTwice(a / 2, m / 2, bits - 1);
    }
  }

  lemma {:induction false} EightBits()
    ensures Pow2(8) == 256
  {
    assert Pow2(8) == 2 * (2 * (2 * (2 * Pow2(4))));
  }

  function Xor(a: byte, b: byte): byte {
    XorBound(a, b, 8);
    EightBits();
    XorBits(a, b, 8)
  }

  /** Masking and unmasking are the same operation (section 5.3). */
  function Masked(payload: seq<byte>, mask: Mask): (masked: seq<byte>)
    ensures |masked| == |payload|
  {
    seq(|payload|, i requires 0 <= i < |payload| => Xor(payload[i], mask[i % 4]))
  }

  lemma {:induction false} MaskedTwice(payload: seq<byte>, mask: Mask)
    ensures Masked(Masked(payload, mask), mask) == payload
  {
    forall i | 0 <= i < |payload|
      ensures Masked(Masked(payload, mask), mask)[i] == payload[i]
    {
      EightBits();
      XorTwice(payload[i], mask[i % 4], 8);
    }
  }

  /** `struct.pack` of an unsigned integer in network byte order. */
  function BigEndian(n: nat, size: nat): (bytes: seq<byte>)
    ensures |bytes| == size
  {
    if size == 0 then [] else BigEndian(n / 256, size - 1) + [n % 256]
  }

  function FromBigEndian(bytes: seq<byte>): nat {
    if bytes == [] then 0 else 256 * FromBigEndian(bytes[..|bytes| - 1]) + bytes[|bytes| - 1]
  }

  function Pow256(size: nat): (p: nat)
    ensures p > 0
  {
    if size == 0 then 1 else 256 * Pow256(size - 1)
  }

  lemma {:induction false} BigEndianRoundTrip(n: nat, size: nat)
    requires n < Pow256(size)
    ensures FromBigEndian(BigEndian(n, size)) == n
  {
    if size > 0 {
      BigEndianRoundTrip(n / 256, size - 1);
      assert BigEndian(n, size)[..size - 1] == BigEndian(n / 256, size - 1);
    }
  }

  lemma {:induction false} FromBigEndianBound(bytes: seq<byte>)
    ensures FromBigEndian(bytes) < Pow256(|bytes|)
  {
    if bytes != [] {
      FromBigEndianBound(bytes[..|bytes| - 1]);
    }
  }

  lemma {:induction false} FieldSizes()
    ensures Pow256(2) == TWO_16 && Pow256(8) == TWO_64
  {
    assert Pow256(4) == 0x1_0000_0000;
    assert Pow256(8) == 256 * (256 * (256 * (256 * Pow256(4))));
  }

  // ---------- what the bytes mean ----------

  /** Bit `i` of `a`, the lowest being bit 0. */
  predicate Bit(a: nat, i: nat) {
    a / Pow2(i) % 2 == 1
  }

  lemma {:induction false} HalvedBit(a: nat, i: nat)
    ensures Bit(a, i + 1) <==> Bit(a / 2, i)
  {
    DividedTwice(a, 2, Pow2(i));
  }

  /** A multiple of `p` that is less than `p` away from zero. */
  lemma {:induction false} SmallMultiple(d: int, p: int)
    requires 0 < p && -p < d * p < p
    ensures d == 0
  {
    assert d >= 1 ==> (d - 1) * p >= 0;
    assert d <= -1 ==> (-1 - d) * p >= 0;
  }

  lemma {:induction false} DivisionIs(a: nat, p: nat, q: nat, r: nat)
    requires p > 0 && a == q * p + r && r < p
    ensures a / p == q
  {
    var d := a / p - q;
    assert a == a / p * p + a % p;
    assert d * p == a / p * p - q * p;
    SmallMultiple(d, p);
  }

  /** `m` times a quotient and remainder by `p`. */
  lemma {:induction false} TimesDivision(m: nat, q: nat, p: nat, r: nat)
    ensures m * (q * p + r) == q * (m * p) + m * r
  {
    assert q * (m * p) == m * (q * p);
    assert m * (q * p + r) == m * (q * p) + m * r;
  }

  lemma {:induction false} BelowProduct(m: nat, p: nat, r: nat, b: nat)
    requires r < p && b < m
    ensures m * r + b < m * p
  {
    var d := p - r;
    assert m * p == m * r + m * d;
    assert m * d == m + m * (d - 1);
    assert m * (d - 1) >= 0;
  }

  lemma {:induction false} Divides(a: nat, m: nat) returns (c: nat, b: nat)
    requires m > 0
    ensures c == a / m && b < m && a == m * c + b
  {
    c, b := a / m, a % m;
  }

  lemma {:induction false} DividedTwice(a: nat, m: nat, p: nat)
    requires m > 0 && p > 0
    ensures m * p > 0 && a / (m * p) == a / m / p
  {
    var c, b := Divides(a, m);
    var q, r := Divides(c, p);
    BelowProduct(m, p, r, b);
    TimesDivision(m, q, p, r);
    DivisionIs(a, m * p, q, m * r + b);
  }

  lemma {:induction false} LowestBit(a: nat)
    ensures Bit(a, 0) <==> a % 2 == 1
  {
    assert Pow2(0) == 1;
  }

  lemma {:induction false} XorBitsAt(a: nat, b: nat, bits: nat, i: nat)
    requires i < bits
    ensures Bit(XorBits(a, b, bits), i) <==> Bit(a, i) != Bit(b, i)
  {
    var x := XorBits(a, b, bits);
    LowestBit(x);
    LowestBit(a);
    LowestBit(b);
    if i > 0 {
      hide Bit;
      HalvedBit(x, i - 1);
      HalvedBit(a, i - 1);
      HalvedBit(b, i - 1);
      assert x / 2 == XorBits(a / 2, b / 2, bits - 1);
      XorBitsAt(a / 2, b / 2, bits - 1, i - 1);
    }
  }

  /** Exclusive or: a bit is set exactly if the two bits differ. */
  lemma {:induction false} XorAt(a: byte, b: byte, i: nat)
    requires i < 8
    ensures Bit(Xor(a, b), i) <==> Bit(a, i) != Bit(b, i)
  {
    XorBitsAt(a, b, 8, i);
  }

  /** Its bits determine a byte. */
  lemma {:induction false} SameBits(a: nat, b: nat, bits: nat)
    requires a < Pow2(bits) && b < Pow2(bits) && forall i: nat :: i < bits ==> (Bit(a, i) <==> Bit(b, i))
    ensures a == b
  {
    if bits > 0 {
      forall i: nat | i < bits - 1
        ensures Bit(a / 2, i) <==> Bit(b / 2, i)
      {
        HalvedBit(a, i);
        HalvedBit(b, i);
        assert Bit(a, i + 1) <==> Bit(b, i + 1);
      }
      SameBits(a / 2, b / 2, bits - 1);
      LowestBit(a);
      LowestBit(b);
    }
  }

  /** Network byte order: the byte `i` places from the right counts `256^i`. */
  lemma {:induction false} BigEndianAt(n: nat, size: nat, i: nat)
    requires i < size
    ensures BigEndian(n, size)[size - 1 - i] == n / Pow256(i) % 256
  {
    if i > 0 {
      BigEndianAt(n / 256, size - 1, i - 1);
      DividedTwice(n, 256, Pow256(i - 1));
    }
  }

  // ---------- frames on the wire ----------

  /** The three ways to write a payload length (section 5.2). */
  datatype Form = Short | Medium | Long

  predicate Fits(form: Form, n: nat) {
    match form
    case Short => n < 126
    case Medium => n < TWO_16
    case Long => n < TWO_64
  }

  function LengthField(form: Form, n: nat): seq<byte>
    requires Fits(form, n)
  {
    match form
    case Short => []
    case Medium => BigEndian(n, 2)
    case Long => BigEndian(n, 8)
  }

  datatype AnyWire = Wire(first: byte, form: Form, mask: Option<Mask>, payload: seq<byte>)

  /** Any frame a peer may send: `first` holds FIN, the reserved bits and the opcode, and the payload
      fits the length form. */
  type Wire = w: AnyWire | Fits(w.form, |w.payload|) witness Wire(0, Short, None, [])

  function SecondByte(w: Wire): byte {
    var marker := match w.form case Short => |w.payload| case Medium => 126 case Long => 127;
    if w.mask.Some? then 128 + marker else marker
  }

  function Encode(w: Wire): seq<byte> {
    var body := match w.mask case Some(m) => m + Masked(w.payload, m) case None => w.payload;
    [w.first, SecondByte(w)] + LengthField(w.form, |w.payload|) + body
  }

  /** The sender's choice of length form. */
  function FormFor(n: nat): (form: Form)
    ensures n < TWO_64 ==> Fits(form, n)
  {
    if n < 126 then Short else if n < TWO_16 then Medium else Long
  }

  /** `_ws_send_text`: `None` where `struct.pack` refuses the length. */
  function TextFrame(payload: seq<byte>, mask: Mask): Option<seq<byte>> {
    if |payload| < TWO_64 then Some(Encode(Wire(0x81, FormFor(|payload|), Some(mask), payload))) else None
  }

  /** The pong for a ping: this branch knows only the first two forms. */
  function PongFrame(payload: seq<byte>, mask: Mask): Option<seq<byte>> {
    if |payload| < TWO_16
    then Some(Encode(Wire(0x8A, if |payload| < 126 then Short else Medium, Some(mask), payload))) else None
  }

  lemma {:induction false} HeaderOf(first: byte, second: byte, field: seq<byte>, body: seq<byte>, rest: seq<byte>)
    ensures var s := [first, second] + field + body + rest;
      |s| >= 2 + |field| && s[0] == first && s[1] == second && s[2..2 + |field|] == field
  {
  }

  /** Where the mask starts: two bytes, and the length if it takes more than seven bits. */
  function HeadOf(n: nat): (head: nat)
    ensures head <= 10
  {
    if n < 126 then 2 else if n < 0x1_0000 then 4 else 10
  }

  /** A masked frame as section 5.2 lays it out: FIN and the opcode with the reserved bits clear, the mask bit and
      the length, in network byte order if it takes more than seven bits, the mask, and every payload bit changed
      exactly where the mask has a bit. */
  predicate LaidOut(frame: seq<byte>, opcode: nat, payload: seq<byte>, mask: Mask) {
    var n, head := |payload|, HeadOf(|payload|);
    && |frame| == head + 4 + n
    && Bit(frame[0], 7) && !Bit(frame[0], 6) && !Bit(frame[0], 5) && !Bit(frame[0], 4) && frame[0] % 16 == opcode
    && Bit(frame[1], 7) && frame[1] % 128 == (if n < 126 then n else if n < 0x1_0000 then 126 else 127)
    && (forall i: nat :: i < head - 2 ==> frame[head - 1 - i] == n / Pow256(i) % 256)
    && frame[head..head + 4] == mask
    && forall j: nat, i: nat :: j < n && i < 8 ==>
         (Bit(frame[head + 4 + j], i) <==> Bit(payload[j], i) != Bit(mask[j % 4], i))
  }

  lemma {:induction false} HighBits(b: byte)
    ensures Bit(b, 7) <==> b >= 128
    ensures b == 0x81 || b == 0x8A ==> !Bit(b, 6) && !Bit(b, 5) && !Bit(b, 4)
  {
    assert Pow2(4) == 16;
    assert Pow2(5) == 32;
    assert Pow2(6) == 64;
    assert Pow2(7) == 128;
  }

  lemma {:induction false} MaskedFrameIsLaidOut(first: byte, payload: seq<byte>, mask: Mask)
    requires |payload| < TWO_64 && (first == 0x81 || first == 0x8A)
    ensures LaidOut(Encode(Wire(first, FormFor(|payload|), Some(mask), payload)), first % 16, payload, mask)
  {
    hide Bit, Masked, BigEndian, Pow256, SecondByte;
    var w := Wire(first, FormFor(|payload|), Some(mask), payload);
    var frame, n, head := Encode(w), |payload|, HeadOf(|payload|);
    FrameParts(w, mask);
    SecondSays(w);
    HighBits(first);
    HighBits(SecondByte(w));
    forall i: nat | i < head - 2
      ensures frame[head - 1 - i] == n / Pow256(i) % 256
    {
      BigEndianAt(n, head - 2, i);
      assert frame[head - 1 - i] == frame[2..head][head - 3 - i];
    }
    forall j: nat, i: nat | j < n && i < 8
      ensures Bit(frame[head + 4 + j], i) <==> Bit(payload[j], i) != Bit(mask[j % 4], i)
    {
      assert frame[head + 4 + j] == frame[head + 4..][j];
      MaskedAt(payload, mask, j, i);
    }
  }

  lemma {:induction false} FrameParts(w: Wire, mask: Mask)
    requires w.mask == Some(mask) && w.form == FormFor(|w.payload|)
    ensures var frame, head := Encode(w), HeadOf(|w.payload|);
      && |frame| == head + 4 + |w.payload| && frame[0] == w.first && frame[1] == SecondByte(w)
      && frame[2..head] == LengthField(w.form, |w.payload|)
      && frame[head..head + 4] == mask && frame[head + 4..] == Masked(w.payload, mask)
  {
    hide Masked, BigEndian, SecondByte;
    var field, body := LengthField(w.form, |w.payload|), mask + Masked(w.payload, mask);
    HeaderOf(w.first, SecondByte(w), field, body, []);
    var frame, head := Encode(w), HeadOf(|w.payload|);
    assert frame == [w.first, SecondByte(w)] + field + body + [];
    assert frame[head..] == body;
    assert frame[head..head + 4] == body[..4] && frame[head + 4..] == body[4..];
  }

  lemma {:induction false} SecondSays(w: Wire)
    requires w.mask.Some? && w.form == FormFor(|w.payload|)
    ensures var n := |w.payload|;
      SecondByte(w) >= 128 && SecondByte(w) % 128 == if n < 126 then n else if n < 0x1_0000 then 126 else 127
  {
  }

  lemma {:induction false} MaskedAt(payload: seq<byte>, mask: Mask, j: nat, i: nat)
    requires j < |payload| && i < 8
    ensures Bit(Masked(payload, mask)[j], i) <==> Bit(payload[j], i) != Bit(mask[j % 4], i)
  {
    hide Bit;
    XorAt(payload[j], mask[j % 4], i);
  }

  /** So a text goes out as such a frame with opcode 1, up to the longest length that can be written, and a pong
      with opcode 10, up to two bytes of length. */
  lemma {:induction false} FramesAreLaidOut(payload: seq<byte>, mask: Mask)
    ensures TextFrame(payload, mask).Some? <==> |payload| < 0x1_0000_0000_0000_0000
    ensures TextFrame(payload, mask).Some? ==> LaidOut(TextFrame(payload, mask).value, 1, payload, mask)
    ensures PongFrame(payload, mask).Some? <==> |payload| < 0x1_0000
    ensures PongFrame(payload, mask).Some? ==> LaidOut(PongFrame(payload, mask).value, 10, payload, mask)
  {
    hide LaidOut, Encode;
    if |payload| < TWO_64 {
      MaskedFrameIsLaidOut(0x81, payload, mask);
      MaskedFrameIsLaidOut(0x8A, payload, mask);
    }
  }

  /** And whoever undoes the mask bit by bit has the payload back. */
  lemma {:induction false} UnmaskingGivesThePayload(frame: seq<byte>, opcode: nat, payload: seq<byte>, mask: Mask,
      back: seq<byte>)
    requires LaidOut(frame, opcode, payload, mask) && |back| == |payload|
    requires forall j: nat, i: nat :: j < |back| && i < 8 ==>
      (Bit(back[j], i) <==> Bit(frame[HeadOf(|back|) + 4 + j], i) != Bit(frame[HeadOf(|back|) + j % 4], i))
    ensures back == payload
  {
    hide Bit;
    var head := HeadOf(|payload|);
    forall j: nat | j < |payload|
      ensures back[j] == payload[j]
    {
      assert frame[head..head + 4][j % 4] == frame[head + j % 4];
      EightBits();
      forall i: nat | i < 8
        ensures Bit(back[j], i) <==> Bit(payload[j], i)
      {
        assert Bit(frame[head + 4 + j], i) <==> Bit(payload[j], i) != Bit(mask[j % 4], i);
      }
      SameBits(back[j], payload[j], 8);
    }
  }

  // ---------- the decoder ----------

  datatype Frame = Frame(opcode: nat, payload: seq<byte>)

  /** How many bytes follow the two header bytes as an extended length. */
  function ExtraLength(second: byte): nat {
    if second % 128 == 126 then 2 else if second % 128 == 127 then 8 else 0
  }

  /** The payload length, from the second header byte or the extended field. */
  function LengthIn(second: byte, field: seq<byte>): nat {
    if field == [] then second % 128 else FromBigEndian(field)
  }

  /** One frame off the front of the stream; `None` where the stream ends before the frame does. */
  function ReadFrame(s: seq<byte>): (r: Option<(Frame, seq<byte>)>)
    ensures r.Some? ==> |r.value.1| + 2 <= |s|
  {
    if |s| < 2 then None
    else
      var extra := ExtraLength(s[1]);
      if |s| < 2 + extra then None
      else ReadBody(s[2 + extra..], s[0] % 16, s[1] >= 128, LengthIn(s[1], s[2..2 + extra]))
  }

  /** The rest of a frame, after its length. */
  function ReadBody(s: seq<byte>, opcode: nat, masked: bool, length: nat): (r: Option<(Frame, seq<byte>)>)
    ensures r.Some? ==> |r.value.1| <= |s|
  {
    var start := if masked then 4 else 0;
    if |s| < start + length then None
    else
      var raw := s[start..start + length];
      Some((Frame(opcode, if masked then Masked(raw, s[..4]) else raw), s[start + length..]))
  }

  lemma {:induction false} ReadsHeader(w: Wire, rest: seq<byte>)
    ensures var s := Encode(w) + rest;
            var extra := ExtraLength(s[1]);
            && |s| >= 2 + extra && s[0] == w.first
            && extra == |LengthField(w.form, |w.payload|)|
            && s[2..2 + extra] == LengthField(w.form, |w.payload|)
            && (s[1] >= 128 <==> w.mask.Some?)
            && LengthIn(s[1], s[2..2 + extra]) == |w.payload|
  {
    hide Masked, BigEndian;
    var s := Encode(w) + rest;
    var field := LengthField(w.form, |w.payload|);
    var body := match w.mask case Some(m) => m + Masked(w.payload, m) case None => w.payload;
    HeaderOf(w.first, SecondByte(w), field, body, rest);
    FieldSizes();
    if w.form.Medium? {
      BigEndianRoundTrip(|w.payload|, 2);
    } else if w.form.Long? {
      BigEndianRoundTrip(|w.payload|, 8);
    }
  }

  /** The decoder undoes every legal encoding, whatever length form and mask the peer chose, and takes
      exactly the frame's bytes off the stream. */
  lemma {:induction false} DecodesEveryFrame(w: Wire, rest: seq<byte>)
    ensures ReadFrame(Encode(w) + rest) == Some((Frame(w.first % 16, w.payload), rest))
  {
    hide FromBigEndian, BigEndian, LengthField, LengthIn, Masked, SecondByte;
    ReadsHeader(w, rest);
    var s := Encode(w) + rest;
    var head := 2 + ExtraLength(s[1]);
    var length := |w.payload|;
    match w.mask {
      case Some(m) =>
        assert s[head..] == m + Masked(w.payload, m) + rest;
        assert s[head..][..4] == m;
        assert s[head..][4..4 + length] == Masked(w.payload, m);
        assert s[head..][4 + length..] == rest;
        MaskedTwice(w.payload, m);
      case None =>
        assert s[head..] == w.payload + rest;
        assert s[head..][0..length] == w.payload;
        assert s[head..][length..] == rest;
    }
  }

  /** The sender writes no longer a header than it must: no byte string that the decoder reads as one
      masked frame with this payload is shorter. */
  lemma {:induction false} SenderUsesTheShortestForm(payload: seq<byte>, mask: Mask, bytes: seq<byte>, opcode: nat)
    requires ReadFrame(bytes) == Some((Frame(opcode, payload), [])) && bytes[1] >= 128
    ensures TextFrame(payload, mask).Some? && |TextFrame(payload, mask).value| <= |bytes|
  {
    var extra := ExtraLength(bytes[1]);
    assert |bytes| == 2 + extra + 4 + |payload|;
    FieldSizes();
    FromBigEndianBound(bytes[2..2 + extra]);
    assert |bytes[2..2 + extra]| == extra;
    assert extra == 0 ==> |payload| < 126;
    assert extra == 2 ==> |payload| < TWO_16;
    assert extra == 8 ==> |payload| < TWO_64;
  }

  // ---------- the receiving loop ----------

  /** What a call of `_ws_recv_text` ends with: a text, a close frame, the end of the stream, or the
      `struct.error` of a pong whose length does not fit two bytes. */
  datatype Received = Text(payload: seq<byte>) | CloseFrame | SocketClosed | PongRefused

  /** The bytes still to come, the bytes sent so far, and how many masks were drawn. */
  datatype Link = Link(incoming: seq<byte>, outgoing: seq<byte>, drawn: nat)

  function RecvText(l: Link, draw: nat -> Mask): (Received, Link)
    decreases |l.incoming|
  {
    match ReadFrame(l.incoming)
    case None => (SocketClosed, l.(incoming := []))
    case Some((frame, rest)) =>
      var next := l.(incoming := rest);
      if frame.opcode == OP_CLOSE then (CloseFrame, next)
      else if frame.opcode == OP_PING then
        (match PongFrame(frame.payload, draw(l.drawn))
         case Some(pong) => RecvText(next.(outgoing := l.outgoing + pong, drawn := l.drawn + 1), draw)
         case None => (PongRefused, next))
      else if frame.opcode == OP_TEXT then (Text(frame.payload), next)
      else RecvText(next, draw)
  }

  /** `n` calls in a row. */
  function RecvTexts(l: Link, draw: nat -> Mask, n: nat): (seq<Received>, Link)
    decreases n
  {
    if n == 0 then ([], l)
    else
      var (first, after) := RecvText(l, draw);
      var (others, end) := RecvTexts(after, draw, n - 1);
      ([first] + others, end)
  }

  /** A frame that goes before a text without ending the call: neither text (opcode 1) nor close (8), and a ping (9)
      only as long as a pong can answer. */
  predicate Passed(w: Wire) {
    w.first % 16 != 1 && w.first % 16 != 8 && (w.first % 16 == 9 ==> |w.payload| < TWO_16)
  }

  function EncodeAll(ws: seq<Wire>): seq<byte> {
    if ws == [] then [] else Encode(ws[0]) + EncodeAll(ws[1..])
  }

  function Pings(ws: seq<Wire>): seq<seq<byte>> {
    if ws == [] then [] else (if ws[0].first % 16 == 9 then [ws[0].payload] else []) + Pings(ws[1..])
  }

  /** The pongs for these ping payloads, with the masks as they are drawn. */
  function Pongs(pings: seq<seq<byte>>, draw: nat -> Mask, drawn: nat): seq<byte> {
    if pings == [] then []
    else
      (match PongFrame(pings[0], draw(drawn)) case Some(pong) => pong case None => [])
      + Pongs(pings[1..], draw, drawn + 1)
  }

  datatype AnyDelivery = Delivery(before: seq<Wire>, payload: seq<byte>, mask: Mask)

  /** A text as the sender framed it, and what came before it on the stream. */
  type Delivery = d: AnyDelivery | (forall i :: 0 <= i < |d.before| ==> Passed(d.before[i])) && |d.payload| < TWO_64
    witness Delivery([], [], [0, 0, 0, 0])

  function Stream(ds: seq<Delivery>): seq<byte> {
    if ds == [] then []
    else EncodeAll(ds[0].before) + TextFrame(ds[0].payload, ds[0].mask).value + Stream(ds[1..])
  }

  function AllPings(ds: seq<Delivery>): seq<seq<byte>> {
    if ds == [] then [] else Pings(ds[0].before) + AllPings(ds[1..])
  }

  function Texts(ds: seq<Delivery>): seq<Received> {
    if ds == [] then [] else [Text(ds[0].payload)] + Texts(ds[1..])
  }

  /** A text ends the call. */
  lemma {:induction false} TextEndsTheCall(payload: seq<byte>, mask: Mask, rest: seq<byte>, sent: seq<byte>, drawn: nat,
                                          draw: nat -> Mask)
    requires |payload| < TWO_64
    ensures RecvText(Link(TextFrame(payload, mask).value + rest, sent, drawn), draw) ==
            (Text(payload), Link(rest, sent, drawn))
  {
    hide Encode, ReadFrame, FormFor;
    DecodesEveryFrame(Wire(0x81, FormFor(|payload|), Some(mask), payload), rest);
  }

  /** A passing frame is taken off the stream, and answered if it is a ping. */
  lemma {:induction false} PassesOne(w: Wire, later: seq<byte>, sent: seq<byte>, drawn: nat, draw: nat -> Mask)
    requires Passed(w)
    ensures w.first % 16 == OP_PING ==> PongFrame(w.payload, draw(drawn)).Some?
    ensures RecvText(Link(Encode(w) + later, sent, drawn), draw) ==
            RecvText(if w.first % 16 == OP_PING
                     then Link(later, sent + PongFrame(w.payload, draw(drawn)).value, drawn + 1)
                     else Link(later, sent, drawn), draw)
  {
    hide Encode, ReadFrame, FormFor;
    DecodesEveryFrame(w, later);
  }

  lemma {:induction false} PassesToTheText(ws: seq<Wire>, payload: seq<byte>, mask: Mask, rest: seq<byte>,
                                          sent: seq<byte>, drawn: nat, draw: nat -> Mask)
    requires forall i :: 0 <= i < |ws| ==> Passed(ws[i])
    requires |payload| < TWO_64
    ensures RecvText(Link(EncodeAll(ws) + TextFrame(payload, mask).value + rest, sent, drawn), draw) ==
            (Text(payload), Link(rest, sent + Pongs(Pings(ws), draw, drawn), drawn + |Pings(ws)|))
  {
    hide Encode, RecvText, PongFrame, Passed, Pongs, Pings, FormFor;
    var text := TextFrame(payload, mask).value;
    NoPongs(draw, drawn);
    if ws == [] {
      TextEndsTheCall(payload, mask, rest, sent, drawn, draw);
      NoPings(ws);
      assert [] + text + rest == text + rest;
      assert sent + [] == sent;
    } else {
      var w := ws[0];
      var later := EncodeAll(ws[1..]) + text + rest;
      Regroup(Encode(w), EncodeAll(ws[1..]), text, rest);
      PassesOne(w, later, sent, drawn, draw);
      PingsOfMore(ws, draw, drawn);
      if w.first % 16 == OP_PING {
        var pong := PongFrame(w.payload, draw(drawn)).value;
        PassesToTheText(ws[1..], payload, mask, rest, sent + pong, drawn + 1, draw);
        Regroup(sent, pong, Pongs(Pings(ws[1..]), draw, drawn + 1), []);
      } else {
        PassesToTheText(ws[1..], payload, mask, rest, sent, drawn, draw);
      }
    }
  }

  lemma {:induction false} Regroup(a: seq<byte>, b: seq<byte>, c: seq<byte>, d: seq<byte>)
    ensures (a + b) + c + d == a + (b + c + d)
    ensures (a + b) + c == a + (b + c)
  {
  }

  lemma {:induction false} PingsOfMore(ws: seq<Wire>, draw: nat -> Mask, drawn: nat)
    requires ws != [] && Passed(ws[0])
    ensures ws[0].first % 16 != OP_PING ==> Pings(ws) == Pings(ws[1..])
    ensures ws[0].first % 16 == OP_PING ==>
      && |Pings(ws)| == 1 + |Pings(ws[1..])|
      && PongFrame(ws[0].payload, draw(drawn)).Some?
      && Pongs(Pings(ws), draw, drawn)
         == PongFrame(ws[0].payload, draw(drawn)).value + Pongs(Pings(ws[1..]), draw, drawn + 1)
  {
    hide Encode;
    if ws[0].first % 16 == OP_PING {
      assert Pings(ws)[0] == ws[0].payload && Pings(ws)[1..] == Pings(ws[1..]);
    }
  }

  lemma {:induction false} NoPongs(draw: nat -> Mask, drawn: nat)
    ensures Pongs([], draw, drawn) == []
  {
  }

  lemma {:induction false} PongsConcatenate(a: seq<seq<byte>>, b: seq<seq<byte>>, draw: nat -> Mask, drawn: nat)
    ensures Pongs(a + b, draw, drawn) == Pongs(a, draw, drawn) + Pongs(b, draw, drawn + |a|)
  {
    hide PongFrame;
    if a == [] {
      assert a + b == b;
    } else {
      assert (a + b)[1..] == a[1..] + b;
      PongsConcatenate(a[1..], b, draw, drawn + 1);
    }
  }

  /** For any texts framed by the sender with any masks, with any passing frames between them, as many
      calls yield exactly the texts in order, take exactly these frames' bytes off the stream, and send
      one pong per ping, in order, and nothing else. */
  lemma {:induction false} ReceivesWhatWasSent(ds: seq<Delivery>, rest: seq<byte>, sent: seq<byte>, drawn: nat,
                                              draw: nat -> Mask)
    ensures RecvTexts(Link(Stream(ds) + rest, sent, drawn), draw, |ds|) ==
            (Texts(ds), Link(rest, sent + Pongs(AllPings(ds), draw, drawn), drawn + |AllPings(ds)|))
  {
    hide EncodeAll, TextFrame, RecvText, PongFrame, Pings, Pongs, Stream, RecvTexts;
    if ds == [] {
      NoPongs(draw, drawn);
      assert sent + [] == sent;
      NoCalls(rest, sent, drawn, draw);
    } else {
      var d := ds[0];
      var later := Stream(ds[1..]) + rest;
      StreamSplits(ds, rest);
      var pings := Pings(d.before);
      PassesToTheText(d.before, d.payload, d.mask, later, sent, drawn, draw);
      CallsInOrder(Link(Stream(ds) + rest, sent, drawn), draw, |ds|);
      var sentThen := sent + Pongs(pings, draw, drawn);
      ReceivesWhatWasSent(ds[1..], rest, sentThen, drawn + |pings|, draw);
      PongsConcatenate(pings, AllPings(ds[1..]), draw, drawn);
      Regroup(sent, Pongs(pings, draw, drawn), Pongs(AllPings(ds[1..]), draw, drawn + |pings|), []);
    }
  }

  lemma {:induction false} NoCalls(rest: seq<byte>, sent: seq<byte>, drawn: nat, draw: nat -> Mask)
    ensures RecvTexts(Link(Stream([]) + rest, sent, drawn), draw, 0) == ([], Link(rest, sent, drawn))
  {
    assert [] + rest == rest;
  }

  lemma {:induction false} StreamSplits(ds: seq<Delivery>, rest: seq<byte>)
    requires ds != []
    ensures Stream(ds) + rest
      == EncodeAll(ds[0].before) + TextFrame(ds[0].payload, ds[0].mask).value + (Stream(ds[1..]) + rest)
  {
    hide EncodeAll, TextFrame;
  }

  lemma {:induction false} CallsInOrder(l: Link, draw: nat -> Mask, n: nat)
    requires n > 0
    ensures var (first, after) := RecvText(l, draw);
      var (others, end) := RecvTexts(after, draw, n - 1);
      RecvTexts(l, draw, n) == ([first] + others, end)
  {
    hide RecvText;
  }

  /** Everything a reader finds in a byte string, frame by frame. */
  function ReadAll(s: seq<byte>): seq<Frame>
    decreases |s|
  {
    match ReadFrame(s)
    case Some((frame, rest)) => [frame] + ReadAll(rest)
    case None => []
  }

  /** What the peer reads back is one pong per ping, carrying the same payload, in the same order. */
  lemma {:induction false} PongsEchoPings(pings: seq<seq<byte>>, draw: nat -> Mask, drawn: nat)
    requires forall i :: 0 <= i < |pings| ==> |pings[i]| < TWO_16
    ensures ReadAll(Pongs(pings, draw, drawn)) == seq(|pings|, i requires 0 <= i < |pings| => Frame(OP_PONG, pings[i]))
  {
    hide Encode, ReadFrame;
    if pings != [] {
      var p := pings[0];
      PongsEchoPings(pings[1..], draw, drawn + 1);
      var pong := Wire(0x8A, if |p| < 126 then Short else Medium, Some(draw(drawn)), p);
      DecodesEveryFrame(pong, Pongs(pings[1..], draw, drawn + 1));
    }
  }

  /** A ping is answered exactly when its payload is shorter than 65536 bytes - every ping the standard
      allows; a longer one ends the call with an error and no pong. */
  lemma {:induction false} LongPingIsRefused(w: Wire, rest: seq<byte>, sent: seq<byte>, drawn: nat, draw: nat -> Mask)
    requires w.first % 16 == OP_PING
    ensures RecvText(Link(Encode(w) + rest, sent, drawn), draw) == (PongRefused, Link(rest, sent, drawn))
      <==> |w.payload| >= TWO_16
  {
    hide Encode, ReadFrame;
    DecodesEveryFrame(w, rest);
    if |w.payload| < TWO_16 {
      var pong := PongFrame(w.payload, draw(drawn)).value;
      DrawsOnlyMore(Link(rest, sent + pong, drawn + 1), draw);
    }
  }

  lemma {:induction false} DrawsOnlyMore(l: Link, draw: nat -> Mask)
    ensures RecvText(l, draw).1.drawn >= l.drawn
    decreases |l.incoming|
  {
    hide ReadFrame, PongFrame;
    match ReadFrame(l.incoming)
    case None =>
    case Some((frame, rest)) =>
      var next := l.(incoming := rest);
      if frame.opcode == OP_PING {
        var pong := PongFrame(frame.payload, draw(l.drawn));
        if pong.Some? {
          DrawsOnlyMore(next.(outgoing := l.outgoing + pong.value, drawn := l.drawn + 1), draw);
        }
      } else if frame.opcode != OP_CLOSE && frame.opcode != OP_TEXT {
        DrawsOnlyMore(next, draw);
      }
  }

  /** What follows the first fragment of a text up to the last one (section 5.4): continuation frames, and control
      frames between them. */
  predicate Fragments(more: seq<Wire>) {
    forall i :: 0 <= i < |more| ==> Passed(more[i]) && (more[i].first % 16 == 0 || more[i].first % 16 >= 8)
  }

  /** The payloads of the continuation frames. */
  function Continued(more: seq<Wire>): seq<byte> {
    if more == [] then []
    else (if more[0].first % 16 == 0 then more[0].payload else []) + Continued(more[1..])
  }

  lemma {:induction false} NothingContinued(more: seq<Wire>)
    ensures Continued(more) == [] <==> forall w :: w in more && w.first % 16 == 0 ==> w.payload == []
  {
    if more != [] {
      NothingContinued(more[1..]);
      assert more == [more[0]] + more[1..];
    }
  }

  /** The decoder ignores FIN and continuation frames: of a text that the peer cut into fragments only the first
      one is delivered, and the others pass unseen while the pings between them are answered. That is the text
      that was sent exactly if every continuation is empty. */
  lemma {:induction false} FragmentsAreNotJoined(start: Wire, more: seq<Wire>, next: seq<byte>, mask: Mask,
                              rest: seq<byte>, sent: seq<byte>, drawn: nat, draw: nat -> Mask)
    requires start.first == 1 && Fragments(more) && |next| < TWO_64
    ensures var stream := Encode(start) + (EncodeAll(more) + TextFrame(next, mask).value + rest);
            RecvTexts(Link(stream, sent, drawn), draw, 2) ==
            ([Text(start.payload), Text(next)],
             Link(rest, sent + Pongs(Pings(more), draw, drawn), drawn + |Pings(more)|))
    ensures start.payload == start.payload + Continued(more)
      <==> forall w :: w in more && w.first % 16 == 0 ==> w.payload == []
  {
    hide Encode, ReadFrame, RecvTexts, Continued, Pongs, Pings;
    var later := EncodeAll(more) + TextFrame(next, mask).value + rest;
    DecodesEveryFrame(start, later);
    PassesToTheText(more, next, mask, rest, sent, drawn, draw);
    TwoCalls(Link(Encode(start) + later, sent, drawn), draw);
    NothingContinued(more);
    assert Continued(more) != [] ==> |start.payload + Continued(more)| != |start.payload|;
    assert Continued(more) == [] ==> start.payload + Continued(more) == start.payload;
  }

  lemma {:induction false} TwoCalls(l: Link, draw: nat -> Mask)
    ensures var (first, after) := RecvText(l, draw);
            var (second, end) := RecvText(after, draw);
            RecvTexts(l, draw, 2) == ([first, second], end)
  {
    hide RecvText;
    var after := RecvText(l, draw).1;
    var (second, end) := RecvText(after, draw);
    assert RecvTexts(end, draw, 0).0 == [];
    assert [second] + RecvTexts(end, draw, 0).0 == [second];
    assert [RecvText(l, draw).0] + [second] == [RecvText(l, draw).0, second];
  }

  lemma {:induction false} NoPings(ws: seq<Wire>)
    requires forall i :: 0 <= i < |ws| ==> ws[i].first % 16 != OP_PING
    ensures Pings(ws) == []
  {
    if ws != [] {
      NoPings(ws[1..]);
    }
  }

  // ---------- the socket ----------

  class Socket {
    var incoming: seq<byte>
    var outgoing: seq<byte>
    var drawn: nat
    const draw: nat -> Mask

    function Value(): Link
      reads this
    {
      Link(incoming, outgoing, drawn)
    }

    constructor (incoming: seq<byte>, draw: nat -> Mask)
      ensures Value() == Link(incoming, [], 0) && this.draw == draw
    {
      this.incoming, this.outgoing, this.drawn, this.draw := incoming, [], 0, draw;
    }

    /** `sock.recv`: some nonempty piece of what is there, at most `n` bytes - which, nobody knows - or
        nothing once the peer has closed. */
    method Recv(n: nat) returns (chunk: seq<byte>)
      requires n > 0
      modifies this`incoming
      ensures chunk == [] <==> old(incoming) == []
      ensures |chunk| <= n && old(incoming) == chunk + incoming
    {
      if incoming == [] {
        return [];
      }
      var k: nat :| 1 <= k <= n && k <= |incoming|;
      chunk := incoming[..k];
      incoming := incoming[k..];
    }

    method RecvExact(n: nat) returns (bytes: Option<seq<byte>>)
      modifies this`incoming
      ensures bytes == if n <= |old(incoming)| then Some(old(incoming)[..n]) else None
      ensures incoming == if n <= |old(incoming)| then old(incoming)[n..] else []
    {
      var buf: seq<byte> := [];
      while |buf| < n
        invariant |buf| <= n && old(incoming) == buf + incoming
        decreases |incoming|, n - |buf|
      {
        var chunk := Recv(n - |buf|);
        if chunk == [] {
          return None;
        }
        buf := buf + chunk;
      }
      bytes := Some(buf);
    }

    /** The extended length, if the second header byte announces one. */
    method RecvLength(second: byte) returns (length: Option<nat>)
      modifies this`incoming
      ensures var extra := ExtraLength(second);
              if extra <= |old(incoming)| then
                incoming == old(incoming)[extra..] && length == Some(LengthIn(second, old(incoming)[..extra]))
              else incoming == [] && length == None
    {
      length := Some(second % 128);
      if second % 128 == 126 {
        var field := RecvExact(2);
        length := if field.Some? then Some(FromBigEndian(field.value)) else None;
      } else if second % 128 == 127 {
        var field := RecvExact(8);
        length := if field.Some? then Some(FromBigEndian(field.value)) else None;
      }
    }

    /** The mask, if there is one, and the payload. */
    method RecvBody(opcode: nat, isMasked: bool, length: nat) returns (r: Option<Frame>)
      modifies this`incoming
      ensures match ReadBody(old(incoming), opcode, isMasked, length)
              case Some((frame, rest)) => r == Some(frame) && incoming == rest
              case None => r == None && incoming == []
    {
      hide Masked;
      ghost var s := incoming;
      var mask: Mask := [0, 0, 0, 0];
      if isMasked {
        var m := RecvExact(4);
        if m.None? {
          return None;
        }
        mask := m.value;
      }
      ghost var start := if isMasked then 4 else 0;
      assert incoming == s[start..];
      var payload := RecvExact(length);
      if payload.None? {
        return None;
      }
      assert payload.value == s[start..start + length];
      r := Some(Frame(opcode, if isMasked then Masked(payload.value, mask) else payload.value));
    }

    /** The header, the length, the mask and the payload of one frame, each by `RecvExact`. */
    method RecvFrame() returns (r: Option<Frame>)
      modifies this`incoming
      ensures match ReadFrame(old(incoming))
              case Some((frame, rest)) => r == Some(frame) && incoming == rest
              case None => r == None && incoming == []
    {
      hide LengthIn, ReadBody;
      ghost var s := incoming;
      var hdr := RecvExact(2);
      if hdr.None? {
        return None;
      }
      var opcode := hdr.value[0] % 16;
      var isMasked := hdr.value[1] >= 128;
      ghost var extra := ExtraLength(hdr.value[1]);
      var length := RecvLength(hdr.value[1]);
      if length.None? {
        return None;
      }
      assert s[2..][..extra] == s[2..2 + extra];
      assert incoming == s[2 + extra..];
      r := RecvBody(opcode, isMasked, length.value);
    }

    method SendText(payload: seq<byte>) returns (ok: bool)
      modifies this`outgoing, this`drawn
      ensures ok <==> |payload| < TWO_64
      ensures outgoing == old(outgoing) + if ok then TextFrame(payload, draw(old(drawn))).value else []
    {
      var header: seq<byte> := [0x81];
      var n := |payload|;
      if n < 126 {
        header := header + [128 + n];
      } else if n < TWO_16 {
        header := header + [128 + 126] + BigEndian(n, 2);
      } else if n < TWO_64 {
        header := header + [128 + 127] + BigEndian(n, 8);
      } else {
        return false;
      }
      var mask := draw(drawn);
      drawn := drawn + 1;
      header := header + mask;
      assert header + Masked(payload, mask) == TextFrame(payload, mask).value;
      outgoing := outgoing + (header + Masked(payload, mask));
      ok := true;
    }

    /** The ping branch: a masked pong with the same payload, if its length fits two bytes. */
    method SendPong(payload: seq<byte>) returns (ok: bool)
      modifies this`outgoing, this`drawn
      ensures ok <==> PongFrame(payload, draw(old(drawn))).Some?
      ensures ok ==> drawn == old(drawn) + 1 && outgoing == old(outgoing) + PongFrame(payload, draw(old(drawn))).value
      ensures !ok ==> drawn == old(drawn) && outgoing == old(outgoing)
    {
      var n := |payload|;
      var header: seq<byte> := [0x8A];
      if n < 126 {
        header := header + [128 + n];
      } else if n < TWO_16 {
        header := header + [128 + 126] + BigEndian(n, 2);
      } else {
        return false;
      }
      var mask := draw(drawn);
      header := header + mask;
      assert header + Masked(payload, mask) == PongFrame(payload, mask).value;
      drawn := drawn + 1;
      outgoing := outgoing + (header + Masked(payload, mask));
      ok := true;
    }

    /** The loop of `_ws_recv_text`: however the stream was cut into chunks, the result is that of the
        byte string alone. */
    method RecvTextMessage() returns (r: Received)
      modifies this
      ensures (r, Value()) == RecvText(old(Value()), draw)
    {
      hide ReadFrame, PongFrame;
      while true
        invariant RecvText(Value(), draw) == RecvText(old(Value()), draw)
        decreases |incoming|
      {
        var next := RecvFrame();
        if next.None? {
          return SocketClosed;
        }
        var frame := next.value;
        if frame.opcode == OP_CLOSE {
          return CloseFrame;
        }
        if frame.opcode == OP_PING {
          var ok := SendPong(frame.payload);
          if !ok {
            return PongRefused;
          }
        } else if frame.opcode == OP_TEXT {
          return Text(frame.payload);
        }
      }
      assert false;
    }
  }
}
