// The ZMODEM wire format: link escapes, hex and binary headers, data
// subpackets and their checksums, and the encoders that write it.
module ZmodemWire {
  import Crc = ZmodemCrc
  import opened Bytes

  const ZPAD: Byte := 0x2A
  const ZDLE: Byte := 0x18
  const XON: Byte := 0x11
  const XOFF: Byte := 0x13
  const CR: Byte := 0x0D
  const AT: Byte := 0x40

  // After a ZDLE, how a data subpacket ends.
  const ZCRCE: Byte := 0x68
  const ZCRCG: Byte := 0x69
  const ZCRCQ: Byte := 0x6A
  const ZCRCW: Byte := 0x6B

  const ZACK: Byte := 3
  const ZFIN: Byte := 8

  // What a channel read gives: a byte, or one of these.
  type Symbol = x: int | -2 <= x < 256

  const TIMEOUT: Symbol := -1
  const CLOSED: Symbol := -2

  // What reading one byte through the escapes can give besides a byte.
  const FRAME_END_BASE: int := 0x100
  const GOT_CANCEL: int := 0x200

  predicate IsFrameEnd(b: int) {
    b == ZCRCE || b == ZCRCG || b == ZCRCQ || b == ZCRCW
  }

  // The line's own flow control, in either parity.
  predicate IsFlowControl(b: int) {
    b == 0x11 || b == 0x13 || b == 0x91 || b == 0x93
  }

  // ---- Bits of a byte ----

  // b & 0x7F
  function LowSeven(b: Byte): Byte {
    b % 128
  }

  // (b & 0x60) == 0
  predicate IsControl(b: Byte) {
    b % 128 < 32
  }

  // (b & 0x60) == 0x40
  predicate IsEscapeLetter(b: Byte) {
    64 <= b % 128 < 96
  }

  // b ^ 0x40
  function Flip(b: Byte): Byte {
    if b % 128 < 64 then b + 64 else b - 64
  }

  // ---- Headers ----

  datatype Header = Header(kind: Byte, b0: Byte, b1: Byte, b2: Byte, b3: Byte)

  const TWO_32: nat := 0x1_0000_0000

  function Position(h: Header): nat {
    h.b0 + 0x100 * h.b1 + 0x1_0000 * h.b2 + 0x100_0000 * h.b3
  }

  // Only the low 32 bits of a position fit.
  function PositionHeader(kind: Byte, position: nat): Header {
    Header(kind, position % 256, (position / 0x100) % 256, (position / 0x1_0000) % 256, (position / 0x100_0000) % 256)
  }

  lemma PositionRoundTrip(kind: Byte, position: nat)
    ensures Position(PositionHeader(kind, position)) == position % TWO_32
    ensures position < TWO_32 ==> Position(PositionHeader(kind, position)) == position
  {
    var q1, q2, q3 := position / 0x100, position / 0x1_0000, position / 0x100_0000;
    assert position == 256 * q1 + position % 256;
    assert q2 == q1 / 256 && q3 == q2 / 256;
    assert q1 == 256 * q2 + q1 % 256 && q2 == 256 * q3 + q2 % 256;
    var high := position / TWO_32;
    assert high == q3 / 256 && q3 == 256 * high + q3 % 256;
    assert position == TWO_32 * high + Position(PositionHeader(kind, position));
  }

  function Body(h: Header): seq<Byte> {
    [h.kind, h.b0, h.b1, h.b2, h.b3]
  }

  function HeaderOf(body: seq<Byte>): Header
    requires |body| == 5
  {
    Header(body[0], body[1], body[2], body[3], body[4])
  }

  // ---- Checksums of byte strings ----

  function Bits(data: seq<Byte>): seq<bv8> {
    seq(|data|, i requires 0 <= i < |data| => data[i] as bv8)
  }

  function Crc16Of(data: seq<Byte>): (c: nat)
    ensures c < 0x1_0000
  {
    Crc.Crc16(Bits(data), 0) as int
  }

  function Crc32Of(data: seq<Byte>): (c: nat)
    ensures c < TWO_32
  {
    Crc.Crc32(Bits(data)) as int
  }

  // The checksum as it is sent: the short one high byte first, the long one
  // low byte first.
  function CheckBytes(data: seq<Byte>, long: bool): (check: seq<Byte>)
    ensures |check| == CheckSize(long)
  {
    if long then LongBytes(Crc32Of(data)) else ShortBytes(Crc16Of(data))
  }

  function LongBytes(c: nat): seq<Byte> {
    [c % 256, (c / 0x100) % 256, (c / 0x1_0000) % 256, (c / 0x100_0000) % 256]
  }

  function ShortBytes(c: nat): seq<Byte>
    requires c < 0x1_0000
  {
    [c / 256, c % 256]
  }

  function CheckSize(long: bool): nat {
    if long then 4 else 2
  }

  // ---- Writing ----

  predicate NeedsEscape(b: Byte, escapeControls: bool, previous: Byte) {
    || b == ZDLE
    || LowSeven(b) == 0x10 || LowSeven(b) == 0x11 || LowSeven(b) == 0x13
    || (escapeControls && IsControl(b))
    || (LowSeven(b) == CR && LowSeven(previous) == AT)
  }

  function Escape(b: Byte, escapeControls: bool, previous: Byte): seq<Byte> {
    if NeedsEscape(b, escapeControls, previous) then [ZDLE, Flip(b)] else [b]
  }

  // What counts as the previous byte afterwards: the one last sent.
  function Sent(b: Byte, escapeControls: bool, previous: Byte): Byte {
    if NeedsEscape(b, escapeControls, previous) then Flip(b) else b
  }

  function EscapeAll(data: seq<Byte>, escapeControls: bool, previous: Byte): seq<Byte> {
    if data == [] then []
    else Escape(data[0], escapeControls, previous)
         + EscapeAll(data[1..], escapeControls, Sent(data[0], escapeControls, previous))
  }

  function SentAll(data: seq<Byte>, escapeControls: bool, previous: Byte): Byte {
    if data == [] then previous
    else SentAll(data[1..], escapeControls, Sent(data[0], escapeControls, previous))
  }

  function HexDigit(v: int): Byte
    requires 0 <= v < 16
  {
    if v < 10 then 0x30 + v else 0x61 + (v - 10)
  }

  function HexByte(b: Byte): seq<Byte> {
    [HexDigit(b / 16), HexDigit(b % 16)]
  }

  function HexAll(data: seq<Byte>): seq<Byte> {
    if data == [] then [] else HexByte(data[0]) + HexAll(data[1..])
  }

  // What follows a hex header's digits.
  function HexTrailer(kind: Byte): seq<Byte> {
    [CR, 0x8A] + if kind != ZFIN && kind != ZACK then [XON] else []
  }

  function HexHeaderBytes(h: Header): seq<Byte> {
    [ZPAD, ZPAD, ZDLE, 0x42] + HexAll(Body(h) + CheckBytes(Body(h), false)) + HexTrailer(h.kind)
  }

  function BinaryHeaderBytes(h: Header, long: bool, escapeControls: bool): seq<Byte> {
    [ZPAD, ZDLE, if long then 0x43 else 0x41]
    + EscapeAll(Body(h) + CheckBytes(Body(h), long), escapeControls, 0)
  }

  // A subpacket carrying `check` for its checksum.
  function SubpacketBytes(data: seq<Byte>, end: Byte, check: seq<Byte>, escapeControls: bool): seq<Byte> {
    EscapeAll(data, escapeControls, 0) + [ZDLE, end]
    + EscapeAll(check, escapeControls, SentAll(data, escapeControls, 0))
  }

  function SubpacketTrailer(end: Byte): seq<Byte> {
    if end == ZCRCW then [XON] else []
  }

  function DataSubpacketBytes(data: seq<Byte>, end: Byte, long: bool, escapeControls: bool): seq<Byte> {
    SubpacketBytes(data, end, CheckBytes(data + [end], long), escapeControls) + SubpacketTrailer(end)
  }

  method PutEscaped(out: seq<Byte>, b: Byte, escapeControls: bool, previous: Byte)
    returns (r: seq<Byte>, last: Byte)
    ensures r == out + Escape(b, escapeControls, previous) && last == Sent(b, escapeControls, previous)
  {
    var plain := LowSeven(b);
    var escape := b == ZDLE || plain == 0x10 || plain == 0x11 || plain == 0x13 ||
                  (escapeControls && IsControl(b)) || (plain == 0x0D && LowSeven(previous) == 0x40);
    last := b;
    r := out;
    if escape {
      r := r + [ZDLE];
      last := Flip(b);
    }
    r := r + [last];
  }

  method PutAllEscaped(out: seq<Byte>, data: seq<Byte>, escapeControls: bool, previous: Byte)
    returns (r: seq<Byte>, last: Byte)
    ensures r == out + EscapeAll(data, escapeControls, previous) && last == SentAll(data, escapeControls, previous)
  {
    r, last := out, previous;
    for i := 0 to |data|
      invariant r + EscapeAll(data[i..], escapeControls, last) == out + EscapeAll(data, escapeControls, previous)
      invariant SentAll(data[i..], escapeControls, last) == SentAll(data, escapeControls, previous)
    {
      assert data[i..][0] == data[i] && data[i..][1..] == data[i + 1..];
      var e, s := Escape(data[i], escapeControls, last), Sent(data[i], escapeControls, last);
      assert (r + e) + EscapeAll(data[i + 1..], escapeControls, s) == r + (e + EscapeAll(data[i + 1..], escapeControls, s));
      r, last := PutEscaped(r, data[i], escapeControls, last);
    }
  }

  method HexHeader(h: Header) returns (out: seq<Byte>)
    ensures out == HexHeaderBytes(h)
  {
    out := [ZPAD, ZPAD, ZDLE, 0x42];
    var body := Body(h);
    var crc := Crc.ZmodemCrc16(Bits(body), 0);
    var all := body + ShortBytes(crc as int);
    var i := 0;
    while i < |all|
      invariant 0 <= i <= |all|
      invariant out + HexAll(all[i..]) == [ZPAD, ZPAD, ZDLE, 0x42] + HexAll(all)
    {
      assert all[i..][0] == all[i] && all[i..][1..] == all[i + 1..];
      assert out + (HexByte(all[i]) + HexAll(all[i + 1..])) == (out + HexByte(all[i])) + HexAll(all[i + 1..]);
      out := out + HexByte(all[i]);
      i := i + 1;
    }
    assert out == [ZPAD, ZPAD, ZDLE, 0x42] + HexAll(all);
    out := out + [CR, 0x8A];
    if h.kind != ZFIN && h.kind != ZACK {
      out := out + [XON];
    }
  }

  // The checksum bytes in the order they are sent.
  method Checksum(data: seq<Byte>, long: bool) returns (check: seq<Byte>)
    ensures check == CheckBytes(data, long)
  {
    if long {
      var crc := Crc.ZmodemCrc32(Bits(data));
      check := LongBytes(crc as int);
    } else {
      var crc := Crc.ZmodemCrc16(Bits(data), 0);
      check := ShortBytes(crc as int);
    }
  }

  method BinaryHeader(h: Header, long: bool, escapeControls: bool) returns (out: seq<Byte>)
    ensures out == BinaryHeaderBytes(h, long, escapeControls)
  {
    var body := Body(h);
    var check := Checksum(body, long);
    var previous: Byte;
    out, previous := PutAllEscaped([ZPAD, ZDLE, if long then 0x43 else 0x41], body, escapeControls, 0);
    out, previous := PutAllEscaped(out, check, escapeControls, previous);
    BinaryHeaderParts(h, long, escapeControls);
  }

  lemma BinaryHeaderParts(h: Header, long: bool, escapeControls: bool)
    ensures BinaryHeaderBytes(h, long, escapeControls)
         == [ZPAD, ZDLE, if long then 0x43 else 0x41] + EscapeAll(Body(h), escapeControls, 0)
            + EscapeAll(CheckBytes(Body(h), long), escapeControls, SentAll(Body(h), escapeControls, 0))
  {
    EscapeAllAppend(Body(h), CheckBytes(Body(h), long), escapeControls, 0);
  }

  method DataSubpacket(data: seq<Byte>, end: Byte, long: bool, escapeControls: bool) returns (out: seq<Byte>)
    ensures out == DataSubpacketBytes(data, end, long, escapeControls)
  {
    var previous: Byte;
    out, previous := PutAllEscaped([], data, escapeControls, 0);
    assert out == EscapeAll(data, escapeControls, 0);
    out := out + [ZDLE, end];
    var check := Checksum(data + [end], long);
    out, previous := PutAllEscaped(out, check, escapeControls, previous);
    assert out == SubpacketBytes(data, end, check, escapeControls);
    if end == ZCRCW {
      out := out + [XON];
    }
  }

  lemma {:induction false} EscapeAllAppend(a: seq<Byte>, b: seq<Byte>, escapeControls: bool, previous: Byte)
    ensures EscapeAll(a + b, escapeControls, previous)
         == EscapeAll(a, escapeControls, previous) + EscapeAll(b, escapeControls, SentAll(a, escapeControls, previous))
    ensures SentAll(a + b, escapeControls, previous) == SentAll(b, escapeControls, SentAll(a, escapeControls, previous))
  {
    if a == [] {
      assert a + b == b;
    } else {
      assert (a + b)[0] == a[0] && (a + b)[1..] == a[1..] + b;
      EscapeAllAppend(a[1..], b, escapeControls, Sent(a[0], escapeControls, previous));
    }
  }
}
