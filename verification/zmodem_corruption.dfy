// What never goes out raw, which damage is always noticed, and what no
// checksum can catch.
module ZmodemCorruption {
  import ByteValues
  import opened Bytes
  import Crc = ZmodemCrc
  import opened ZmodemReader
  import opened ZmodemRoundTrip
  import opened ZmodemWire

  // ---- What never goes out raw ----

  // Flow control never does; with `escapeControls`, no control byte but the
  // escape itself; and never a carriage return after an at sign.
  predicate SafeAfter(b: Byte, previous: Byte, escapeControls: bool) {
    && !IsFlowControl(b)
    && (escapeControls && IsControl(b) ==> b == ZDLE)
    && !(LowSeven(b) == CR && LowSeven(previous) == AT)
  }

  predicate Safe(out: seq<Byte>, previous: Byte, escapeControls: bool) {
    forall i :: 0 <= i < |out| ==> SafeAfter(out[i], Before(out, i, previous), escapeControls)
  }

  function Before(out: seq<Byte>, i: nat, previous: Byte): Byte
    requires i <= |out|
  {
    if i == 0 then previous else out[i - 1]
  }

  lemma SafeAppend(a: seq<Byte>, b: seq<Byte>, previous: Byte, last: Byte, escapeControls: bool)
    requires Safe(a, previous, escapeControls) && Safe(b, last, escapeControls)
    requires last == Before(a, |a|, previous)
    ensures Safe(a + b, previous, escapeControls)
  {
    forall i | 0 <= i < |a + b| ensures SafeAfter((a + b)[i], Before(a + b, i, previous), escapeControls) {
      if i < |a| {
        assert (a + b)[i] == a[i] && Before(a + b, i, previous) == Before(a, i, previous);
      } else {
        var j := i - |a|;
        assert (a + b)[i] == b[j] && Before(a + b, i, previous) == Before(b, j, last);
      }
    }
  }

  lemma EscapeIsSafe(b: Byte, escapeControls: bool, previous: Byte)
    ensures Safe(Escape(b, escapeControls, previous), previous, escapeControls)
  {
    if NeedsEscape(b, escapeControls, previous) {
      assert SafeAfter(ZDLE, previous, escapeControls) && SafeAfter(Flip(b), ZDLE, escapeControls);
    } else {
      assert SafeAfter(b, previous, escapeControls);
    }
  }

  lemma {:induction false} EscapedIsSafe(data: seq<Byte>, escapeControls: bool, previous: Byte)
    ensures Safe(EscapeAll(data, escapeControls, previous), previous, escapeControls)
  {
    if data != [] {
      var sent := Sent(data[0], escapeControls, previous);
      EscapeIsSafe(data[0], escapeControls, previous);
      EscapedIsSafe(data[1..], escapeControls, sent);
      SafeAppend(Escape(data[0], escapeControls, previous), EscapeAll(data[1..], escapeControls, sent), previous, sent,
                 escapeControls);
    }
  }

  // ---- Corruption ----

  lemma BitsAppend(a: seq<Byte>, b: seq<Byte>)
    ensures Bits(a + b) == Bits(a) + Bits(b)
  {
  }

  lemma BitsInjective(a: seq<Byte>, b: seq<Byte>)
    requires Bits(a) == Bits(b)
    ensures a == b
  {
    assert |a| == |Bits(a)| == |Bits(b)| == |b|;
    forall i | 0 <= i < |a| ensures a[i] == b[i] {
      assert Bits(a)[i] == Bits(b)[i];
      ByteValues.AsBits(a[i]);
      ByteValues.AsBits(b[i]);
    }
  }

  lemma Word16Value(x: bv16)
    ensures (x as int) as bv16 == x
  {
  }

  lemma Word32Value(x: bv32)
    ensures (x as int) as bv32 == x
  {
  }

  // How wide a burst each checksum catches.
  function BurstWidth(long: bool): nat {
    if long then 4 else 2
  }

  lemma ChecksumsDiffer(before: seq<Byte>, window: seq<Byte>, other: seq<Byte>, after: seq<Byte>, long: bool)
    requires |window| == |other| <= BurstWidth(long) && window != other
    ensures CheckBytes(before + window + after, long) != CheckBytes(before + other + after, long)
  {
    BitsAppend(before + window, after);
    BitsAppend(before, window);
    BitsAppend(before + other, after);
    BitsAppend(before, other);
    if Bits(window) == Bits(other) {
      BitsInjective(window, other);
    }
    if long {
      Crc.Crc32DetectsBurst(Bits(before), Bits(window), Bits(other), Bits(after));
      Crc32Tells(before + window + after, before + other + after);
    } else {
      Crc.Crc16DetectsBurst(Bits(before), Bits(window), Bits(other), Bits(after), 0);
      Crc16Tells(before + window + after, before + other + after);
    }
  }

  lemma Crc32Tells(x: seq<Byte>, y: seq<Byte>)
    requires Crc.Crc32(Bits(x)) != Crc.Crc32(Bits(y))
    ensures CheckBytes(x, true) != CheckBytes(y, true)
  {
    Word32Value(Crc.Crc32(Bits(x)));
    Word32Value(Crc.Crc32(Bits(y)));
    LongBytesTell(Crc32Of(x), Crc32Of(y));
  }

  lemma Crc16Tells(x: seq<Byte>, y: seq<Byte>)
    requires Crc.Crc16(Bits(x), 0) != Crc.Crc16(Bits(y), 0)
    ensures CheckBytes(x, false) != CheckBytes(y, false)
  {
    Word16Value(Crc.Crc16(Bits(x), 0));
    Word16Value(Crc.Crc16(Bits(y), 0));
    ShortBytesTell(Crc16Of(x), Crc16Of(y));
  }

  lemma ShortBytesTell(x: nat, y: nat)
    requires x < 0x1_0000 && y < 0x1_0000
    ensures ShortBytes(x) == ShortBytes(y) ==> x == y
  {
    assert x == 256 * (x / 256) + x % 256 && y == 256 * (y / 256) + y % 256;
    if ShortBytes(x) == ShortBytes(y) {
      assert ShortBytes(x)[0] == ShortBytes(y)[0] && ShortBytes(x)[1] == ShortBytes(y)[1];
    }
  }

  lemma LongBytesTell(x: nat, y: nat)
    requires x < TWO_32 && y < TWO_32
    ensures LongBytes(x) == LongBytes(y) ==> x == y
  {
    LongBytesValue(x);
    LongBytesValue(y);
  }

  lemma LongBytesValue(x: nat)
    requires x < TWO_32
    ensures var b := LongBytes(x); Position(Header(0, b[0], b[1], b[2], b[3])) == x
  {
    PositionRoundTrip(0, x);
  }

  // A subpacket whose bytes (its ending letter included) were changed within
  // one burst, its checksum as sent, is always reported bad.
  lemma BurstIsReportedBad(before: seq<Byte>, window: seq<Byte>, other: seq<Byte>, after: seq<Byte>,
                           data: seq<Byte>, end: Byte, long: bool, escapeControls: bool, held: nat, limit: nat,
                           rest: seq<Symbol>)
    requires |window| == |other| <= BurstWidth(long) && window != other
    requires data + [end] == before + other + after && IsFrameEnd(end)
    requires data == [] || held + |data| <= limit
    ensures
      var check := CheckBytes(before + window + after, long);
      ReadSubpacketFrom(SubpacketBytes(data, end, check, escapeControls) + rest, long, held, limit)
      == Read(SubBad, rest)
  {
    ChecksumsDiffer(before, window, other, after, long);
    SubpacketReads(data, end, CheckBytes(before + window + after, long), long, escapeControls, held, limit, rest);
  }

  // What the checksum cannot catch: data that spells a header. Read where a
  // header is awaited, such a subpacket is that header.
  lemma DataCanSpellHeader(h: Header, end: Byte, long: bool, rest: seq<Symbol>)
    ensures
      var spelled := [ZPAD, 0x03] + (Body(h) + CheckBytes(Body(h), true));
      ReadHeaderFrom(DataSubpacketBytes(spelled, end, long, true) + rest, 0).result == Got(h, true)
  {
    var body := Body(h) + CheckBytes(Body(h), true);
    var spelled := [ZPAD, 0x03] + body;
    EscapeAllAppend([ZPAD, 0x03], body, true, 0);
    SpelledStart();
    SpelledReads(h, SubpacketEnding(spelled, end, long, rest));
  }

  lemma SpelledReads(h: Header, ending: seq<Symbol>)
    ensures ReadHeaderFrom([ZPAD, ZDLE, 0x43] + EscapeAll(Body(h) + CheckBytes(Body(h), true), true, 0x43) + ending, 0)
         == Read(Got(h, true), ending)
  {
    var escaped := EscapeAll(Body(h) + CheckBytes(Body(h), true), true, 0x43);
    EscapedBodyReads(h, true, true, 0x43, ending);
    OneStar([], 0x43, escaped, ending);
    assert [] + ([ZPAD, ZDLE, 0x43] + escaped) == [ZPAD, ZDLE, 0x43] + escaped;
  }

  // What follows the escaped data of a subpacket, its controls escaped.
  function SubpacketEnding(data: seq<Byte>, end: Byte, long: bool, rest: seq<Symbol>): (ending: seq<Symbol>)
    ensures DataSubpacketBytes(data, end, long, true) + rest == EscapeAll(data, true, 0) + ending
  {
    [ZDLE, end] + EscapeAll(CheckBytes(data + [end], long), true, SentAll(data, true, 0)) + SubpacketTrailer(end) + rest
  }

  lemma SpelledStart()
    ensures EscapeAll([ZPAD, 0x03], true, 0) == [ZPAD, ZDLE, 0x43] && SentAll([ZPAD, 0x03], true, 0) == 0x43
  {
    assert [ZPAD, 0x03][1..] == [0x03] && [0x03][1..] == [];
    assert EscapeAll([0x03], true, ZPAD) == Escape(0x03, true, ZPAD) + EscapeAll([], true, 0x43);
  }
}
