// A header is taken exactly if it is there with its checksum, and one changed
// on the way is reported bad.
module ZmodemHeaders {
  import opened Bytes
  import opened ZmodemCorruption
  import opened ZmodemReader
  import opened ZmodemRoundTrip
  import opened ZmodemWire

  // ---- Where a header starts ----

  // The one before is a ZPAD, or of those read before.
  predicate AfterPad(input: seq<Symbol>, pads: nat, at: nat)
    requires at <= |input|
  {
    if at == 0 then pads > 0 else input[at - 1] == ZPAD
  }

  // The first ZDLE after a ZPAD, with no timeout before it.
  predicate StartsAt(input: seq<Symbol>, pads: nat, at: nat) {
    && at < |input| && input[at] == ZDLE && AfterPad(input, pads, at)
    && forall i :: 0 <= i < at ==> input[i] >= 0 && !(input[i] == ZDLE && AfterPad(input, pads, i))
  }

  lemma StartsLater(input: seq<Symbol>, pads: nat, at: nat)
    requires 0 < at < |input| && input[0] >= 0
    ensures var more := if input[0] == ZPAD then pads + 1 else 0;
            !(input[0] == ZDLE && pads > 0) ==> (StartsAt(input, pads, at) <==> StartsAt(input[1..], more, at - 1))
  {
    var tail, more := input[1..], if input[0] == ZPAD then pads + 1 else 0;
    forall i | 1 <= i <= at ensures AfterPad(input, pads, i) <==> AfterPad(tail, more, i - 1) {
    }
    if StartsAt(tail, more, at - 1) && !(input[0] == ZDLE && pads > 0) {
      forall i | 0 <= i < at ensures input[i] >= 0 && !(input[i] == ZDLE && AfterPad(input, pads, i)) {
        assert i > 0 ==> input[i] == tail[i - 1];
      }
    }
    if StartsAt(input, pads, at) {
      forall i | 0 <= i < at - 1 ensures tail[i] >= 0 && !(tail[i] == ZDLE && AfterPad(tail, more, i)) {
        assert tail[i] == input[i + 1];
      }
    }
  }

  lemma {:induction false} StartIsFound(input: seq<Symbol>, pads: nat, at: nat)
    requires StartsAt(input, pads, at)
    ensures SkipToHeader(input, pads) == Read(ZDLE, input[at + 1..])
  {
    if at > 0 {
      assert input[0] >= 0 && !(input[0] == ZDLE && AfterPad(input, pads, 0));
      StartsLater(input, pads, at);
      StartIsFound(input[1..], if input[0] == ZPAD then pads + 1 else 0, at - 1);
    }
  }

  lemma {:induction false} FoundStarts(input: seq<Symbol>, pads: nat) returns (at: nat)
    requires SkipToHeader(input, pads).result >= 0
    ensures StartsAt(input, pads, at) && SkipToHeader(input, pads) == Read(ZDLE, input[at + 1..])
  {
    if input[0] == ZDLE && pads > 0 {
      at := 0;
    } else {
      var before := FoundStarts(input[1..], if input[0] == ZPAD then pads + 1 else 0);
      at := before + 1;
      StartsLater(input, pads, at);
      assert input[1..][before + 1..] == input[at + 1..];
    }
  }

  // ---- What is there ----

  // Two digits of either case.
  predicate IsDigit(c: Symbol, v: int) {
    (0 <= v < 10 && c == 0x30 + v) || (10 <= v < 16 && (c == 0x61 + v - 10 || c == 0x41 + v - 10))
  }

  // The bytes written as two hex digits each, and what follows.
  predicate SpellsHex(input: seq<Symbol>, data: seq<Byte>, rest: seq<Symbol>) {
    && |input| == 2 * |data| + |rest| && input[2 * |data|..] == rest
    && forall i :: 0 <= i < |data| ==> IsDigit(input[2 * i], data[i] / 16) && IsDigit(input[2 * i + 1], data[i] % 16)
  }

  lemma DigitIs(c: Symbol)
    ensures HexValue(c) < 16 && forall v :: IsDigit(c, v) <==> v >= 0 && HexValue(c) == v
  {
  }

  lemma {:induction false} HexReadIff(input: seq<Symbol>, data: seq<Byte>, rest: seq<Symbol>)
    ensures TakeHex(input, |data|) == Read(Bytes(data), rest) <==> SpellsHex(input, data, rest)
  {
    if data == [] {
      assert input[0..] == input;
    } else if |input| >= 2 {
      PairIs(input[0], input[1], data[0]);
      var tail, later := input[2..], data[1..];
      assert input[1..][1..] == tail && data == [data[0]] + later;
      HexReadIff(tail, later, rest);
      OneMoreSpelled(input, data, rest);
      TakenHex(input, data, rest);
    } else {
      assert input != [] ==> input[1..] == [];
    }
  }

  lemma PairIs(c: Symbol, d: Symbol, b: Byte)
    ensures IsDigit(c, b / 16) && IsDigit(d, b % 16)
            <==> HexValue(c) >= 0 && HexValue(d) >= 0 && HexValue(c) * 16 + HexValue(d) == b
  {
    DigitIs(c);
    DigitIs(d);
  }

  lemma TakeHexStep(input: seq<Symbol>, n: nat)
    requires n > 0 && |input| >= 2
    ensures var high, low := HexValue(input[0]), HexValue(input[1]);
            if high >= 0 && low >= 0 && high < 16 && low < 16
            then TakeHex(input, n) == Prefixed([high * 16 + low], TakeHex(input[2..], n - 1))
            else TakeHex(input, n).result.Stopped?
  {
    DigitIs(input[0]);
    DigitIs(input[1]);
    assert input[1..][1..] == input[2..];
  }

  lemma FirstIs(b: Byte, more: seq<Byte>, data: seq<Byte>)
    requires data != []
    ensures [b] + more == data <==> b == data[0] && more == data[1..]
  {
    assert ([b] + more)[0] == b && ([b] + more)[1..] == more;
    assert data == [data[0]] + data[1..];
  }

  lemma FirstTaken(b: Byte, t: Read<Taken>, data: seq<Byte>, rest: seq<Symbol>)
    requires data != []
    ensures Prefixed([b], t) == Read(Bytes(data), rest) <==> b == data[0] && t == Read(Bytes(data[1..]), rest)
  {
    if t.result.Bytes? {
      FirstIs(b, t.result.data, data);
    }
  }

  lemma TakenHex(input: seq<Symbol>, data: seq<Byte>, rest: seq<Symbol>)
    requires data != [] && |input| >= 2
    ensures TakeHex(input, |data|) == Read(Bytes(data), rest)
            <==> HexValue(input[0]) >= 0 && HexValue(input[1]) >= 0 && HexValue(input[0]) * 16 + HexValue(input[1]) == data[0]
                 && TakeHex(input[2..], |data| - 1) == Read(Bytes(data[1..]), rest)
  {
    TakeHexStep(input, |data|);
    DigitIs(input[0]);
    DigitIs(input[1]);
    var high, low := HexValue(input[0]), HexValue(input[1]);
    if high >= 0 && low >= 0 {
      FirstTaken(high * 16 + low, TakeHex(input[2..], |data| - 1), data, rest);
    }
  }

  lemma OneMoreSpelled(input: seq<Symbol>, data: seq<Byte>, rest: seq<Symbol>)
    requires data != [] && |input| >= 2
    ensures SpellsHex(input, data, rest)
            <==> IsDigit(input[0], data[0] / 16) && IsDigit(input[1], data[0] % 16) && SpellsHex(input[2..], data[1..], rest)
  {
    var tail, later := input[2..], data[1..];
    if |input| == 2 * |data| + |rest| {
      assert input[2 * |data|..] == tail[2 * |later|..];
    }
    if SpellsHex(input, data, rest) {
      assert input[2 * 0] == input[0] && input[2 * 0 + 1] == input[1];
      forall i | 0 <= i < |later| ensures IsDigit(tail[2 * i], later[i] / 16) && IsDigit(tail[2 * i + 1], later[i] % 16) {
        assert IsDigit(input[2 * (i + 1)], data[i + 1] / 16);
      }
    }
    if SpellsHex(tail, later, rest) && IsDigit(input[0], data[0] / 16) && IsDigit(input[1], data[0] % 16) {
      forall i | 0 <= i < |data| ensures IsDigit(input[2 * i], data[i] / 16) && IsDigit(input[2 * i + 1], data[i] % 16) {
        if i > 0 {
          assert IsDigit(tail[2 * (i - 1)], later[i - 1] / 16) && IsDigit(tail[2 * (i - 1) + 1], later[i - 1] % 16);
        }
      }
    }
  }

  // A header of this kind, with the checksum that is its own, and what follows.
  predicate Holds(input: seq<Symbol>, h: Header, long: bool, rest: seq<Symbol>) {
    && input != []
    && if input[0] == 0x42 then !long && SpellsHex(input[1..], Body(h) + CheckBytes(Body(h), false), rest)
       else
         && input[0] == (if long then 0x43 else 0x41)
         && TakeBytes(input[1..], 5 + CheckSize(long)) == Read(Bytes(Body(h) + CheckBytes(Body(h), long)), rest)
  }

  lemma {:induction false} TakenInTwo(input: seq<Symbol>, n: nat, m: nat)
    ensures var t := TakeBytes(input, n);
            TakeBytes(input, n + m) == if t.result.Stopped? then t else Prefixed(t.result.data, TakeBytes(t.rest, m))
    decreases n
  {
    if n == 0 {
      PrefixedNone(TakeBytes(input, m));
    } else {
      var u := Unescape(input);
      if 0 <= u.result <= 0xFF {
        TakenInTwo(u.rest, n - 1, m);
        var t := TakeBytes(u.rest, n - 1);
        if t.result.Bytes? {
          PrefixedTwice([u.result], t.result.data, TakeBytes(t.rest, m));
        }
      }
    }
  }

  lemma CheckIs(high: Byte, low: Byte, c: nat)
    requires c < 0x1_0000
    ensures 256 * (high as int) + low == c <==> [high, low] == ShortBytes(c)
  {
    assert c == 256 * (c / 256) + c % 256;
    if [high, low] == ShortBytes(c) {
      assert [high, low][0] == ShortBytes(c)[0] && [high, low][1] == ShortBytes(c)[1];
    }
  }

  lemma BodyOfHeader(data: seq<Byte>)
    requires |data| == 5
    ensures Body(HeaderOf(data)) == data
  {
  }

  lemma Parts(a: seq<Byte>, b: seq<Byte>, c: seq<Byte>, d: seq<Byte>)
    requires |a| == |c|
    ensures a + b == c + d <==> a == c && b == d
  {
    if a + b == c + d {
      assert a == (a + b)[..|a|] && c == (c + d)[..|a|] && b == (a + b)[|a|..] && d == (c + d)[|a|..];
    }
  }

  // Seven bytes are a header and its checksum exactly if the checksum tells.
  lemma SevenIff(data: seq<Byte>, h: Header)
    requires |data| == 7
    ensures 256 * (data[5] as int) + data[6] == Crc16Of(data[..5]) && HeaderOf(data[..5]) == h
            <==> data == Body(h) + CheckBytes(Body(h), false)
  {
    HeaderOfBody(h);
    CheckIs(data[5], data[6], Crc16Of(data[..5]));
    BodyOfHeader(data[..5]);
    assert data == data[..5] + [data[5], data[6]];
    Parts(data[..5], [data[5], data[6]], Body(h), CheckBytes(Body(h), false));
  }

  lemma HexBodyIff(input: seq<Symbol>, h: Header, long: bool, rest: seq<Symbol>)
    ensures HexHeaderBody(input) == Read(Got(h, long), rest)
            <==> !long && SpellsHex(input, Body(h) + CheckBytes(Body(h), false), rest)
  {
    var t := TakeHex(input, 7);
    HexReadIff(input, Body(h) + CheckBytes(Body(h), false), rest);
    if t.result.Bytes? {
      SevenIff(t.result.data, h);
    }
  }

  lemma BinaryBodyIff(input: seq<Symbol>, h: Header, long: bool, other: bool, rest: seq<Symbol>)
    ensures BinaryHeaderBody(input, long) == Read(Got(h, other), rest)
            <==> other == long
                 && TakeBytes(input, 5 + CheckSize(long)) == Read(Bytes(Body(h) + CheckBytes(Body(h), long)), rest)
  {
    TakenInTwo(input, 5, CheckSize(long));
    HeaderOfBody(h);
    var t := TakeBytes(input, 5);
    if t.result.Bytes? {
      BodyOfHeader(t.result.data);
      var c := TakeBytes(t.rest, CheckSize(long));
      if c.result.Bytes? {
        Parts(t.result.data, c.result.data, Body(h), CheckBytes(Body(h), long));
      }
    }
  }

  // Whatever comes over the channel, a header is taken if and only if it is
  // there, whole, where the first one starts, with its own checksum after it.
  lemma TakenIff(input: seq<Symbol>, pads: nat, h: Header, long: bool, rest: seq<Symbol>)
    ensures ReadHeaderFrom(input, pads) == Read(Got(h, long), rest)
            <==> exists at :: StartsAt(input, pads, at) && Holds(input[at + 1..], h, long, rest)
  {
    if at: nat :| StartsAt(input, pads, at) && Holds(input[at + 1..], h, long, rest) {
      StartIsFound(input, pads, at);
      HeldIff(input, pads, at, h, long, rest);
    }
    if ReadHeaderFrom(input, pads) == Read(Got(h, long), rest) {
      var at := FoundStarts(input, pads);
      HeldIff(input, pads, at, h, long, rest);
    }
  }

  lemma HeldIff(input: seq<Symbol>, pads: nat, at: nat, h: Header, long: bool, rest: seq<Symbol>)
    requires StartsAt(input, pads, at) && SkipToHeader(input, pads) == Read(ZDLE, input[at + 1..])
    ensures ReadHeaderFrom(input, pads) == Read(Got(h, long), rest) <==> Holds(input[at + 1..], h, long, rest)
  {
    var tail := input[at + 1..];
    if tail != [] {
      HexBodyIff(tail[1..], h, long, rest);
      BinaryBodyIff(tail[1..], h, tail[0] == 0x43, long, rest);
    }
  }

  // A subpacket likewise.
  lemma SubpacketIsChecked(input: seq<Symbol>, long: bool, held: nat, limit: nat, data: seq<Byte>, end: Byte, rest: seq<Symbol>)
    requires ReadSubpacketFrom(input, long, held, limit) == Read(Whole(data, end), rest)
    ensures exists at :: 0 <= at <= |input| && IsFrameEnd(end)
              && TakeBytes(input[at..], CheckSize(long)) == Read(Bytes(CheckBytes(data + [end], long)), rest)
  {
    var b := ReadBlock(input, held, limit, []);
    var at := BlockLeaves(input, held, limit, []);
    assert TakeBytes(input[at..], CheckSize(long)) == TakeBytes(b.rest, CheckSize(long));
  }

  lemma {:induction false} UnescapedLeaves(input: seq<Symbol>) returns (at: nat)
    ensures at <= |input| && Unescape(input).rest == input[at..]
    decreases |input|, 1
  {
    var n := Next(input);
    if n.result < 0 {
      at := if input == [] then 0 else 1;
    } else if IsFlowControl(n.result) {
      var more := UnescapedLeaves(n.rest);
      at := more + 1;
      assert input[1..][more..] == input[at..];
    } else if n.result != ZDLE {
      at := 1;
    } else {
      var more := AfterZdleLeaves(n.rest, 1);
      at := more + 1;
      assert input[1..][more..] == input[at..];
    }
  }

  lemma {:induction false} AfterZdleLeaves(input: seq<Symbol>, zdles: nat) returns (at: nat)
    ensures at <= |input| && AfterZdle(input, zdles).rest == input[at..]
    decreases |input|, 0
  {
    var n := Next(input);
    if n.result == ZDLE && zdles + 1 < 5 {
      var more := AfterZdleLeaves(n.rest, zdles + 1);
      at := more + 1;
      assert input[1..][more..] == input[at..];
    } else if AfterZdle(input, zdles).rest == n.rest {
      at := if input == [] then 0 else 1;
    } else {
      var more := UnescapedLeaves(n.rest);
      at := more + 1;
      assert input[1..][more..] == input[at..];
    }
  }

  lemma {:induction false} BlockLeaves(input: seq<Symbol>, held: nat, limit: nat, block: seq<Byte>) returns (at: nat)
    ensures at <= |input| && ReadBlock(input, held, limit, block).rest == input[at..]
    ensures var r := ReadBlock(input, held, limit, block).result; r.Finished? ==> IsFrameEnd(r.end)
    decreases |input|
  {
    var u := Unescape(input);
    at := UnescapedLeaves(input);
    if 0 <= u.result < FRAME_END_BASE && held + |block| + 1 <= limit {
      var more := BlockLeaves(u.rest, held, limit, block + [u.result]);
      assert input[at..][more..] == input[at + more..];
      at := at + more;
    }
  }

  // ---- Headers changed on the way ----

  // A hex header that carries `check`.
  function HexCarrying(body: seq<Byte>, check: seq<Byte>): seq<Byte> {
    [ZPAD, ZPAD, ZDLE, 0x42] + HexAll(body + check)
  }

  function BinaryCarrying(body: seq<Byte>, check: seq<Byte>, long: bool, escapeControls: bool): seq<Byte> {
    [ZPAD, ZDLE, if long then 0x43 else 0x41] + EscapeAll(body + check, escapeControls, 0)
  }

  // They are how headers are sent, with the checksum that is their own.
  lemma CarryingTheirOwn(h: Header, long: bool, escapeControls: bool)
    ensures HexHeaderBytes(h) == HexCarrying(Body(h), CheckBytes(Body(h), false)) + HexTrailer(h.kind)
    ensures BinaryHeaderBytes(h, long, escapeControls) == BinaryCarrying(Body(h), CheckBytes(Body(h), long), long, escapeControls)
  {
  }

  lemma HexStarts(noise: seq<Symbol>, after: seq<Symbol>)
    requires IsNoise(noise)
    ensures ReadHeaderFrom(noise + seq(2, i => ZPAD) + [ZDLE] + ([0x42] + after), 0) == HexHeaderBody(after)
  {
    SkipsNoise(noise, 2, [0x42] + after, 0);
    assert ([0x42] + after)[1..] == after;
  }

  lemma HexBodyIsBad(body: seq<Byte>, check: seq<Byte>, rest: seq<Symbol>)
    requires |body| == 5 && |check| == 2 && check != CheckBytes(body, false)
    ensures HexHeaderBody(HexAll(body + check) + rest) == Read(Bad, rest)
  {
    var all := body + check;
    TakeUndoesHexAll(all, rest);
    assert all[..5] == body && check == [all[5], all[6]];
    CheckIs(all[5], all[6], Crc16Of(body));
  }

  lemma HexCarryingReads(noise: seq<Symbol>, body: seq<Byte>, check: seq<Byte>, rest: seq<Symbol>)
    requires IsNoise(noise) && |body| == 5 && |check| == 2 && check != CheckBytes(body, false)
    ensures ReadHeaderFrom(noise + HexCarrying(body, check) + rest, 0) == Read(Bad, rest)
  {
    var digits := HexAll(body + check);
    HexParts(noise, digits, rest);
    HexStarts(noise, digits + rest);
    HexBodyIsBad(body, check, rest);
  }

  lemma HexParts(noise: seq<Symbol>, digits: seq<Byte>, rest: seq<Symbol>)
    ensures noise + ([ZPAD, ZPAD, ZDLE, 0x42] + digits) + rest == noise + seq(2, i => ZPAD) + [ZDLE] + ([0x42] + (digits + rest))
  {
    assert seq(2, i => ZPAD) == [ZPAD, ZPAD];
  }

  // A hex header whose body was changed within two neighbouring bytes, its
  // checksum as sent, is reported bad, whatever comes before and after it.
  lemma HexBurstIsBad(noise: seq<Symbol>, before: seq<Byte>, window: seq<Byte>, other: seq<Byte>, after: seq<Byte>,
                      h: Header, rest: seq<Symbol>)
    requires IsNoise(noise) && |window| == |other| <= 2 && window != other && Body(h) == before + other + after
    ensures ReadHeaderFrom(noise + HexCarrying(Body(h), CheckBytes(before + window + after, false)) + rest, 0) == Read(Bad, rest)
  {
    ChecksumsDiffer(before, window, other, after, false);
    HexCarryingReads(noise, Body(h), CheckBytes(before + window + after, false), rest);
  }

  lemma BodyThenOther(first: seq<Byte>, second: seq<Byte>, body: seq<Byte>, check: seq<Byte>, long: bool, rest: seq<Symbol>)
    requires |body| == 5 && TakeBytes(first + (second + rest), 5) == Read(Bytes(body), second + rest)
    requires TakeBytes(second + rest, CheckSize(long)) == Read(Bytes(check), rest) && check != CheckBytes(body, long)
    ensures BinaryHeaderBody((first + second) + rest, long) == Read(Bad, rest)
  {
    assert (first + second) + rest == first + (second + rest);
  }

  lemma EscapedOtherReads(body: seq<Byte>, check: seq<Byte>, long: bool, escapeControls: bool, rest: seq<Symbol>)
    requires |body| == 5 && |check| == CheckSize(long) && check != CheckBytes(body, long)
    ensures BinaryHeaderBody(EscapeAll(body + check, escapeControls, 0) + rest, long) == Read(Bad, rest)
  {
    var sent := SentAll(body, escapeControls, 0);
    var first, second := EscapeAll(body, escapeControls, 0), EscapeAll(check, escapeControls, sent);
    EscapeAllAppend(body, check, escapeControls, 0);
    TakeUndoesEscapeAll(body, escapeControls, 0, second + rest);
    TakeUndoesEscapeAll(check, escapeControls, sent, rest);
    BodyThenOther(first, second, body, check, long, rest);
  }

  lemma BinaryCarryingReads(noise: seq<Symbol>, body: seq<Byte>, check: seq<Byte>, long: bool, escapeControls: bool, rest: seq<Symbol>)
    requires IsNoise(noise) && |body| == 5 && |check| == CheckSize(long) && check != CheckBytes(body, long)
    ensures ReadHeaderFrom(noise + BinaryCarrying(body, check, long, escapeControls) + rest, 0) == Read(Bad, rest)
  {
    EscapedOtherReads(body, check, long, escapeControls, rest);
    OneStar(noise, if long then 0x43 else 0x41, EscapeAll(body + check, escapeControls, 0), rest);
  }

  // And a binary one within two, or four with the long checksum.
  lemma BinaryBurstIsBad(noise: seq<Symbol>, before: seq<Byte>, window: seq<Byte>, other: seq<Byte>, after: seq<Byte>,
                         h: Header, long: bool, escapeControls: bool, rest: seq<Symbol>)
    requires IsNoise(noise) && |window| == |other| <= BurstWidth(long) && window != other && Body(h) == before + other + after
    ensures ReadHeaderFrom(noise + BinaryCarrying(Body(h), CheckBytes(before + window + after, long), long, escapeControls) + rest, 0)
         == Read(Bad, rest)
  {
    ChecksumsDiffer(before, window, other, after, long);
    BinaryCarryingReads(noise, Body(h), CheckBytes(before + window + after, long), long, escapeControls, rest);
  }
}
