// Reading undoes writing, whatever comes after it on the line.
module ZmodemRoundTrip {
  import opened Bytes
  import opened ZmodemReader
  import opened ZmodemWire

  // ---- Reading undoes writing ----

  lemma UnescapeUndoesEscape(b: Byte, escapeControls: bool, previous: Byte, rest: seq<Symbol>)
    ensures Unescape(Escape(b, escapeControls, previous) + rest) == Read(b, rest)
  {
    var input := Escape(b, escapeControls, previous) + rest;
    if NeedsEscape(b, escapeControls, previous) {
      assert input[0] == ZDLE && input[1..] == [Flip(b)] + rest;
      assert ([Flip(b)] + rest)[1..] == rest;
      assert AfterZdle([Flip(b)] + rest, 1) == Read(b, rest);
    } else {
      assert input[0] == b && input[1..] == rest;
    }
  }

  lemma UnescapeFirst(data: seq<Byte>, escapeControls: bool, previous: Byte, rest: seq<Symbol>)
    requires data != []
    ensures
      var tail := EscapeAll(data[1..], escapeControls, Sent(data[0], escapeControls, previous)) + rest;
      Unescape(EscapeAll(data, escapeControls, previous) + rest) == Read(data[0], tail)
  {
    var first := Escape(data[0], escapeControls, previous);
    var others := EscapeAll(data[1..], escapeControls, Sent(data[0], escapeControls, previous));
    UnescapeUndoesEscape(data[0], escapeControls, previous, others + rest);
    assert (first + others) + rest == first + (others + rest);
  }

  lemma {:induction false} TakeUndoesEscapeAll(data: seq<Byte>, escapeControls: bool, previous: Byte, rest: seq<Symbol>)
    ensures TakeBytes(EscapeAll(data, escapeControls, previous) + rest, |data|) == Read(Bytes(data), rest)
  {
    if data == [] {
      assert EscapeAll(data, escapeControls, previous) + rest == rest;
    } else {
      var sent := Sent(data[0], escapeControls, previous);
      var tail := EscapeAll(data[1..], escapeControls, sent) + rest;
      UnescapeFirst(data, escapeControls, previous, rest);
      TakeUndoesEscapeAll(data[1..], escapeControls, sent, rest);
      TakeOneMore(EscapeAll(data, escapeControls, previous) + rest, data[0], tail, data[1..], rest);
      assert [data[0]] + data[1..] == data;
    }
  }

  lemma TakeOneMore(input: seq<Symbol>, b: Byte, tail: seq<Symbol>, data: seq<Byte>, rest: seq<Symbol>)
    requires Unescape(input) == Read(b, tail) && TakeBytes(tail, |data|) == Read(Bytes(data), rest)
    ensures TakeBytes(input, |data| + 1) == Read(Bytes([b] + data), rest)
  {
  }

  lemma {:induction false} TakeUndoesHexAll(data: seq<Byte>, rest: seq<Symbol>)
    ensures TakeHex(HexAll(data) + rest, |data|) == Read(Bytes(data), rest)
  {
    if data == [] {
      assert HexAll(data) + rest == rest;
    } else {
      var tail := HexAll(data[1..]) + rest;
      var high, low := HexDigit(data[0] / 16), HexDigit(data[0] % 16);
      assert HexAll(data) + rest == [high] + ([low] + tail);
      TakeUndoesHexAll(data[1..], rest);
      HexByteReads(data[0]);
      TakeOneMoreHex(high, low, data[0], tail, data[1..], rest);
      assert [data[0]] + data[1..] == data;
    }
  }

  lemma HexByteReads(b: Byte)
    ensures HexValue(HexDigit(b / 16)) == b / 16 && HexValue(HexDigit(b % 16)) == b % 16 && b / 16 * 16 + b % 16 == b
  {
  }

  lemma TakeOneMoreHex(high: Byte, low: Byte, b: Byte, tail: seq<Symbol>, data: seq<Byte>, rest: seq<Symbol>)
    requires 0 <= HexValue(high) && 0 <= HexValue(low) && HexValue(high) * 16 + HexValue(low) == b
    requires TakeHex(tail, |data|) == Read(Bytes(data), rest)
    ensures TakeHex([high] + ([low] + tail), |data| + 1) == Read(Bytes([b] + data), rest)
  {
    assert ([high] + ([low] + tail))[1..] == [low] + tail && ([low] + tail)[1..] == tail;
  }

  // Line noise: bytes that cannot start a header.
  predicate IsNoise(noise: seq<Symbol>) {
    forall i :: 0 <= i < |noise| ==> noise[i] >= 0 && noise[i] != ZPAD
  }

  lemma {:induction false} SkipsNoise(noise: seq<Symbol>, stars: nat, rest: seq<Symbol>, pads: nat)
    requires IsNoise(noise) && (noise == [] || pads == 0) && pads + stars > 0
    ensures SkipToHeader(noise + seq(stars, i => ZPAD) + [ZDLE] + rest, pads) == Read(ZDLE, rest)
  {
    var input := noise + seq(stars, i => ZPAD) + [ZDLE] + rest;
    if noise != [] {
      assert input[1..] == noise[1..] + seq(stars, i => ZPAD) + [ZDLE] + rest;
      SkipsNoise(noise[1..], stars, rest, 0);
    } else if stars > 0 {
      assert input[1..] == noise + seq((stars - 1) as nat, i => ZPAD) + [ZDLE] + rest;
      SkipsNoise(noise, stars - 1, rest, pads + 1);
    } else {
      assert input == [ZDLE] + rest;
    }
  }

  lemma HeaderOfBody(h: Header)
    ensures HeaderOf(Body(h)) == h
  {
  }

  lemma HexHeaderRoundTrip(noise: seq<Symbol>, h: Header, rest: seq<Symbol>)
    requires IsNoise(noise)
    ensures ReadHeaderFrom(noise + HexHeaderBytes(h) + rest, 0) == Read(Got(h, false), HexTrailer(h.kind) + rest)
  {
    var all := Body(h) + CheckBytes(Body(h), false);
    var after := HexAll(all) + (HexTrailer(h.kind) + rest);
    assert seq(2, i => ZPAD) == [ZPAD, ZPAD];
    assert noise + HexHeaderBytes(h) + rest == noise + seq(2, i => ZPAD) + [ZDLE] + ([0x42] + after);
    SkipsNoise(noise, 2, [0x42] + after, 0);
    assert ([0x42] + after)[1..] == after;
    TakeUndoesHexAll(all, HexTrailer(h.kind) + rest);
    assert all[..5] == Body(h);
    HeaderOfBody(h);
  }

  lemma BinaryHeaderRoundTrip(noise: seq<Symbol>, h: Header, long: bool, escapeControls: bool, rest: seq<Symbol>)
    requires IsNoise(noise)
    ensures ReadHeaderFrom(noise + BinaryHeaderBytes(h, long, escapeControls) + rest, 0) == Read(Got(h, long), rest)
  {
    var body := EscapeAll(Body(h) + CheckBytes(Body(h), long), escapeControls, 0);
    EscapedBodyReads(h, long, escapeControls, 0, rest);
    OneStar(noise, if long then 0x43 else 0x41, body, rest);
  }

  lemma OneStar(noise: seq<Symbol>, letter: Byte, body: seq<Byte>, rest: seq<Symbol>)
    requires IsNoise(noise) && (letter == 0x41 || letter == 0x43)
    ensures ReadHeaderFrom(noise + ([ZPAD, ZDLE, letter] + body) + rest, 0)
         == BinaryHeaderBody(body + rest, letter == 0x43)
  {
    var stars := seq(1, i => ZPAD);
    assert [ZPAD, ZDLE, letter] + body == stars + [ZDLE] + ([letter] + body);
    assert noise + ([ZPAD, ZDLE, letter] + body) + rest == noise + stars + [ZDLE] + ([letter] + (body + rest));
    HeaderStarts(noise, letter, body + rest);
  }

  lemma HeaderStarts(noise: seq<Symbol>, letter: Byte, after: seq<Symbol>)
    requires IsNoise(noise) && (letter == 0x41 || letter == 0x43)
    ensures ReadHeaderFrom(noise + seq(1, i => ZPAD) + [ZDLE] + ([letter] + after), 0)
         == BinaryHeaderBody(after, letter == 0x43)
  {
    SkipsNoise(noise, 1, [letter] + after, 0);
    assert ([letter] + after)[1..] == after;
  }

  lemma EscapedBodyReads(h: Header, long: bool, escapeControls: bool, previous: Byte, rest: seq<Symbol>)
    ensures BinaryHeaderBody(EscapeAll(Body(h) + CheckBytes(Body(h), long), escapeControls, previous) + rest, long)
         == Read(Got(h, long), rest)
  {
    EscapedPairReads(Body(h), CheckBytes(Body(h), long), long, escapeControls, previous, rest);
    HeaderOfBody(h);
  }

  lemma EscapedPairReads(body: seq<Byte>, check: seq<Byte>, long: bool, escapeControls: bool, previous: Byte,
                         rest: seq<Symbol>)
    requires |body| == 5 && check == CheckBytes(body, long)
    ensures BinaryHeaderBody(EscapeAll(body + check, escapeControls, previous) + rest, long)
         == Read(Got(HeaderOf(body), long), rest)
  {
    var sent := SentAll(body, escapeControls, previous);
    var first, second := EscapeAll(body, escapeControls, previous), EscapeAll(check, escapeControls, sent);
    EscapeAllAppend(body, check, escapeControls, previous);
    TakeUndoesEscapeAll(body, escapeControls, previous, second + rest);
    TakeUndoesEscapeAll(check, escapeControls, sent, rest);
    BodyThenCheck(first, second, body, long, rest);
  }

  lemma BodyThenCheck(first: seq<Byte>, second: seq<Byte>, body: seq<Byte>, long: bool, rest: seq<Symbol>)
    requires |body| == 5 && TakeBytes(first + (second + rest), 5) == Read(Bytes(body), second + rest)
    requires TakeBytes(second + rest, CheckSize(long)) == Read(Bytes(CheckBytes(body, long)), rest)
    ensures BinaryHeaderBody((first + second) + rest, long) == Read(Got(HeaderOf(body), long), rest)
  {
    assert (first + second) + rest == first + (second + rest);
  }

  // ---- Subpackets ----

  lemma FrameEndReads(end: Byte, rest: seq<Symbol>)
    requires IsFrameEnd(end)
    ensures Unescape([ZDLE, end] + rest) == Read(FRAME_END_BASE + end, rest)
  {
    assert ([ZDLE, end] + rest)[1..] == [end] + rest && ([end] + rest)[1..] == rest;
    assert AfterZdle([end] + rest, 1) == Read(FRAME_END_BASE + end, rest);
  }

  // Escaped data that fits goes through into the block.
  lemma {:induction false} DataReads(block: seq<Byte>, data: seq<Byte>, escapeControls: bool, previous: Byte,
                                     held: nat, limit: nat, ending: seq<Symbol>)
    requires data == [] || held + |block| + |data| <= limit
    ensures ReadBlock(EscapeAll(data, escapeControls, previous) + ending, held, limit, block)
         == ReadBlock(ending, held, limit, block + data)
    decreases |data|
  {
    if data == [] {
      assert EscapeAll(data, escapeControls, previous) + ending == ending && block + data == block;
    } else {
      var next := Sent(data[0], escapeControls, previous);
      var tail := EscapeAll(data[1..], escapeControls, next) + ending;
      UnescapeFirst(data, escapeControls, previous, ending);
      OneMoreByte(EscapeAll(data, escapeControls, previous) + ending, data[0], tail, held, limit, block);
      DataReads(block + [data[0]], data[1..], escapeControls, next, held, limit, ending);
      assert block + [data[0]] + data[1..] == block + data;
    }
  }

  lemma OneMoreByte(input: seq<Symbol>, b: Byte, tail: seq<Symbol>, held: nat, limit: nat, block: seq<Byte>)
    requires Unescape(input) == Read(b, tail) && held + |block| + 1 <= limit
    ensures ReadBlock(input, held, limit, block) == ReadBlock(tail, held, limit, block + [b])
  {
  }

  // A subpacket read to its end, judged by the checksum it carries.
  function Judged(block: seq<Byte>, end: Byte, check: seq<Byte>, long: bool, rest: seq<Symbol>): Read<SubpacketResult> {
    Read(if check == CheckBytes(block + [end], long) then Whole(block, end) else SubBad, rest)
  }

  lemma CheckReads(block: seq<Byte>, end: Byte, check: seq<Byte>, long: bool, escapeControls: bool, previous: Byte,
                   rest: seq<Symbol>)
    requires |check| == CheckSize(long)
    ensures SubpacketCheck(EscapeAll(check, escapeControls, previous) + rest, long, block, end)
         == Judged(block, end, check, long, rest)
  {
    TakeUndoesEscapeAll(check, escapeControls, previous, rest);
  }

  // Whatever checksum it carries, a subpacket that fits is read to its end
  // and then judged by that checksum.
  lemma SubpacketReads(data: seq<Byte>, end: Byte, check: seq<Byte>, long: bool, escapeControls: bool,
                       held: nat, limit: nat, rest: seq<Symbol>)
    requires IsFrameEnd(end) && |check| == CheckSize(long)
    requires data == [] || held + |data| <= limit
    ensures ReadSubpacketFrom(SubpacketBytes(data, end, check, escapeControls) + rest, long, held, limit)
         == Judged(data, end, check, long, rest)
  {
    var sent := SentAll(data, escapeControls, 0);
    var first, second := EscapeAll(data, escapeControls, 0), EscapeAll(check, escapeControls, sent);
    BlockReads(data, end, escapeControls, held, limit, second + rest);
    ThreePartsAndMore(first, [ZDLE, end], second, rest);
    CheckReads(data, end, check, long, escapeControls, sent, rest);
  }

  lemma ThreePartsAndMore(a: seq<Symbol>, b: seq<Symbol>, c: seq<Symbol>, d: seq<Symbol>)
    ensures a + b + c + d == a + (b + (c + d))
  {
  }

  lemma BlockReads(data: seq<Byte>, end: Byte, escapeControls: bool, held: nat, limit: nat, rest: seq<Symbol>)
    requires IsFrameEnd(end) && (data == [] || held + |data| <= limit)
    ensures ReadBlock(EscapeAll(data, escapeControls, 0) + ([ZDLE, end] + rest), held, limit, [])
         == Read(Finished(data, end), rest)
  {
    DataReads([], data, escapeControls, 0, held, limit, [ZDLE, end] + rest);
    assert [] + data == data;
    FrameEndReads(end, rest);
  }

  lemma DataSubpacketRoundTrip(data: seq<Byte>, end: Byte, long: bool, escapeControls: bool, held: nat, limit: nat,
                               rest: seq<Symbol>)
    requires IsFrameEnd(end) && (data == [] || held + |data| <= limit)
    ensures ReadSubpacketFrom(DataSubpacketBytes(data, end, long, escapeControls) + rest, long, held, limit)
         == Read(Whole(data, end), SubpacketTrailer(end) + rest)
  {
    var check := CheckBytes(data + [end], long);
    var packet := SubpacketBytes(data, end, check, escapeControls);
    assert (packet + SubpacketTrailer(end)) + rest == packet + (SubpacketTrailer(end) + rest);
    SubpacketReads(data, end, check, long, escapeControls, held, limit, SubpacketTrailer(end) + rest);
  }

  // Past the limit, reading stops at the first byte too many.
  lemma OversizeSubpacketRefused(data: seq<Byte>, long: bool, escapeControls: bool, held: nat, limit: nat, rest: seq<Symbol>)
    requires data != [] && held + |data| > limit
    ensures ReadSubpacketFrom(EscapeAll(data, escapeControls, 0) + rest, long, held, limit).result == SubTooBig
  {
    OversizeBlockRefused([], data, escapeControls, 0, held, limit, rest);
  }

  lemma {:induction false} OversizeBlockRefused(block: seq<Byte>, data: seq<Byte>, escapeControls: bool, previous: Byte,
                                                held: nat, limit: nat, rest: seq<Symbol>)
    requires data != [] && held + |block| + |data| > limit
    ensures ReadBlock(EscapeAll(data, escapeControls, previous) + rest, held, limit, block).result == Gave(SubTooBig)
    decreases |data|
  {
    var next := Sent(data[0], escapeControls, previous);
    var tail := EscapeAll(data[1..], escapeControls, next) + rest;
    UnescapeFirst(data, escapeControls, previous, rest);
    if held + |block| + 1 <= limit {
      OneMoreByte(EscapeAll(data, escapeControls, previous) + rest, data[0], tail, held, limit, block);
      OversizeBlockRefused(block + [data[0]], data[1..], escapeControls, next, held, limit, rest);
    }
  }
}
