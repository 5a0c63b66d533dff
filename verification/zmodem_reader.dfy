// Reading the wire format, whatever comes over the channel.
module ZmodemReader {
  import opened Bytes
  import opened ZmodemWire

  datatype Read<T> = Read(result: T, rest: seq<Symbol>)

  // One read from the channel; an exhausted channel is a closed one.
  function Next(input: seq<Symbol>): (r: Read<Symbol>)
    ensures |r.rest| <= |input| && (r.result >= 0 ==> |r.rest| < |input|)
  {
    if input == [] then Read(CLOSED, []) else Read(input[0], input[1..])
  }

  // A byte with its escape undone: 0 to 255, FRAME_END_BASE + a frame-ending
  // letter, GOT_CANCEL, TIMEOUT or CLOSED.
  function Unescape(input: seq<Symbol>): (r: Read<int>)
    ensures |r.rest| <= |input| && (r.result >= 0 ==> |r.rest| < |input|)
    ensures -2 <= r.result < FRAME_END_BASE || r.result == GOT_CANCEL || IsFrameEnd(r.result - FRAME_END_BASE)
    decreases |input|, 1
  {
    var n := Next(input);
    if n.result < 0 then Read(n.result, n.rest)
    else if IsFlowControl(n.result) then Unescape(n.rest)
    else if n.result != ZDLE then Read(n.result, n.rest)
    else AfterZdle(n.rest, 1)
  }

  // Having read `zdles` ZDLEs in a row.
  function AfterZdle(input: seq<Symbol>, zdles: nat): (r: Read<int>)
    ensures |r.rest| <= |input|
    ensures -2 <= r.result < FRAME_END_BASE || r.result == GOT_CANCEL || IsFrameEnd(r.result - FRAME_END_BASE)
    decreases |input|, 0
  {
    var n := Next(input);
    if n.result < 0 then Read(n.result, n.rest)
    else if n.result == ZDLE then
      if zdles + 1 >= 5 then Read(GOT_CANCEL, n.rest) else AfterZdle(n.rest, zdles + 1)
    else if IsFrameEnd(n.result) then Read(FRAME_END_BASE + n.result, n.rest)
    else if n.result == 0x6C then Read(0x7F, n.rest)
    else if n.result == 0x6D then Read(0xFF, n.rest)
    else if IsEscapeLetter(n.result) then Read(Flip(n.result), n.rest)
    else Unescape(n.rest)
  }

  datatype Taken = Bytes(data: seq<Byte>) | Stopped(code: int)

  // `n` bytes through the escapes, or what came instead of one of them.
  function TakeBytes(input: seq<Symbol>, n: nat): (r: Read<Taken>)
    ensures r.result.Bytes? ==> |r.result.data| == n
    decreases n
  {
    if n == 0 then Read(Bytes([]), input)
    else
      var u := Unescape(input);
      if u.result < 0 || u.result > 0xFF then Read(Stopped(u.result), u.rest)
      else
        var t := TakeBytes(u.rest, n - 1);
        match t.result
        case Stopped(code) => t
        case Bytes(data) => Read(Bytes([u.result] + data), t.rest)
  }

  function HexValue(c: int): int {
    if 0x30 <= c <= 0x39 then c - 0x30
    else if 0x61 <= c <= 0x66 then c - 0x61 + 10
    else if 0x41 <= c <= 0x46 then c - 0x41 + 10
    else -1
  }

  const BAD_DIGIT: int := -3

  // `n` bytes written as two hex digits each.
  function TakeHex(input: seq<Symbol>, n: nat): (r: Read<Taken>)
    ensures r.result.Bytes? ==> |r.result.data| == n
    decreases n
  {
    if n == 0 then Read(Bytes([]), input)
    else
      var high := Next(input);
      if high.result < 0 then Read(Stopped(high.result), high.rest)
      else if HexValue(high.result) < 0 then Read(Stopped(BAD_DIGIT), high.rest)
      else
        var low := Next(high.rest);
        if low.result < 0 then Read(Stopped(low.result), low.rest)
        else if HexValue(low.result) < 0 then Read(Stopped(BAD_DIGIT), low.rest)
        else
          var t := TakeHex(low.rest, n - 1);
          match t.result
          case Stopped(code) => t
          case Bytes(data) => Read(Bytes([HexValue(high.result) * 16 + HexValue(low.result)] + data), t.rest)
  }

  datatype HeaderResult = Got(header: Header, long: bool) | TimedOut | ChannelClosed | Cancelled | Bad

  // Everything before a header's first ZPAD-ZDLE, `pads` ZPADs having been
  // read already; the result is ZDLE, TIMEOUT or CLOSED.
  function SkipToHeader(input: seq<Symbol>, pads: nat): Read<Symbol>
    decreases |input|
  {
    var n := Next(input);
    if n.result < 0 then n
    else if n.result == ZPAD then SkipToHeader(n.rest, pads + 1)
    else if n.result == ZDLE && pads > 0 then n
    else SkipToHeader(n.rest, 0)
  }

  function Ended(code: int): HeaderResult {
    if code == TIMEOUT then TimedOut else ChannelClosed
  }

  function HexHeaderBody(input: seq<Symbol>): Read<HeaderResult> {
    var t := TakeHex(input, 7);
    match t.result
    case Stopped(code) => Read(if code == BAD_DIGIT then Bad else Ended(code), t.rest)
    case Bytes(data) =>
      if 256 * (data[5] as int) + data[6] == Crc16Of(data[..5])
      then Read(Got(HeaderOf(data[..5]), false), t.rest)
      else Read(Bad, t.rest)
  }

  function BinaryHeaderBody(input: seq<Symbol>, long: bool): Read<HeaderResult> {
    var t := TakeBytes(input, 5);
    match t.result
    case Stopped(code) =>
      Read(if code == GOT_CANCEL then Cancelled else if code < 0 then Ended(code) else Bad, t.rest)
    case Bytes(body) =>
      var c := TakeBytes(t.rest, CheckSize(long));
      match c.result
      case Stopped(code) => Read(if code == CLOSED then ChannelClosed else Bad, c.rest)
      case Bytes(check) =>
        if check == CheckBytes(body, long)
        then Read(Got(HeaderOf(body), long), c.rest)
        else Read(Bad, c.rest)
  }

  function ReadHeaderFrom(input: seq<Symbol>, pads: nat): Read<HeaderResult> {
    var s := SkipToHeader(input, pads);
    if s.result < 0 then Read(Ended(s.result), s.rest)
    else
      var kind := Next(s.rest);
      if kind.result < 0 then Read(Ended(kind.result), kind.rest)
      else if kind.result == 0x42 then HexHeaderBody(kind.rest)
      else if kind.result == 0x41 || kind.result == 0x43 then BinaryHeaderBody(kind.rest, kind.result == 0x43)
      else Read(Bad, kind.rest)
  }

  datatype SubpacketResult = Whole(data: seq<Byte>, end: Byte) | SubTimedOut | SubClosed | SubCancelled | SubBad | SubTooBig

  // What reading a subpacket's bytes up to its ending letter gives.
  datatype BlockResult = Finished(block: seq<Byte>, end: Byte) | Gave(result: SubpacketResult)

  // The bytes of a subpacket of which `block` has been read; the file it is
  // for already holds `held` bytes and may hold `limit`.
  function ReadBlock(input: seq<Symbol>, held: nat, limit: nat, block: seq<Byte>): (r: Read<BlockResult>)
    ensures r.result.Gave? ==> !r.result.result.Whole?
    decreases |input|
  {
    var u := Unescape(input);
    if u.result == GOT_CANCEL then Read(Gave(SubCancelled), u.rest)
    else if u.result == TIMEOUT then Read(Gave(SubTimedOut), u.rest)
    else if u.result == CLOSED then Read(Gave(SubClosed), u.rest)
    else if u.result >= FRAME_END_BASE then Read(Finished(block, u.result - FRAME_END_BASE), u.rest)
    else if held + |block| + 1 > limit then Read(Gave(SubTooBig), u.rest)
    else ReadBlock(u.rest, held, limit, block + [u.result])
  }

  function ReadSubpacketFrom(input: seq<Symbol>, long: bool, held: nat, limit: nat): Read<SubpacketResult> {
    var b := ReadBlock(input, held, limit, []);
    match b.result
    case Gave(result) => Read(result, b.rest)
    case Finished(block, end) => SubpacketCheck(b.rest, long, block, end)
  }

  function SubpacketCheck(input: seq<Symbol>, long: bool, block: seq<Byte>, end: Byte): Read<SubpacketResult> {
    var c := TakeBytes(input, CheckSize(long));
    match c.result
    case Stopped(code) => Read(if code == CLOSED then SubClosed else SubBad, c.rest)
    case Bytes(check) =>
      if check == CheckBytes(block + [end], long)
      then Read(Whole(block, end), c.rest)
      else Read(SubBad, c.rest)
  }

  // ---- The reader ----

  // Reads from a channel, undoing escapes. Each method consumes exactly what
  // the function it is tied to consumes.
  class Reader {
    var channel: seq<Symbol>

    constructor (channel: seq<Symbol>)
      ensures this.channel == channel
    {
      this.channel := channel;
    }

    method Raw() returns (b: Symbol)
      modifies this
      ensures Read(b, channel) == Next(old(channel))
    {
      if channel == [] {
        return CLOSED;
      }
      b := channel[0];
      channel := channel[1..];
    }

    method Unescaped() returns (b: int)
      modifies this
      ensures Read(b, channel) == Unescape(old(channel))
    {
      var cancels := 0;
      while true
        invariant cancels == 0 && Unescape(channel) == Unescape(old(channel))
        decreases |channel|
      {
        b := Raw();
        if b < 0 {
          return;
        }
        if b == 0x11 || b == 0x13 || b == 0x91 || b == 0x93 {
          continue;
        }
        if b != ZDLE {
          return;
        }
        cancels := cancels + 1;
        while true
          invariant AfterZdle(channel, cancels) == Unescape(old(channel))
          decreases |channel|
        {
          b := Raw();
          if b < 0 {
            return;
          }
          if b != ZDLE {
            break;
          }
          cancels := cancels + 1;
          if cancels >= 5 {
            return GOT_CANCEL;
          }
        }
        if IsFrameEnd(b) {
          return FRAME_END_BASE + b;
        }
        if b == 0x6C {
          return 0x7F;
        }
        if b == 0x6D {
          return 0xFF;
        }
        if IsEscapeLetter(b) {
          return Flip(b);
        }
        cancels := 0;
      }
    }

    // `n` bytes through the escapes.
    method Take(n: nat) returns (taken: Taken)
      modifies this
      ensures Read(taken, channel) == TakeBytes(old(channel), n)
    {
      var data: seq<Byte> := [];
      PrefixedNone(TakeBytes(channel, n));
      while |data| < n
        invariant |data| <= n
        invariant TakeBytes(old(channel), n) == Prefixed(data, TakeBytes(channel, n - |data|))
      {
        ghost var before := channel;
        var b := Unescaped();
        if b < 0 || b > 0xFF {
          return Stopped(b);
        }
        PrefixedTwice(data, [b], TakeBytes(channel, n - |data| - 1));
        assert TakeBytes(before, n - |data|) == Prefixed([b], TakeBytes(channel, n - |data| - 1));
        data := data + [b];
      }
      assert data + [] == data;
      return Bytes(data);
    }

    // The seven bytes of a hex header, as fourteen digits.
    method TakeHexBytes(n: nat) returns (taken: Taken)
      modifies this
      ensures Read(taken, channel) == TakeHex(old(channel), n)
    {
      var data: seq<Byte> := [];
      PrefixedNone(TakeHex(channel, n));
      while |data| < n
        invariant |data| <= n
        invariant TakeHex(old(channel), n) == Prefixed(data, TakeHex(channel, n - |data|))
      {
        ghost var before := channel;
        var high := Raw();
        if high < 0 {
          return Stopped(high);
        }
        if HexValue(high) < 0 {
          return Stopped(BAD_DIGIT);
        }
        var low := Raw();
        if low < 0 {
          return Stopped(low);
        }
        if HexValue(low) < 0 {
          return Stopped(BAD_DIGIT);
        }
        var b: Byte := HexValue(high) * 16 + HexValue(low);
        PrefixedTwice(data, [b], TakeHex(channel, n - |data| - 1));
        assert TakeHex(before, n - |data|) == Prefixed([b], TakeHex(channel, n - |data| - 1));
        data := data + [b];
      }
      assert data + [] == data;
      return Bytes(data);
    }

    // The next header, whatever comes before it skipped; `pads` ZPADs were
    // read already.
    method ReadHeader(pads: nat) returns (result: HeaderResult)
      modifies this
      ensures Read(result, channel) == ReadHeaderFrom(old(channel), pads)
    {
      var stars := pads;
      while true
        invariant SkipToHeader(channel, stars) == SkipToHeader(old(channel), pads)
        decreases |channel|
      {
        var b := Raw();
        if b == TIMEOUT {
          return TimedOut;
        }
        if b == CLOSED {
          return ChannelClosed;
        }
        if b == ZPAD {
          stars := stars + 1;
          continue;
        }
        if b == ZDLE && stars > 0 {
          break;
        }
        stars := 0;
      }
      var kind := Raw();
      if kind < 0 {
        return if kind == TIMEOUT then TimedOut else ChannelClosed;
      }
      if kind == 0x42 {
        var digits := TakeHexBytes(7);
        match digits {
          case Stopped(code) =>
            return if code == BAD_DIGIT then Bad else if code == TIMEOUT then TimedOut else ChannelClosed;
          case Bytes(data) =>
            var crc := Crc.ZmodemCrc16(Bits(data[..5]), 0);
            if 256 * (data[5] as int) + data[6] != crc as int {
              return Bad;
            }
            return Got(HeaderOf(data[..5]), false);
        }
      } else if kind == 0x41 || kind == 0x43 {
        result := ReadBinaryHeader(kind == 0x43);
      } else {
        return Bad;
      }
    }

    method ReadBinaryHeader(long: bool) returns (result: HeaderResult)
      modifies this
      ensures Read(result, channel) == BinaryHeaderBody(old(channel), long)
    {
      var body := Take(5);
      if body.Stopped? {
        return
          if body.code == GOT_CANCEL then Cancelled
          else if body.code == TIMEOUT then TimedOut
          else if body.code < 0 then ChannelClosed
          else Bad;
      }
      var check := Take(if long then 4 else 2);
      if check.Stopped? {
        return if check.code == CLOSED then ChannelClosed else Bad;
      }
      var expected := Checksum(body.data, long);
      if check.data != expected {
        return Bad;
      }
      return Got(HeaderOf(body.data), long);
    }

    // One data subpacket; only a whole one adds its bytes to `data`.
    method ReadSubpacket(long: bool, data: seq<Byte>, limit: nat) returns (result: SubpacketResult, grown: seq<Byte>)
      modifies this
      ensures Read(result, channel) == ReadSubpacketFrom(old(channel), long, |data|, limit)
      ensures grown == if result.Whole? then data + result.data else data
    {
      grown := data;
      var block := ReadToEnd(|data|, limit);
      match block {
        case Gave(other) =>
          result := other;
        case Finished(bytes, end) =>
          result := JudgeSubpacket(long, bytes, end);
          if result.Whole? {
            grown := data + bytes;
          }
      }
    }

    // A subpacket's bytes, up to its ending letter.
    method ReadToEnd(held: nat, limit: nat) returns (result: BlockResult)
      modifies this
      ensures Read(result, channel) == ReadBlock(old(channel), held, limit, [])
    {
      var block: seq<Byte> := [];
      while true
        invariant ReadBlock(channel, held, limit, block) == ReadBlock(old(channel), held, limit, [])
        decreases |channel|
      {
        var b := Unescaped();
        if b == GOT_CANCEL {
          return Gave(SubCancelled);
        }
        if b == TIMEOUT {
          return Gave(SubTimedOut);
        }
        if b == CLOSED {
          return Gave(SubClosed);
        }
        if b >= FRAME_END_BASE {
          return Finished(block, b - FRAME_END_BASE);
        }
        if held + |block| + 1 > limit {
          return Gave(SubTooBig);
        }
        block := block + [b];
      }
    }

    // The checksum of a subpacket read to its end.
    method JudgeSubpacket(long: bool, block: seq<Byte>, end: Byte) returns (result: SubpacketResult)
      modifies this
      ensures Read(result, channel) == SubpacketCheck(old(channel), long, block, end)
    {
      var check := Take(if long then 4 else 2);
      if check.Stopped? {
        return if check.code == CLOSED then SubClosed else SubBad;
      }
      var expected := Checksum(block + [end], long);
      return if check.data == expected then Whole(block, end) else SubBad;
    }
  }

  // What a longer read gives, `data` having been read before.
  function Prefixed(data: seq<Byte>, r: Read<Taken>): Read<Taken> {
    match r.result
    case Stopped(code) => r
    case Bytes(more) => Read(Bytes(data + more), r.rest)
  }

  lemma PrefixedNone(r: Read<Taken>)
    ensures Prefixed([], r) == r
  {
    if r.result.Bytes? {
      assert [] + r.result.data == r.result.data;
    }
  }

  lemma PrefixedTwice(a: seq<Byte>, b: seq<Byte>, r: Read<Taken>)
    ensures Prefixed(a, Prefixed(b, r)) == Prefixed(a + b, r)
  {
    if r.result.Bytes? {
      assert a + (b + r.result.data) == (a + b) + r.result.data;
    }
  }
}
