// Data that comes where a header is awaited: when it is passed over, and when
// it is taken for the start of one.
module ZmodemSkipping {
  import opened Bytes
  import opened ZmodemReader
  import opened ZmodemRoundTrip
  import opened ZmodemWire

  predicate AllBytes(w: seq<Symbol>) {
    forall i :: 0 <= i < |w| ==> w[i] >= 0
  }

  // Somewhere a ZDLE comes right after a ZPAD, as in every header.
  predicate StartsAt(w: seq<Symbol>, i: nat) {
    i + 1 < |w| && w[i] == ZPAD && w[i + 1] == ZDLE
  }

  predicate Starts(w: seq<Symbol>) {
    exists i: nat :: i < |w| && StartsAt(w, i)
  }

  predicate BeginsWithPad(rest: seq<Symbol>) {
    rest != [] && rest[0] == ZPAD
  }

  // ---- Passed over ----

  // How many ZPADs have just been read.
  function PadsAfter(w: seq<Symbol>, pads: nat): nat {
    if w == [] then pads else PadsAfter(w[1..], if w[0] == ZPAD then pads + 1 else 0)
  }

  lemma {:induction false} Skips(w: seq<Symbol>, rest: seq<Symbol>, pads: nat)
    requires AllBytes(w) && !Starts(w) && !(pads > 0 && w != [] && w[0] == ZDLE)
    ensures SkipToHeader(w + rest, pads) == SkipToHeader(rest, PadsAfter(w, pads))
  {
    if w == [] {
      assert w + rest == rest;
    } else {
      assert (w + rest)[0] == w[0] && (w + rest)[1..] == w[1..] + rest;
      forall i: nat | i < |w[1..]| ensures !StartsAt(w[1..], i) {
        assert !StartsAt(w, i + 1);
      }
      assert !StartsAt(w, 0);
      Skips(w[1..], rest, if w[0] == ZPAD then pads + 1 else 0);
    }
  }

  // One ZPAD is as good as many.
  lemma {:induction false} PadsAlike(input: seq<Symbol>, a: nat, b: nat)
    requires a > 0 && b > 0
    ensures SkipToHeader(input, a) == SkipToHeader(input, b)
    decreases |input|
  {
    if input != [] && input[0] == ZPAD {
      PadsAlike(input[1..], a + 1, b + 1);
    }
  }

  lemma PassedOver(w: seq<Symbol>, rest: seq<Symbol>)
    requires AllBytes(w) && !Starts(w) && BeginsWithPad(rest)
    ensures ReadHeaderFrom(w + rest, 0) == ReadHeaderFrom(rest, 0)
  {
    Skips(w, rest, 0);
    PadsAlike(rest[1..], PadsAfter(w, 0) + 1, 1);
  }

  // ---- Not passed over ----

  function Pads(count: nat): (w: seq<Symbol>)
    ensures |w| == count && forall i :: 0 <= i < count ==> w[i] == ZPAD
  {
    seq(count, i => ZPAD)
  }

  // Bytes, the last of them ZPADs.
  predicate EndsInPads(w: seq<Symbol>, count: nat) {
    AllBytes(w) && count <= |w| && forall i :: |w| - count <= i < |w| ==> w[i] == ZPAD
  }

  lemma EndsLater(w: seq<Symbol>, count: nat)
    requires EndsInPads(w, count) && w != []
    ensures EndsInPads(w[1..], if count == |w| then count - 1 else count)
  {
  }

  lemma {:induction false} NoHeaderInPads(count: nat, pads: nat)
    ensures SkipToHeader(Pads(count), pads) == Read(CLOSED, [])
    decreases count
  {
    if count > 0 {
      assert Pads(count)[1..] == Pads(count - 1);
      NoHeaderInPads(count - 1, pads + 1);
    }
  }

  lemma {:induction false} UnescapesOn(w: seq<Symbol>, count: nat)
    requires EndsInPads(w, count) && count >= 2
    ensures Unescape(w).result >= 0 && EndsInPads(Unescape(w).rest, count - 2)
    decreases |w|, 1
  {
    EndsLater(w, count);
    if IsFlowControl(w[0]) {
      UnescapesOn(w[1..], count);
    } else if w[0] == ZDLE {
      AfterZdleOn(w[1..], 1, count);
    }
  }

  lemma {:induction false} AfterZdleOn(w: seq<Symbol>, zdles: nat, count: nat)
    requires EndsInPads(w, count) && count >= 2
    ensures AfterZdle(w, zdles).result >= 0 && EndsInPads(AfterZdle(w, zdles).rest, count - 2)
    decreases |w|, 0
  {
    EndsLater(w, count);
    if w[0] == ZDLE {
      if zdles + 1 < 5 {
        AfterZdleOn(w[1..], zdles + 1, count);
      }
    } else if !IsFrameEnd(w[0]) && w[0] != 0x6C && w[0] != 0x6D && !IsEscapeLetter(w[0]) {
      if |w| == count {
        assert w[1] == ZPAD;
      } else {
        UnescapesOn(w[1..], count);
      }
    }
  }

  lemma {:induction false} TakesOn(w: seq<Symbol>, n: nat, count: nat)
    requires EndsInPads(w, count) && count >= 2 * n
    ensures TakeBytes(w, n).result.Stopped? ==> TakeBytes(w, n).result.code >= 0
    ensures EndsInPads(TakeBytes(w, n).rest, count - 2 * n)
    decreases n
  {
    if n > 0 {
      UnescapesOn(w, count);
      var u := Unescape(w);
      if 0 <= u.result <= 0xFF {
        TakesOn(u.rest, n - 1, count - 2);
      }
    }
  }

  lemma {:induction false} TakesHexOn(w: seq<Symbol>, n: nat, count: nat)
    requires EndsInPads(w, count) && count >= 2
    ensures TakeHex(w, n).result.Stopped? ==> TakeHex(w, n).result.code == BAD_DIGIT
    decreases n
  {
    if n > 0 {
      EndsLater(w, count);
      if HexValue(w[0]) >= 0 && HexValue(w[1]) >= 0 {
        EndsLater(w[1..], count);
        TakesHexOn(w[2..], n - 1, count);
      }
    }
  }

  // Where there is such a start, a header's letter is looked for after it.
  lemma {:induction false} StopsAtStart(w: seq<Symbol>, rest: seq<Symbol>, pads: nat) returns (i: nat)
    requires AllBytes(w) && (Starts(w) || (pads > 0 && w != [] && w[0] == ZDLE))
    ensures i <= |w| && SkipToHeader(w + rest, pads) == Read(ZDLE, w[i..] + rest)
  {
    assert (w + rest)[0] == w[0] && (w + rest)[1..] == w[1..] + rest;
    if w[0] == ZDLE && pads > 0 {
      i := 1;
    } else {
      var next := if w[0] == ZPAD then pads + 1 else 0;
      var k: nat :| k < |w| && StartsAt(w, k);
      if k > 0 {
        assert StartsAt(w[1..], k - 1);
      } else {
        assert w[1..][0] == ZDLE;
      }
      i := StopsAtStart(w[1..], rest, next);
      assert w[1..][i..] == w[i + 1..];
      i := i + 1;
    }
  }

  const MANY: nat := 20

  // Its result is not that the channel closed.
  lemma NotPassedOver(w: seq<Symbol>)
    requires AllBytes(w) && Starts(w)
    ensures ReadHeaderFrom(w + Pads(MANY), 0).result != ReadHeaderFrom(Pads(MANY), 0).result
  {
    NoHeaderInPads(MANY, 0);
    var i := StopsAtStart(w, Pads(MANY), 0);
    var after := w[i..] + Pads(MANY);
    assert EndsInPads(after, MANY);
    EndsLater(after, MANY);
    var count := if |after| == MANY then MANY - 1 else MANY;
    var body := after[1..];
    if after[0] == 0x42 {
      TakesHexOn(body, 7, count);
    } else if after[0] == 0x41 || after[0] == 0x43 {
      TakesOn(body, 5, count);
      TakesOn(TakeBytes(body, 5).rest, CheckSize(after[0] == 0x43), count - 10);
    }
  }

  // Whatever header follows, it is what is read.
  ghost predicate IsPassedOver(w: seq<Symbol>) {
    forall rest | BeginsWithPad(rest) :: ReadHeaderFrom(w + rest, 0) == ReadHeaderFrom(rest, 0)
  }

  // Bytes are passed over exactly if a header's start is nowhere among them.
  lemma PassedOverIff(w: seq<Symbol>)
    requires AllBytes(w)
    ensures IsPassedOver(w) <==> !Starts(w)
  {
    if Starts(w) {
      NotPassedOver(w);
      assert BeginsWithPad(Pads(MANY));
    } else {
      forall rest | BeginsWithPad(rest) ensures ReadHeaderFrom(w + rest, 0) == ReadHeaderFrom(rest, 0) {
        PassedOver(w, rest);
      }
    }
  }

  // ---- Subpackets ----

  // A ZPAD before a byte that is escaped.
  predicate StarsAt(data: seq<Byte>, escapeControls: bool, i: nat) {
    i + 1 < |data| && data[i] == ZPAD && NeedsEscape(data[i + 1], escapeControls, ZPAD)
  }

  predicate Stars(data: seq<Byte>, escapeControls: bool) {
    exists i: nat :: i < |data| && StarsAt(data, escapeControls, i)
  }

  predicate EndsWithPad(w: seq<Symbol>) {
    w != [] && w[|w| - 1] == ZPAD
  }

  predicate BeginsWithZdle(w: seq<Symbol>) {
    w != [] && w[0] == ZDLE
  }

  lemma StartsAppend(a: seq<Symbol>, b: seq<Symbol>)
    ensures Starts(a + b) <==> Starts(a) || Starts(b) || (EndsWithPad(a) && BeginsWithZdle(b))
  {
    var w := a + b;
    if Starts(w) {
      var i: nat :| i < |w| && StartsAt(w, i);
      assert i + 1 < |a| ==> StartsAt(a, i);
      assert i >= |a| ==> StartsAt(b, i - |a|);
    }
    if Starts(a) {
      var i: nat :| i < |a| && StartsAt(a, i);
      assert StartsAt(w, i);
    }
    if Starts(b) {
      var i: nat :| i < |b| && StartsAt(b, i);
      assert StartsAt(w, |a| + i);
    }
    if EndsWithPad(a) && BeginsWithZdle(b) {
      assert StartsAt(w, |a| - 1);
    }
  }

  lemma StarsOneMore(data: seq<Byte>, escapeControls: bool)
    requires data != []
    ensures Stars(data, escapeControls) <==> StarsAt(data, escapeControls, 0) || Stars(data[1..], escapeControls)
  {
    if Stars(data, escapeControls) {
      var i: nat :| i < |data| && StarsAt(data, escapeControls, i);
      assert i > 0 ==> StarsAt(data[1..], escapeControls, i - 1);
    }
    if Stars(data[1..], escapeControls) {
      var i: nat :| i < |data[1..]| && StarsAt(data[1..], escapeControls, i);
      assert StarsAt(data, escapeControls, i + 1);
    }
  }

  // A header's start is among escaped bytes exactly where a ZPAD was before a
  // byte that is escaped.
  lemma {:induction false} EscapedStarts(data: seq<Byte>, escapeControls: bool, previous: Byte)
    ensures var w := EscapeAll(data, escapeControls, previous);
            && AllBytes(w) && (Starts(w) <==> Stars(data, escapeControls)) && (EndsWithPad(w) <==> EndsWithPad(data))
            && (BeginsWithZdle(w) <==> data != [] && NeedsEscape(data[0], escapeControls, previous))
  {
    if data != [] {
      var first, sent := Escape(data[0], escapeControls, previous), Sent(data[0], escapeControls, previous);
      var others := EscapeAll(data[1..], escapeControls, sent);
      EscapedStarts(data[1..], escapeControls, sent);
      assert Flip(data[0]) == ZPAD ==> data[0] == 0x6A;
      StartsAppend(first, others);
      StarsOneMore(data, escapeControls);
    }
  }

  // A subpacket holds a header's start exactly if its data ends with a ZPAD, or
  // a ZPAD in its data or in its checksum comes before a byte that is escaped.
  predicate LooksLikeHeader(data: seq<Byte>, check: seq<Byte>, escapeControls: bool) {
    EndsWithPad(data) || Stars(data, escapeControls) || Stars(check, escapeControls)
  }

  lemma SubpacketStarts(data: seq<Byte>, end: Byte, long: bool, escapeControls: bool)
    requires IsFrameEnd(end)
    ensures var w := DataSubpacketBytes(data, end, long, escapeControls);
            AllBytes(w) && (Starts(w) <==> LooksLikeHeader(data, CheckBytes(data + [end], long), escapeControls))
  {
    var check := CheckBytes(data + [end], long);
    var body, ending := EscapeAll(data, escapeControls, 0), EscapeAll(check, escapeControls, SentAll(data, escapeControls, 0));
    EscapedStarts(data, escapeControls, 0);
    EscapedStarts(check, escapeControls, SentAll(data, escapeControls, 0));
    StartsAppend(body, [ZDLE, end]);
    StartsAppend(body + [ZDLE, end], ending);
    StartsAppend(body + [ZDLE, end] + ending, SubpacketTrailer(end));
  }

  // Where a header is awaited, a subpacket is passed over, whatever header
  // follows it, exactly if it does not look like one.
  lemma SkippedIff(data: seq<Byte>, end: Byte, long: bool, escapeControls: bool)
    requires IsFrameEnd(end)
    ensures IsPassedOver(DataSubpacketBytes(data, end, long, escapeControls))
            <==> !LooksLikeHeader(data, CheckBytes(data + [end], long), escapeControls)
  {
    SubpacketStarts(data, end, long, escapeControls);
    PassedOverIff(DataSubpacketBytes(data, end, long, escapeControls));
  }

  // So is any whose data and checksum have no ZPAD: it is mere noise.
  lemma NoPadIsNoise(data: seq<Byte>, end: Byte, long: bool, escapeControls: bool)
    requires IsFrameEnd(end)
    ensures IsNoise(DataSubpacketBytes(data, end, long, escapeControls)) <==> ZPAD !in data + CheckBytes(data + [end], long)
  {
    var check := CheckBytes(data + [end], long);
    EscapedPads(data, escapeControls, 0);
    EscapedPads(check, escapeControls, SentAll(data, escapeControls, 0));
    var w := DataSubpacketBytes(data, end, long, escapeControls);
    assert IsNoise(w) <==> ZPAD !in w;
  }

  lemma {:induction false} EscapedPads(data: seq<Byte>, escapeControls: bool, previous: Byte)
    ensures ZPAD in EscapeAll(data, escapeControls, previous) <==> ZPAD in data
  {
    if data != [] {
      EscapedPads(data[1..], escapeControls, Sent(data[0], escapeControls, previous));
      assert Flip(data[0]) == ZPAD ==> data[0] == 0x6A;
      assert ZPAD in data <==> data[0] == ZPAD || ZPAD in data[1..];
    }
  }
}
