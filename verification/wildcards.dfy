// Callsigns typed with a "?": the tightest place the characters fit, in
// order, and the pattern a database looks for.
module Wildcards {
  // Where each letter is found, in order.
  predicate Embeds(letters: string, callsign: string, p: seq<nat>) {
    && |p| == |letters| && Ascends(p)
    && forall k :: 0 <= k < |p| ==> p[k] < |callsign| && callsign[p[k]] == letters[k]
  }

  predicate Ascends(p: seq<nat>) {
    forall j, k :: 0 <= j < k < |p| ==> p[j] < p[k]
  }

  predicate Fits(letters: string, callsign: string, anchored: bool, p: seq<nat>) {
    Embeds(letters, callsign, p) && (anchored && letters != [] ==> p[0] == 0)
  }

  function Span(p: seq<nat>): int
    requires p != []
  {
    var first: int, last: int := p[0], p[|p| - 1];
    last - first + 1
  }

  // The smallest span there is, or -1 if they don't fit.
  method WildcardSpan(letters: string, callsign: string, anchored: bool) returns (best: int)
    ensures letters == [] ==> best == -1
    ensures letters != [] && best == -1 ==> forall p :: !Fits(letters, callsign, anchored, p)
    ensures letters != [] && best != -1 ==>
              && (exists p :: Fits(letters, callsign, anchored, p) && Span(p) == best)
              && (forall p :: Fits(letters, callsign, anchored, p) ==> best <= Span(p))
  {
    if letters == [] {
      return -1;
    }
    best := -1;
    ghost var found: seq<nat> := [];
    for start := 0 to |callsign|
      invariant best == -1 ==> forall p :: Fits(letters, callsign, anchored, p) ==> start <= p[0]
      invariant best != -1 ==>
                  && Fits(letters, callsign, anchored, found) && Span(found) == best
                  && forall p :: Fits(letters, callsign, anchored, p) && p[0] < start ==> best <= Span(p)
    {
      if anchored && start > 0 {
        break;
      }
      if callsign[start] != letters[0] {
        continue;
      }
      var at, matched, place := FitFrom(letters, callsign, start);
      if matched < |letters| {
        break;
      }
      var span := at - start + 1;
      if best < 0 || span < best {
        found := place;
      }
      best := if best < 0 || span < best then span else best;
    }
    assert forall p :: Fits(letters, callsign, anchored, p) ==> p[0] < |callsign|;
  }

  // Each letter at its first place after the one before: as early as they can
  // be, from `start` on.
  method FitFrom(letters: string, callsign: string, start: nat) returns (at: nat, matched: nat, ghost place: seq<nat>)
    requires letters != [] && start < |callsign| && callsign[start] == letters[0]
    ensures matched <= |letters|
    ensures matched < |letters| ==> forall p :: Embeds(letters, callsign, p) ==> p[0] < start
    ensures matched == |letters| ==>
              && Embeds(letters, callsign, place) && place[0] == start && place[|place| - 1] == at
              && forall p :: Embeds(letters, callsign, p) && start <= p[0] ==> at <= p[|p| - 1]
  {
    at, matched, place := start, 1, [start];
    while matched < |letters| && at + 1 < |callsign|
      invariant 1 <= matched <= |letters| && start <= at < |callsign|
      invariant Embeds(letters[..matched], callsign, place) && place[0] == start && place[matched - 1] <= at
      invariant matched == |letters| ==> place[matched - 1] == at
      invariant forall p :: Embeds(letters, callsign, p) && start <= p[0] ==>
                  place[matched - 1] <= p[matched - 1] && (matched < |letters| ==> at < p[matched])
      decreases |callsign| - at
    {
      at := at + 1;
      if callsign[at] == letters[matched] {
        place := place + [at];
        matched := matched + 1;
      }
    }
    assert letters[..|letters|] == letters;
    if matched < |letters| {
      at := at + 1;
      forall p | Embeds(letters, callsign, p)
        ensures p[0] < start
      {
        assert p[matched] < |callsign|;
      }
    }
  }

  // ---- The pattern ----

  // What a pattern matches: "%" anything, "_" any one character, and any other
  // itself, whatever its case.
  predicate Like(pattern: string, text: string)
    decreases |pattern| + |text|
  {
    if pattern == [] then text == []
    else if pattern[0] == '%' then Like(pattern[1..], text) || (text != [] && Like(pattern, text[1..]))
    else text != [] && (pattern[0] == '_' || Upper(pattern[0]) == Upper(text[0])) && Like(pattern[1..], text[1..])
  }

  function Upper(c: char): char {
    if 'a' <= c <= 'z' then (c as int - 32) as char else c
  }

  // Characters a callsign may have, and the text reduced to them.
  predicate IsCallsignChar(c: char) {
    'A' <= c <= 'Z' || '0' <= c <= '9' || c == '/'
  }

  predicate IsCallsign(text: string) {
    forall i :: 0 <= i < |text| ==> IsCallsignChar(text[i])
  }

  function Normalized(text: string): (r: string)
    ensures IsCallsign(r)
  {
    if text == [] then []
    else
      var before, c := Normalized(text[..|text| - 1]), Upper(text[|text| - 1]);
      if IsCallsignChar(c) then before + [c] else before
  }

  method NormalizeCallsign(value: string) returns (result: string)
    ensures result == Normalized(value)
  {
    result := [];
    for i := 0 to |value|
      invariant result == Normalized(value[..i])
    {
      assert value[..i + 1][..i] == value[..i];
      var c := value[i];
      if 'a' <= c <= 'z' || 'A' <= c <= 'Z' || '0' <= c <= '9' {
        result := result + [Upper(c)];
      } else if c == '/' {
        result := result + [c];
      }
    }
    assert value[..|value|] == value;
  }

  function Pattern(letters: string): string {
    if letters == [] then [] else [letters[0], '%'] + Pattern(letters[1..])
  }

  lemma {:induction false} PatternMore(letters: string, c: char)
    ensures Pattern(letters + [c]) == Pattern(letters) + [c, '%']
  {
    if letters == [] {
      assert [c][1..] == [];
    } else {
      assert (letters + [c])[1..] == letters[1..] + [c];
      PatternMore(letters[1..], c);
    }
  }

  // A callsign is like the pattern exactly when the characters typed fit in
  // it.
  method WildcardLikePattern(typed: string, anchored: bool) returns (pattern: string)
    ensures Normalized(typed) != [] ==>
              forall callsign :: IsCallsign(callsign) ==>
                (Like(pattern, callsign) <==> exists p :: Fits(Normalized(typed), callsign, anchored, p))
  {
    pattern := if anchored then "" else "%";
    ghost var first := pattern;
    var letters := NormalizeCallsign(typed);
    for i := 0 to |letters|
      invariant pattern == first + Pattern(letters[..i])
    {
      PatternMore(letters[..i], letters[i]);
      assert letters[..i + 1] == letters[..i] + [letters[i]];
      pattern := pattern + [letters[i]];
      pattern := pattern + ['%'];
    }
    assert letters[..|letters|] == letters;
    if letters != [] {
      forall callsign | IsCallsign(callsign)
        ensures Like(pattern, callsign) <==> exists p :: Fits(letters, callsign, anchored, p)
      {
        if anchored {
          assert pattern == Pattern(letters);
          AnchoredMeans(letters, callsign);
        } else {
          AnywhereMeans(letters, callsign);
        }
      }
    }
  }

  ghost predicate FitsFrom(letters: string, callsign: string, anchored: bool) {
    exists p :: Fits(letters, callsign, anchored, p)
  }

  lemma {:induction false} AnchoredMeans(letters: string, callsign: string)
    requires letters != [] && IsCallsign(letters) && IsCallsign(callsign)
    ensures Like(Pattern(letters), callsign) <==> FitsFrom(letters, callsign, true)
    decreases |letters| + |callsign|, 0
  {
    var more := ['%'] + Pattern(letters[1..]);
    assert Pattern(letters)[0] == letters[0] && Pattern(letters)[1..] == more;
    assert IsCallsignChar(letters[0]);
    if callsign != [] {
      assert IsCallsignChar(callsign[0]);
      assert Like(Pattern(letters), callsign) <==> callsign[0] == letters[0] && Like(more, callsign[1..]);
      RestMeans(letters[1..], callsign[1..]);
      FirstAndRest(letters, callsign);
    }
  }

  lemma RestMeans(letters: string, callsign: string)
    requires IsCallsign(letters) && IsCallsign(callsign)
    ensures Like(['%'] + Pattern(letters), callsign) <==> FitsFrom(letters, callsign, false)
    decreases |letters| + |callsign|, 2
  {
    if letters == [] {
      AnythingIsLike(callsign);
      assert Fits(letters, callsign, false, []);
    } else {
      AnywhereMeans(letters, callsign);
    }
  }

  lemma {:induction false} AnythingIsLike(callsign: string)
    ensures Like(['%'] + Pattern([]), callsign)
    decreases |callsign|
  {
    assert (['%'] + Pattern([]))[1..] == [];
    if callsign != [] {
      AnythingIsLike(callsign[1..]);
    }
  }

  lemma {:induction false} AnywhereMeans(letters: string, callsign: string)
    requires letters != [] && IsCallsign(letters) && IsCallsign(callsign)
    ensures Like(['%'] + Pattern(letters), callsign) <==> FitsFrom(letters, callsign, false)
    decreases |letters| + |callsign|, 1
  {
    var pattern := ['%'] + Pattern(letters);
    assert pattern[1..] == Pattern(letters);
    AnchoredMeans(letters, callsign);
    if callsign != [] {
      AnywhereMeans(letters, callsign[1..]);
    }
    HereOrLater(letters, callsign);
  }

  // Somewhere is at the start, or somewhere after it.
  lemma HereOrLater(letters: string, callsign: string)
    requires letters != []
    ensures FitsFrom(letters, callsign, false) <==>
              FitsFrom(letters, callsign, true) || (callsign != [] && FitsFrom(letters, callsign[1..], false))
  {
    if FitsFrom(letters, callsign, false) {
      var p :| Fits(letters, callsign, false, p);
      if p[0] == 0 {
        assert Fits(letters, callsign, true, p);
      } else {
        var q := seq(|p|, k requires 0 <= k < |p| => if p[k] > 0 then p[k] - 1 else 0);
        assert forall k :: 0 <= k < |p| ==> p[0] <= p[k];
        assert Fits(letters, callsign[1..], false, q);
      }
    }
    if FitsFrom(letters, callsign, true) {
      var p :| Fits(letters, callsign, true, p);
      assert Fits(letters, callsign, false, p);
    }
    if callsign != [] && FitsFrom(letters, callsign[1..], false) {
      var q :| Fits(letters, callsign[1..], false, q);
      assert Fits(letters, callsign, false, Later(q));
    }
  }

  function Later(p: seq<nat>): (q: seq<nat>)
    ensures |q| == |p| && forall k :: 0 <= k < |p| ==> q[k] == p[k] + 1
  {
    seq(|p|, k requires 0 <= k < |p| => p[k] + 1)
  }

  // At the start is the first letter there, and the others anywhere after.
  lemma FirstAndRest(letters: string, callsign: string)
    requires letters != [] && callsign != []
    ensures FitsFrom(letters, callsign, true) <==> callsign[0] == letters[0] && FitsFrom(letters[1..], callsign[1..], false)
  {
    if FitsFrom(letters, callsign, true) {
      var p :| Fits(letters, callsign, true, p);
      var q := DropFirst(letters, callsign, p);
    }
    if callsign[0] == letters[0] && FitsFrom(letters[1..], callsign[1..], false) {
      var q :| Fits(letters[1..], callsign[1..], false, q);
      AddFirst(letters, callsign, q);
    }
  }

  lemma DropFirst(letters: string, callsign: string, p: seq<nat>) returns (q: seq<nat>)
    requires letters != [] && callsign != [] && Fits(letters, callsign, true, p)
    ensures Fits(letters[1..], callsign[1..], false, q)
  {
    q := seq(|p| - 1, k requires 0 <= k < |p| - 1 => if p[k + 1] > 0 then p[k + 1] - 1 else 0);
    forall k | 0 <= k < |q|
      ensures q[k] + 1 == p[k + 1] && letters[1..][k] == letters[k + 1] && q[k] < |callsign[1..]|
              && callsign[1..][q[k]] == letters[1..][k]
    {
      assert p[0] < p[k + 1];
    }
  }

  lemma AddFirst(letters: string, callsign: string, q: seq<nat>)
    requires letters != [] && callsign != [] && callsign[0] == letters[0] && Fits(letters[1..], callsign[1..], false, q)
    ensures Fits(letters, callsign, true, [0] + Later(q))
  {
    var p := [0] + Later(q);
    assert forall k :: 0 < k < |p| ==> p[k] == q[k - 1] + 1;
    assert Ascends(p) by {
      forall j, k | 0 <= j < k < |p|
        ensures p[j] < p[k]
      {
        if j > 0 {
          assert q[j - 1] < q[k - 1];
        }
      }
    }
    forall k | 0 <= k < |p|
      ensures p[k] < |callsign| && callsign[p[k]] == letters[k]
    {
      if k > 0 {
        assert p[k] == q[k - 1] + 1 && letters[k] == letters[1..][k - 1];
      }
    }
  }
}
