// Frequencies in megahertz, and those in free text.
module Frequencies {
  import opened Characters

  const MHZ: int := 1_000_000

  // The bands' edges in hertz.
  const BANDS: seq<(int, int)> := [
    (135_700, 137_800), (472_000, 479_000), (1_800_000, 2_000_000), (3_500_000, 4_000_000), (5_330_500, 5_406_500),
    (7_000_000, 7_300_000), (10_100_000, 10_150_000), (14_000_000, 14_350_000), (18_068_000, 18_168_000),
    (21_000_000, 21_450_000), (24_890_000, 24_990_000), (28_000_000, 29_700_000), (50 * MHZ, 54 * MHZ),
    (144 * MHZ, 148 * MHZ), (219 * MHZ, 225 * MHZ), (420 * MHZ, 450 * MHZ), (902 * MHZ, 928 * MHZ),
    (1240 * MHZ, 1300 * MHZ), (2300 * MHZ, 2310 * MHZ), (2390 * MHZ, 2450 * MHZ), (3300 * MHZ, 3500 * MHZ),
    (5650 * MHZ, 5925 * MHZ), (10_000 * MHZ, 10_500 * MHZ), (24_000 * MHZ, 24_250 * MHZ), (47_000 * MHZ, 47_200 * MHZ),
    (76_000 * MHZ, 81_000 * MHZ), (122_250 * MHZ, 123_000 * MHZ), (134_000 * MHZ, 141_000 * MHZ),
    (241_000 * MHZ, 250_000 * MHZ), (275_000 * MHZ, 3_000_000 * MHZ)]

  predicate AllDigits(text: string) {
    forall i :: 0 <= i < |text| ==> IsDigit(text[i])
  }

  function ValueOf(digits: string): int {
    if digits == [] then 0 else 10 * ValueOf(digits[..|digits| - 1]) + (digits[|digits| - 1] as int - '0' as int)
  }

  function TenTo(n: nat): int {
    if n == 0 then 1 else 10 * TenTo(n - 1)
  }

  // Where the first point is, or the end.
  function Point(text: string): (p: nat)
    ensures p <= |text| && '.' !in text[..p] && (p < |text| ==> text[p] == '.')
  {
    if text == [] || text[0] == '.' then 0
    else
      var p := 1 + Point(text[1..]);
      assert text[..p] == [text[0]] + text[1..][..p - 1];
      p
  }

  function Fraction(text: string): string {
    if Point(text) < |text| then text[Point(text) + 1..] else []
  }

  // Up to seven digits, and up to six more after a point.
  predicate IsMhz(text: string) {
    && 0 < Point(text) <= 7 && AllDigits(text[..Point(text)])
    && |Fraction(text)| <= 6 && AllDigits(Fraction(text))
  }

  function Hertz(text: string): int
    requires IsMhz(text)
  {
    ValueOf(text[..Point(text)]) * MHZ + ValueOf(Fraction(text)) * TenTo(6 - |Fraction(text)|)
  }

  predicate IsAmateur(text: string) {
    IsMhz(text) && exists k :: 0 <= k < |BANDS| && BANDS[k].0 <= Hertz(text) <= BANDS[k].1
  }

  datatype Frequency = Frequency(hz: int) | NotMhz

  method FindPoint(text: string) returns (p: nat)
    ensures p == Point(text)
  {
    p := 0;
    while p < |text| && text[p] != '.'
      invariant p <= |text| && Point(text) == p + Point(text[p..])
    {
      assert text[p..][1..] == text[p + 1..];
      p := p + 1;
    }
  }

  method ParseMhz(text: string) returns (f: Frequency)
    ensures f == if IsMhz(text) then Frequency(Hertz(text)) else NotMhz
  {
    var point := FindPoint(text);
    var whole := text[..point];
    var fraction := if point < |text| then text[point + 1..] else [];
    if whole == [] || |whole| > 7 || |fraction| > 6 {
      return NotMhz;
    }
    var w := ParseWhole(whole);
    if w.NotMhz? {
      return NotMhz;
    }
    f := ParseFraction(w.hz, fraction);
  }

  method ParseWhole(whole: string) returns (f: Frequency)
    ensures f == if AllDigits(whole) then Frequency(ValueOf(whole)) else NotMhz
  {
    var value := 0;
    for k := 0 to |whole|
      invariant value == ValueOf(whole[..k]) && AllDigits(whole[..k])
    {
      if !IsDigit(whole[k]) {
        return NotMhz;
      }
      assert whole[..k + 1][..k] == whole[..k];
      value := value * 10 + (whole[k] as int - '0' as int);
    }
    assert whole[..|whole|] == whole;
    f := Frequency(value);
  }

  method ParseFraction(value: int, fraction: string) returns (f: Frequency)
    requires |fraction| <= 6
    ensures f == if AllDigits(fraction) then Frequency(value * MHZ + ValueOf(fraction) * TenTo(6 - |fraction|)) else NotMhz
  {
    var hz, place := 0, MHZ;
    for k := 0 to |fraction|
      invariant place == TenTo(6 - k) && hz == ValueOf(fraction[..k]) * place && AllDigits(fraction[..k])
    {
      if !IsDigit(fraction[k]) {
        return NotMhz;
      }
      assert fraction[..k + 1][..k] == fraction[..k];
      var digit := fraction[k] as int - '0' as int;
      Shifted(ValueOf(fraction[..k]), TenTo(6 - k - 1), digit);
      place := place / 10;
      hz := hz + digit * place;
    }
    assert fraction[..|fraction|] == fraction;
    f := Frequency(value * MHZ + hz);
  }

  lemma Shifted(value: int, place: int, digit: int)
    ensures value * (10 * place) + digit * place == (10 * value + digit) * place
  {
    assert value * (10 * place) == (10 * value) * place;
  }

  method IsAmateurFrequency(text: string) returns (r: bool)
    ensures r <==> IsAmateur(text)
  {
    var f := ParseMhz(text);
    if f.NotMhz? {
      return false;
    }
    for k := 0 to |BANDS|
      invariant forall j :: 0 <= j < k ==> !(BANDS[j].0 <= f.hz <= BANDS[j].1)
    {
      if f.hz >= BANDS[k].0 && f.hz <= BANDS[k].1 {
        return true;
      }
    }
    r := false;
  }

  // ---- A frequency in free text ----

  // Where a number with at most one point, from `i` on, ends.
  function NumberEnd(text: string, i: nat, seenPoint: bool): (end: nat)
    requires i <= |text|
    ensures i <= end <= |text|
    decreases |text| - i
  {
    if i < |text| && (IsDigit(text[i]) || (text[i] == '.' && !seenPoint))
    then NumberEnd(text, i + 1, seenPoint || text[i] == '.')
    else i
  }

  // A number at a sentence's end is not meant to have its point.
  function WithoutEnd(number: string): string {
    if number != [] && number[|number| - 1] == '.' then number[..|number| - 1] else number
  }

  predicate IsWanted(number: string, amateur: string -> bool) {
    '.' in number && amateur(number)
  }

  // The first amateur frequency written with a point, from `i` on.
  function FrequencyFrom(text: string, i: nat, amateur: string -> bool): string
    requires i <= |text|
    decreases |text| - i
  {
    if i == |text| then []
    else if !IsDigit(text[i]) then FrequencyFrom(text, i + 1, amateur)
    else
      var end := NumberEnd(text, i + 1, false);
      var number := WithoutEnd(text[i..end]);
      if IsWanted(number, amateur) then number else FrequencyFrom(text, end, amateur)
  }

  // The number that starts with the digit at `start`, and where it ends.
  method TakeNumber(text: string, start: nat) returns (number: string, i: nat)
    requires start < |text| && IsDigit(text[start])
    ensures i == NumberEnd(text, start + 1, false) && number == WithoutEnd(text[start..i])
  {
    var seenPoint := false;
    i := start;
    while i < |text| && (IsDigit(text[i]) || (text[i] == '.' && !seenPoint))
      invariant start <= i <= |text| && NumberEnd(text, start, false) == NumberEnd(text, i, seenPoint)
    {
      seenPoint := seenPoint || text[i] == '.';
      i := i + 1;
    }
    number := text[start..i];
    if number != [] && number[|number| - 1] == '.' {
      number := number[..|number| - 1];
    }
  }

  method ExtractAmateurFrequency(text: string) returns (frequency: string)
    ensures frequency == FrequencyFrom(text, 0, IsAmateur)
  {
    var i: nat := 0;
    while i < |text|
      invariant i <= |text| && FrequencyFrom(text, 0, IsAmateur) == FrequencyFrom(text, i, IsAmateur)
    {
      if !IsDigit(text[i]) {
        i := i + 1;
        continue;
      }
      var number;
      number, i := TakeNumber(text, i);
      var amateur := IsAmateurFrequency(number);
      if '.' in number && amateur {
        return number;
      }
    }
    frequency := [];
  }

  // It is blank or an amateur frequency that is there in the text.
  lemma {:induction false} FrequencyIs(text: string, i: nat, amateur: string -> bool)
    requires i <= |text|
    ensures var r := FrequencyFrom(text, i, amateur); r == [] || (IsWanted(r, amateur) && Has(text, r))
    decreases |text| - i
  {
    if i < |text| && !IsDigit(text[i]) {
      FrequencyIs(text, i + 1, amateur);
    } else if i < |text| {
      var end := NumberEnd(text, i + 1, false);
      var number := WithoutEnd(text[i..end]);
      if IsWanted(number, amateur) {
        assert IsPart(text, number, i);
      } else {
        FrequencyIs(text, end, amateur);
      }
    }
  }

  predicate IsPart(text: string, part: string, s: nat) {
    s + |part| <= |text| && text[s..s + |part|] == part
  }

  ghost predicate Has(text: string, part: string) {
    exists s: nat :: IsPart(text, part, s)
  }

  lemma {:induction false} NumberRuns(text: string, i: nat, point: nat, end: nat)
    requires i <= end <= |text| && point < end && text[point] == '.'
    requires forall k :: i <= k < end && k != point ==> IsDigit(text[k])
    requires end < |text| ==> !IsDigit(text[end])
    ensures NumberEnd(text, i, i > point) == end
    decreases end - i
  {
    if i < end {
      NumberRuns(text, i + 1, point, end);
    }
  }

  lemma {:induction false} NoNumberYet(text: string, i: nat, n: nat, amateur: string -> bool)
    requires i <= n <= |text| && forall k :: i <= k < n ==> !IsDigit(text[k])
    ensures FrequencyFrom(text, i, amateur) == FrequencyFrom(text, n, amateur)
    decreases n - i
  {
    if i < n {
      NoNumberYet(text, i + 1, n, amateur);
    }
  }

  // The first number of a text is found if it is an amateur frequency with
  // digits after its point.
  lemma FirstNumberIsFound(before: string, frequency: string, after: string, amateur: string -> bool)
    requires IsWanted(frequency, amateur) && IsMhz(frequency) && frequency[|frequency| - 1] != '.'
    requires (forall k :: 0 <= k < |before| ==> !IsDigit(before[k])) && (after == [] || !IsDigit(after[0]))
    ensures FrequencyFrom(before + (frequency + after), 0, amateur) == frequency
  {
    var text := before + (frequency + after);
    var p := Point(frequency);
    PointInside(frequency);
    NoNumberYet(text, 0, |before|, amateur);
    Placed(text, before, frequency, after);
    NumberIsThere(text, |before|, frequency, p, after);
    FoundHere(text, |before|, frequency, amateur);
  }

  lemma FoundHere(text: string, n: nat, frequency: string, amateur: string -> bool)
    requires n < |text| && IsDigit(text[n]) && IsPart(text, frequency, n)
    requires NumberEnd(text, n + 1, false) == n + |frequency|
    requires IsWanted(frequency, amateur) && frequency[|frequency| - 1] != '.'
    ensures FrequencyFrom(text, n, amateur) == frequency
  {
  }

  lemma Placed(text: string, before: string, frequency: string, after: string)
    requires text == before + (frequency + after)
    ensures IsPart(text, frequency, |before|) && text[|before| + |frequency|..] == after
  {
  }

  lemma NumberIsThere(text: string, n: nat, frequency: string, p: nat, after: string)
    requires IsPart(text, frequency, n) && text[n + |frequency|..] == after && (after == [] || !IsDigit(after[0]))
    requires HasPoint(frequency, p)
    ensures IsDigit(text[n]) && NumberEnd(text, n + 1, false) == n + |frequency|
  {
    var end := n + |frequency|;
    forall k | n <= k < end ensures text[k] == frequency[k - n] {
      assert text[n..end][k - n] == text[k];
    }
    assert end < |text| ==> text[end] == after[0];
    NumberRuns(text, n + 1, n + p, end);
  }

  // Digits, but for one point that isn't the first of them.
  predicate HasPoint(f: string, p: nat) {
    0 < p < |f| && f[p] == '.' && forall k :: 0 <= k < |f| && k != p ==> IsDigit(f[k])
  }

  lemma PointInside(f: string)
    requires IsMhz(f) && '.' in f
    ensures HasPoint(f, Point(f))
  {
    var p := Point(f);
    assert p < |f| by {
      assert f[..|f|] == f;
    }
    forall k | 0 <= k < |f| && k != p ensures IsDigit(f[k]) {
      if k < p {
        assert f[..p][k] == f[k];
      } else {
        assert Fraction(f)[k - p - 1] == f[k];
      }
    }
  }

  // What is not a frequency goes to the comments, and one in it stays.
  function Amended(frequency: string, comments: string): (string, string) {
    if frequency == [] || IsAmateur(frequency) then (frequency, comments)
    else (FrequencyFrom(frequency, 0, IsAmateur), comments + (if comments == [] then "" else "; ") + "Frequency: " + frequency)
  }

  method MoveBadFrequencyToComments(frequency: string, comments: string)
    returns (changed: bool, newFrequency: string, newComments: string)
    ensures (newFrequency, newComments) == Amended(frequency, comments)
    ensures newFrequency == [] || IsAmateur(newFrequency)
    ensures changed <==> frequency != [] && !IsAmateur(frequency)
  {
    newFrequency, newComments := frequency, comments;
    var amateur := IsAmateurFrequency(frequency);
    if frequency == [] || amateur {
      return false, frequency, comments;
    }
    newComments := comments + (if comments == [] then "" else "; ") + "Frequency: " + frequency;
    newFrequency := ExtractAmateurFrequency(frequency);
    FrequencyIs(frequency, 0, IsAmateur);
    changed := true;
  }

}
