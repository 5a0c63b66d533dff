// ZIP and postal codes, and those in free text.
module PostalCodes {
  import opened CheckInKeys
  import opened Characters

  function WithoutSpaces(value: string): (code: string)
    ensures |code| <= |value|
  {
    if value == [] then []
    else if value[0] == ' ' then WithoutSpaces(value[1..])
    else [value[0]] + WithoutSpaces(value[1..])
  }

  // Letters and digits in turn.
  predicate Alternates(code: string) {
    forall i :: 0 <= i < |code| ==> if i % 2 == 0 then IsLetter(code[i]) else IsDigit(code[i])
  }

  predicate IsPostalCode(value: string) {
    var code := WithoutSpaces(value);
    (|code| == 3 || |code| == 6) && Alternates(code)
  }

  predicate IsZip(value: string) {
    |value| == 5 && forall i :: 0 <= i < 5 ==> IsDigit(value[i])
  }

  method RemoveSpaces(value: string) returns (code: string)
    ensures code == WithoutSpaces(value)
  {
    code := [];
    for i := 0 to |value|
      invariant code + WithoutSpaces(value[i..]) == WithoutSpaces(value)
    {
      assert value[i..][1..] == value[i + 1..];
      if value[i] != ' ' {
        assert code + ([value[i]] + WithoutSpaces(value[i + 1..])) == code + [value[i]] + WithoutSpaces(value[i + 1..]);
        code := code + [value[i]];
      }
    }
  }

  method IsCanadianPostalCode(value: string) returns (r: bool)
    ensures r <==> IsPostalCode(value)
  {
    var code := RemoveSpaces(value);
    if |code| != 3 && |code| != 6 {
      return false;
    }
    for i := 0 to |code|
      invariant Alternates(code[..i])
    {
      if if i % 2 == 0 then !IsLetter(code[i]) else !IsDigit(code[i]) {
        return false;
      }
    }
    assert code[..|code|] == code;
    r := true;
  }

  // As it is stored.
  function Stored(value: string): string {
    if !IsPostalCode(value) then value
    else
      var code := Upper(WithoutSpaces(value));
      if |code| == 6 then code[..3] + [' '] + code[3..] else code
  }

  method NormalizeZipOrPostalCode(value: string) returns (r: string)
    ensures r == Stored(value)
  {
    var postal := IsCanadianPostalCode(value);
    if !postal {
      return value;
    }
    var code := RemoveSpaces(value);
    code := Upper(code);
    if |code| == 6 {
      code := code[..3] + [' '] + code[3..];
    }
    r := code;
  }

  // A whole code as it is stored.
  predicate IsStoredCode(r: string) {
    && |r| == 7 && r[3] == ' '
    && 'A' <= r[0] <= 'Z' && 'A' <= r[2] <= 'Z' && 'A' <= r[5] <= 'Z'
    && IsDigit(r[1]) && IsDigit(r[4]) && IsDigit(r[6])
  }

  lemma StoredIsCode(value: string)
    requires IsPostalCode(value) && |WithoutSpaces(value)| == 6
    ensures IsStoredCode(Stored(value))
  {
    var code := WithoutSpaces(value);
    assert forall i :: 0 <= i < 6 ==> if i % 2 == 0 then IsLetter(code[i]) else IsDigit(code[i]);
    assert IsLetter(code[0]) && IsDigit(code[1]) && IsLetter(code[2]) && IsDigit(code[3]) && IsLetter(code[4]) && IsDigit(code[5]);
  }

  lemma {:induction false} NoSpaces(value: string)
    requires ' ' !in value
    ensures WithoutSpaces(value) == value
  {
    if value != [] {
      assert ' ' !in value[1..];
      NoSpaces(value[1..]);
    }
  }

  lemma {:induction false} OneSpace(before: string, after: string)
    requires ' ' !in before && ' ' !in after
    ensures WithoutSpaces(before + ([' '] + after)) == before + after
  {
    if before == [] {
      assert before + ([' '] + after) == [' '] + after && ([' '] + after)[1..] == after && before + after == after;
      NoSpaces(after);
    } else {
      assert ' ' !in before[1..];
      OneSpace(before[1..], after);
      assert (before + ([' '] + after))[1..] == before[1..] + ([' '] + after);
      assert [before[0]] + (before[1..] + after) == before + after;
    }
  }

  lemma CodeIsStored(r: string)
    requires IsStoredCode(r)
    ensures WithoutSpaces(r) == r[..3] + r[4..] && IsPostalCode(r) && Stored(r) == r
  {
    var before, after := r[..3], r[4..];
    assert r == before + ([' '] + after);
    assert before == [r[0], r[1], r[2]] && after == [r[4], r[5], r[6]];
    OneSpace(before, after);
    var code := before + after;
    CodeIs(r, code);
    assert code[..3] == before && code[3..] == after && before + [' '] + after == r;
  }

  lemma CodeIs(r: string, code: string)
    requires IsStoredCode(r) && code == [r[0], r[1], r[2]] + [r[4], r[5], r[6]]
    ensures Alternates(code) && |code| == 6 && Upper(code) == code
  {
    forall i | 0 <= i < 6 ensures if i % 2 == 0 then 'A' <= code[i] <= 'Z' else IsDigit(code[i]) {
      if i == 0 || i == 1 || i == 2 {
        assert code[i] == r[i];
      } else {
        assert code[i] == r[i + 1];
      }
    }
    assert forall i :: 0 <= i < 6 ==> UpperChar(code[i]) == code[i];
  }

  // A code already stored stays as it is.
  lemma StoringAgain(value: string)
    ensures Stored(Stored(value)) == Stored(value)
  {
    if IsPostalCode(value) {
      var code := WithoutSpaces(value);
      if |code| == 6 {
        StoredIsCode(value);
        CodeIsStored(Stored(value));
      } else {
        assert IsLetter(code[0]) && IsDigit(code[1]) && IsLetter(code[2]);
        NoSpaces(Stored(value));
        assert Upper(Upper(code)) == Upper(code);
      }
    }
  }

  // ---- In free text ----

  // How many digits there are from `s` on.
  function Run(text: string, s: nat): (n: nat)
    requires s <= |text|
    ensures s + n <= |text| && forall i :: s <= i < s + n ==> IsDigit(text[i])
    ensures s + n < |text| ==> !IsDigit(text[s + n])
    decreases |text| - s
  {
    if s == |text| || !IsDigit(text[s]) then 0 else 1 + Run(text, s + 1)
  }

  // A run of five digits starts here, or of nine: a ZIP and four more.
  predicate IsZipAt(text: string, s: nat)
    requires s <= |text|
  {
    (s == 0 || !IsDigit(text[s - 1])) && (Run(text, s) == 5 || Run(text, s) == 9)
  }

  // The last place before `n` a ZIP starts at, or -1.
  function LastZip(text: string, n: nat): (s: int)
    requires n <= |text|
    ensures -1 <= s < n && (s >= 0 ==> IsZipAt(text, s)) && forall k :: s < k < n ==> !IsZipAt(text, k)
  {
    if n == 0 then -1 else if IsZipAt(text, n - 1) then n - 1 else LastZip(text, n - 1)
  }

  function LastZipBefore(text: string, n: nat): string
    requires n <= |text|
  {
    var s := LastZip(text, n);
    if s >= 0 then text[s..s + 5] else []
  }

  function PostalLength(text: string, i: nat): nat
    requires i + 6 <= |text|
  {
    if i + 7 <= |text| && text[i + 3] == ' ' then 7 else 6
  }

  predicate IsPostalAt(text: string, i: nat) {
    && i + 6 <= |text|
    && var length := PostalLength(text, i);
    && IsPostalCode(text[i..i + length]) && |WithoutSpaces(text[i..i + length])| == 6
    && (i == 0 || !IsLetter(text[i - 1])) && (i + length == |text| || !IsLetter(text[i + length]))
  }

  // The first place from `i` on with a postal code, or the end.
  function FirstPostal(text: string, i: nat): (at: nat)
    requires i <= |text|
    ensures i <= at <= |text| && (at < |text| ==> IsPostalAt(text, at)) && forall k :: i <= k < at ==> !IsPostalAt(text, k)
    decreases |text| - i
  {
    if i == |text| || IsPostalAt(text, i) then i else FirstPostal(text, i + 1)
  }

  // The last ZIP in it, or else the first postal code, or nothing.
  function ZipCode(text: string): string {
    var zip, at := LastZipBefore(text, |text|), FirstPostal(text, 0);
    if zip != [] then zip
    else if at < |text| then Stored(text[at..at + PostalLength(text, at)])
    else []
  }

  method ExtractZipCode(text: string) returns (zip: string)
    ensures zip == ZipCode(text)
  {
    zip := [];
    var i: nat := 0;
    while i < |text|
      invariant i <= |text| && (0 < i < |text| && IsDigit(text[i]) ==> !IsDigit(text[i - 1]))
      invariant zip == LastZipBefore(text, i)
    {
      if !IsDigit(text[i]) {
        NoneAt(text, i);
        i := i + 1;
        continue;
      }
      var start := i;
      i := SkipDigits(text, start);
      ZipTaken(text, start, i);
      var length := i - start;
      if length == 5 || length == 9 {
        zip := text[start..start + 5];
      }
    }
    if zip == [] {
      zip := FindPostalCode(text);
    }
  }

  lemma NoneAt(text: string, i: nat)
    requires i < |text| && !IsDigit(text[i])
    ensures LastZipBefore(text, i + 1) == LastZipBefore(text, i)
  {
  }

  lemma ZipTaken(text: string, start: nat, end: nat)
    requires start < |text| && IsDigit(text[start]) && (start == 0 || !IsDigit(text[start - 1]))
    requires end == start + Run(text, start)
    ensures start < end <= |text| && (end < |text| ==> !IsDigit(text[end]))
    ensures LastZipBefore(text, end)
            == if end - start == 5 || end - start == 9 then text[start..start + 5] else LastZipBefore(text, start)
  {
    LastInRun(text, start, end);
  }

  method SkipDigits(text: string, start: nat) returns (end: nat)
    requires start <= |text|
    ensures end == start + Run(text, start)
  {
    end := start;
    while end < |text| && IsDigit(text[end])
      invariant end <= |text| && start + Run(text, start) == end + Run(text, end)
    {
      end := end + 1;
    }
  }

  method FindPostalCode(text: string) returns (code: string)
    ensures var at := FirstPostal(text, 0);
            code == if at < |text| then Stored(text[at..at + PostalLength(text, at)]) else []
  {
    var i: nat := 0;
    while i + 6 <= |text|
      invariant i <= |text| && FirstPostal(text, 0) == FirstPostal(text, i)
    {
      var found, part := PostalCodeAt(text, i);
      if found {
        code := NormalizeZipOrPostalCode(part);
        return;
      }
      i := i + 1;
    }
    code := [];
  }

  method PostalCodeAt(text: string, i: nat) returns (found: bool, part: string)
    requires i + 6 <= |text|
    ensures found <==> IsPostalAt(text, i)
    ensures part == text[i..i + PostalLength(text, i)]
  {
    var length := if i + 7 <= |text| && text[i + 3] == ' ' then 7 else 6;
    part := text[i..i + length];
    var postal := IsCanadianPostalCode(part);
    var plain := RemoveSpaces(part);
    var starts := i == 0 || !IsLetter(text[i - 1]);
    var ends := i + length == |text| || !IsLetter(text[i + length]);
    found := postal && |plain| == 6 && starts && ends;
  }

  lemma {:induction false} RunIs(text: string, s: nat, end: nat)
    requires s <= end <= |text| && (forall k :: s <= k < end ==> IsDigit(text[k])) && (end < |text| ==> !IsDigit(text[end]))
    ensures Run(text, s) == end - s
    decreases end - s
  {
    if s < end {
      RunIs(text, s + 1, end);
    }
  }

  // Inside a run no other starts.
  lemma {:induction false} LastInRun(text: string, start: nat, i: nat)
    requires start < i <= |text| && (forall k :: start <= k < i ==> IsDigit(text[k]))
    requires start == 0 || !IsDigit(text[start - 1])
    ensures LastZip(text, i) == if Run(text, start) == 5 || Run(text, start) == 9 then start else LastZip(text, start)
  {
    if i > start + 1 {
      LastInRun(text, start, i - 1);
    }
  }

  // ---- What is found is a code, and found again ----

  // It is blank, a ZIP, or a whole postal code as it is stored.
  lemma ZipCodeIs(text: string)
    ensures var r := ZipCode(text); r == [] || IsZip(r) || IsStoredCode(r)
  {
    var s, at := LastZip(text, |text|), FirstPostal(text, 0);
    if s < 0 && at < |text| {
      StoredIsCode(text[at..at + PostalLength(text, at)]);
    }
  }

  lemma ZipAgain(r: string)
    requires IsZip(r)
    ensures ZipCode(r) == r
  {
    RunIs(r, 0, 5);
    LastInRun(r, 0, 5);
  }

  lemma CodeAgain(r: string)
    requires IsStoredCode(r)
    ensures ZipCode(r) == r
  {
    CodeIsStored(r);
    RunIs(r, 1, 2);
    RunIs(r, 4, 5);
    RunIs(r, 6, 7);
    assert LastZip(r, |r|) == -1;
    assert r[0..7] == r && PostalLength(r, 0) == 7;
    assert IsPostalAt(r, 0);
    assert FirstPostal(r, 0) == 0;
  }

  // A code extracted is what is extracted from it.
  lemma ExtractingAgain(text: string)
    ensures ZipCode(ZipCode(text)) == ZipCode(text)
  {
    var r := ZipCode(text);
    ZipCodeIs(text);
    if IsZip(r) {
      ZipAgain(r);
    } else if r != [] {
      CodeAgain(r);
    }
  }

}
