// What the old SCP protocol says on the wire: files announced in lines, their
// bytes, and a 0 after each; and what a sink makes of any such stream.
module ScpStream {
  import opened Bytes
  import opened ByteText
  import opened Numerals
  import opened SftpPaths
  import opened UploadStore

  const LETTER_C: Byte := 0x43
  const LETTER_D: Byte := 0x44
  const LETTER_E: Byte := 0x45
  const LETTER_T: Byte := 0x54
  const SPACE: Byte := 0x20
  const NEWLINE: Byte := 0x0A
  const SLASH: Byte := 0x2F

  const MAX_LINE := 1024
  const CHUNK := 32 * 1024

  // ---- File lines ----

  predicate AllDigits(text: seq<Byte>) {
    forall i :: 0 <= i < |text| ==> IsDigit(text[i], Decimal)
  }

  // "C", a mode of four octal digits, a size of up to 18 digits and a name,
  // that of a file right where it is.
  predicate FileLineWith(line: seq<Byte>, digits: nat, size: nat, name: string) {
    && 1 <= digits <= 18 && |line| > 7 + digits
    && line[0] == LETTER_C && (forall i :: 1 <= i < 5 ==> IsDigit(line[i], Octal)) && line[5] == SPACE
    && AllDigits(line[6..6 + digits]) && line[6 + digits] == SPACE
    && size == Value(line[6..6 + digits], Decimal) && name == Text(line[7 + digits..])
    && '/' !in name && name != "." && name != ".."
  }

  predicate IsFileLine(line: seq<Byte>, size: nat, name: string) {
    exists digits :: 1 <= digits <= 18 && FileLineWith(line, digits, size, name)
  }

  datatype FileLine = FileLine(size: nat, name: string) | BadLine | BadSize | BadName

  ghost predicate ReadAs(line: seq<Byte>, parsed: FileLine) {
    forall size, name {:trigger IsFileLine(line, size, name)} :: IsFileLine(line, size, name) <==> parsed == FileLine(size, name)
  }

  // A line announces one file at most.
  lemma ReadOneWay(line: seq<Byte>)
    ensures exists parsed :: ReadAs(line, parsed)
  {
    if exists size, name :: IsFileLine(line, size, name) {
      var size, name :| IsFileLine(line, size, name);
      forall s, n | IsFileLine(line, s, n) ensures s == size && n == name {
        SameFile(line, size, name, s, n);
      }
      assert ReadAs(line, FileLine(size, name));
    } else {
      assert ReadAs(line, BadLine);
    }
  }

  lemma ReadTheSame(line: seq<Byte>, a: FileLine, b: FileLine)
    requires ReadAs(line, a) && ReadAs(line, b)
    ensures if a.FileLine? then a == b && IsFileLine(line, a.size, a.name) else !b.FileLine?
  {
    assert a.FileLine? ==> IsFileLine(line, a.size, a.name);
    assert b.FileLine? ==> IsFileLine(line, b.size, b.name);
  }

  lemma SameFile(line: seq<Byte>, size: nat, name: string, s: nat, n: string)
    requires IsFileLine(line, size, name) && IsFileLine(line, s, n)
    ensures size == s && name == n
  {
    var d :| 1 <= d <= 18 && FileLineWith(line, d, size, name);
    var e :| 1 <= e <= 18 && FileLineWith(line, e, s, n);
    DigitsRun(line, d, e, s, n);
  }

  method ParseScpFileLine(line: seq<Byte>) returns (parsed: FileLine)
    ensures ReadAs(line, parsed)
  {
    if |line| < 9 || line[0] != LETTER_C || line[5] != SPACE {
      return BadLine;
    }
    for i := 1 to 5
      invariant forall k :: 1 <= k < i ==> IsDigit(line[k], Octal)
    {
      if !IsDigit(line[i], Octal) {
        return BadLine;
      }
    }
    var i, value, digits := 6, 0, 0;
    while i < |line| && IsDigit(line[i], Decimal)
      invariant i == 6 + digits <= |line| && digits <= 18
      invariant AllDigits(line[6..i])
      invariant value == Value(line[6..i], Decimal)
    {
      ghost var before, after := line[6..i], line[6..i + 1];
      assert after == before + [line[i]];
      if digits >= 18 {
        forall d, size, name
          ensures !FileLineWith(line, d, size, name)
        {
          DigitsRun(line, 19, d, size, name);
        }
        return BadSize;
      }
      ValueOfMore(before, line[i], Decimal);
      value := value * 10 + (line[i] - ZERO);
      i, digits := i + 1, digits + 1;
    }
    forall d, size, name | FileLineWith(line, d, size, name)
      ensures d == digits
    {
      DigitsRun(line, digits, d, size, name);
    }
    if digits == 0 || i >= |line| || line[i] != SPACE || i + 1 >= |line| {
      return BadLine;
    }
    var name := Text(line[i + 1..]);
    if '/' in name || name == "." || name == ".." {
      return BadName;
    }
    assert FileLineWith(line, digits, value, name);
    parsed := FileLine(value, name);
  }

  // The digits of a file line are all there are where they start.
  lemma DigitsRun(line: seq<Byte>, n: nat, digits: nat, size: nat, name: string)
    requires 6 + n <= |line| && AllDigits(line[6..6 + n])
    requires n == 19 || 6 + n == |line| || !IsDigit(line[6 + n], Decimal)
    ensures FileLineWith(line, digits, size, name) ==> digits == n
  {
    var run := line[6..6 + n];
    assert forall k :: 0 <= k < n ==> run[k] == line[6 + k] && IsDigit(run[k], Decimal);
    if 6 + digits <= |line| {
      var other := line[6..6 + digits];
      assert forall k :: 0 <= k < digits ==> other[k] == line[6 + k];
    }
  }

  // ---- A file sent ----

  // A file saved: the line that announced it starts at `from`, its bytes at
  // `at`.
  datatype Saved = Saved(name: string, content: seq<Byte>, from: nat, at: nat)

  // A line of its own announces `size` bytes, which come right after it.
  predicate Announces(input: seq<Byte>, from: nat, at: nat, size: nat, name: string) {
    && from < at <= |input| && input[at - 1] == NEWLINE && NEWLINE !in input[from..at - 1]
    && IsFileLine(input[from..at - 1], size, name)
  }

  // And then a 0 says that they were all sent.
  ghost predicate Arrived(input: seq<Byte>, s: Saved, target: string) {
    && s.at + |s.content| < |input| && s.content == input[s.at..s.at + |s.content|] && input[s.at + |s.content|] == 0
    && exists name :: Announces(input, s.from, s.at, |s.content|, name) && s.name == Renamed(name, target)
  }

  // A target naming a file renames what's sent to it.
  function Renamed(name: string, target: string): string {
    if target != "" then target else name
  }

  // ---- What a stream offers ----

  // Where the line that starts here ends, or the stream does.
  function LineEnd(input: seq<Byte>, from: nat): (end: nat)
    requires from <= |input|
    ensures from <= end <= |input|
    decreases |input| - from
  {
    if from == |input| || input[from] == NEWLINE then from else LineEnd(input, from + 1)
  }

  lemma {:induction false} LineEndMeans(input: seq<Byte>, from: nat)
    requires from <= |input|
    ensures var end := LineEnd(input, from); NEWLINE !in input[from..end] && (end < |input| ==> input[end] == NEWLINE)
    decreases |input| - from
  {
    if from < |input| && input[from] != NEWLINE {
      LineEndMeans(input, from + 1);
      var end := LineEnd(input, from);
      assert input[from..end] == [input[from]] + input[from + 1..end];
    }
  }

  lemma LineEndIs(input: seq<Byte>, from: nat, end: nat)
    requires from <= end < |input| && NEWLINE !in input[from..end] && input[end] == NEWLINE
    ensures LineEnd(input, from) == end
  {
    NoLineYet(input, from, end);
    LineEndMeans(input, from);
    var e := LineEnd(input, from);
    forall k | from <= k < e ensures input[k] != NEWLINE {
      assert input[k] == input[from..e][k - from];
    }
  }

  lemma NoLineYet(input: seq<Byte>, from: nat, end: nat)
    requires from <= end <= |input| && NEWLINE !in input[from..end]
    ensures LineEnd(input, from) >= end
  {
    LineEndMeans(input, from);
    forall k | from <= k < end ensures input[k] != NEWLINE {
      assert input[k] == input[from..end][k - from];
    }
  }

  // No line has ended so far.
  predicate Unbroken(input: seq<Byte>, start: nat, line: seq<Byte>) {
    start + |line| <= |input| && line == input[start..start + |line|] && NEWLINE !in line
  }

  lemma UnbrokenMore(input: seq<Byte>, start: nat, line: seq<Byte>, c: Byte)
    requires Unbroken(input, start, line) && start + |line| < |input| && c == input[start + |line|] && c != NEWLINE
    ensures Unbroken(input, start, line + [c])
  {
  }

  lemma UnbrokenTo(input: seq<Byte>, start: nat, line: seq<Byte>)
    requires Unbroken(input, start, line)
    ensures LineEnd(input, start) >= start + |line|
    ensures start + |line| < |input| && input[start + |line|] == NEWLINE ==> LineEnd(input, start) == start + |line|
  {
    NoLineYet(input, start, start + |line|);
    if start + |line| < |input| && input[start + |line|] == NEWLINE {
      LineEndIs(input, start, start + |line|);
    }
  }

  // A line is only read if it isn't too long.
  predicate HasLine(input: seq<Byte>, from: nat)
    requires from <= |input|
  {
    LineEnd(input, from) < |input| && LineEnd(input, from) - from <= MAX_LINE
  }

  // What a line is read as.
  ghost function FileLineOf(line: seq<Byte>): FileLine {
    ReadOneWay(line);
    var parsed :| ReadAs(line, parsed);
    parsed
  }

  datatype Offer = Nothing | Offer(name: string, size: nat, from: nat, at: nat) {
    function End(): nat
      requires Offer?
    {
      at + size
    }
  }

  predicate Confirmed(input: seq<Byte>, o: Offer)
    requires o.Offer?
  {
    o.End() < |input| && input[o.End()] == 0
  }

  // A line about times, or the end of a folder: it says nothing of files.
  predicate IsSkipped(input: seq<Byte>, from: nat)
    requires from < |input|
  {
    input[from] == LETTER_T || input[from] == LETTER_E
  }

  // The file the line that starts here announces, if it does.
  ghost function OfferAt(input: seq<Byte>, from: nat): Offer
    requires from <= |input| && HasLine(input, from)
  {
    var line := FileLineOf(input[from..LineEnd(input, from)]);
    if line.FileLine? then Offer(line.name, line.size, from, LineEnd(input, from) + 1) else Nothing
  }

  lemma NoFileLine(line: seq<Byte>)
    requires line != [] && line[0] != LETTER_C
    ensures !FileLineOf(line).FileLine?
  {
    assert ReadAs(line, BadLine);
    ReadTheSame(line, BadLine, FileLineOf(line));
  }

  // The files announced, in turn, as long as each is sent and confirmed.
  ghost function Offers(input: seq<Byte>, from: nat): seq<Offer>
    requires from <= |input|
    decreases |input| - from
  {
    if !HasLine(input, from) || LineEnd(input, from) == from then []
    else if IsSkipped(input, from) then Offers(input, LineEnd(input, from) + 1)
    else
      var o := OfferAt(input, from);
      if o.Nothing? then [] else [o] + if Confirmed(input, o) then Offers(input, o.End() + 1) else []
  }

  // The stream ends right after the bytes of the last file.
  predicate EndsBare(input: seq<Byte>, offers: seq<Offer>) {
    offers != [] && offers[|offers| - 1].Offer? && offers[|offers| - 1].End() == |input|
  }

  // A file that is allowed, has room, and whose bytes all come.
  ghost predicate Wanted(input: seq<Byte>, o: Offer, target: string, files: map<string, seq<Byte>>) {
    && o.Offer? && o.End() <= |input| && IsUploadName(Renamed(o.name, target))
    && o.size <= UploadLimit(Total(files - {Renamed(o.name, target)}))
  }

  function With(input: seq<Byte>, o: Offer, target: string, files: map<string, seq<Byte>>): map<string, seq<Byte>>
    requires o.Offer? && o.End() <= |input|
  {
    files[Renamed(o.name, target) := input[o.at..o.End()]]
  }

  // Every file announced is wanted, fits and is sent whole, and nothing else
  // comes but times and ends of folders, until the stream ends, or a line too
  // long, or a file that is never confirmed.
  ghost predicate Smooth(input: seq<Byte>, from: nat, target: string, files: map<string, seq<Byte>>)
    requires from <= |input|
    decreases |input| - from
  {
    if !HasLine(input, from) then true
    else if LineEnd(input, from) == from then false
    else if IsSkipped(input, from) then Smooth(input, LineEnd(input, from) + 1, target, files)
    else
      var o := OfferAt(input, from);
      && Wanted(input, o, target, files)
      && (o.End() == |input| || (Confirmed(input, o) && Smooth(input, o.End() + 1, target, With(input, o, target, files))))
  }

  // A whole line announces it.
  ghost predicate IsOffer(input: seq<Byte>, o: Offer, from: nat) {
    from <= |input| && HasLine(input, from) && LineEnd(input, from) > from && !IsSkipped(input, from)
        && o == OfferAt(input, from) && o.Offer?
  }

  lemma SkipOffers(input: seq<Byte>, from: nat)
    requires from <= |input| && HasLine(input, from) && LineEnd(input, from) > from && IsSkipped(input, from)
    ensures Offers(input, from) == Offers(input, LineEnd(input, from) + 1)
  {
  }

  lemma SkipSmooth(input: seq<Byte>, from: nat, target: string, files: map<string, seq<Byte>>)
    requires from <= |input| && HasLine(input, from) && LineEnd(input, from) > from && IsSkipped(input, from)
    ensures Smooth(input, from, target, files) == Smooth(input, LineEnd(input, from) + 1, target, files)
  {
  }

  lemma OfferOffers(input: seq<Byte>, from: nat, o: Offer)
    requires IsOffer(input, o, from)
    ensures Offers(input, from) == [o] + if Confirmed(input, o) then Offers(input, o.End() + 1) else []
  {
  }

  lemma OfferSmooth(input: seq<Byte>, from: nat, o: Offer, target: string, files: map<string, seq<Byte>>)
    requires IsOffer(input, o, from)
    ensures Smooth(input, from, target, files) <==>
              && Wanted(input, o, target, files)
              && (o.End() == |input| || (Confirmed(input, o) && Smooth(input, o.End() + 1, target, With(input, o, target, files))))
  {
  }

  lemma NothingLeft(input: seq<Byte>, target: string, files: map<string, seq<Byte>>)
    ensures Offers(input, |input|) == [] && Smooth(input, |input|, target, files)
  {
  }

  // A file saved is one that was offered.
  predicate Takes(s: Saved, o: Offer, target: string) {
    o.Offer? && s.from == o.from && s.at == o.at && |s.content| == o.size && s.name == Renamed(o.name, target)
  }

  // Everything offered was saved, but for a last file never confirmed.
  predicate AllTaken(input: seq<Byte>, saved: seq<Saved>, offers: seq<Offer>, target: string) {
    && |offers| == |saved| + (if EndsBare(input, offers) then 1 else 0)
    && forall k :: 0 <= k < |saved| ==> Takes(saved[k], offers[k], target)
  }

  // ---- What is sent arrives ----

  function Header(name: string, size: nat): seq<Byte>
    requires IsBytes(name)
  {
    [LETTER_C, 0x30, 0x36, 0x34, 0x34, SPACE] + Digits(size, Decimal) + [SPACE] + Raw(name) + [NEWLINE]
  }

  function Sent(name: string, content: seq<Byte>): seq<Byte>
    requires IsBytes(name)
  {
    Header(name, |content|) + content + [0]
  }

  // What one side sends of a file is what the other takes it for.
  lemma SentArrives(name: string, content: seq<Byte>, target: string)
    requires IsBytes(name) && IsName(name) && '\n' !in name && |Digits(|content|, Decimal)| <= 18
    ensures Arrived(Sent(name, content), Saved(Renamed(name, target), content, 0, |Header(name, |content|)|), target)
  {
    var header, input := Header(name, |content|), Sent(name, content);
    var line := HeaderLine(name, |content|);
    assert input[0..|header| - 1] == line && input[|header| - 1] == NEWLINE;
    assert Announces(input, 0, |header|, |content|, name);
    assert input[|header|..|header| + |content|] == content && input[|header| + |content|] == 0;
  }

  lemma HeaderLine(name: string, size: nat) returns (line: seq<Byte>)
    requires IsBytes(name) && IsName(name) && '\n' !in name && |Digits(size, Decimal)| <= 18
    ensures Header(name, size) == line + [NEWLINE] && NEWLINE !in line && IsFileLine(line, size, name)
  {
    var digits, raw := Digits(size, Decimal), Raw(name);
    DigitsValue(size, Decimal);
    NoNewline(name);
    line := LineIs(digits, raw, size, name);
  }

  lemma LineIs(digits: seq<Byte>, raw: seq<Byte>, size: nat, name: string) returns (line: seq<Byte>)
    requires 1 <= |digits| <= 18 && AllDigits(digits) && Value(digits, Decimal) == size
    requires Text(raw) == name && IsName(name) && NEWLINE !in raw
    ensures line == [LETTER_C, 0x30, 0x36, 0x34, 0x34, SPACE] + digits + [SPACE] + raw
    ensures NEWLINE !in line && IsFileLine(line, size, name)
  {
    line := [LETTER_C, 0x30, 0x36, 0x34, 0x34, SPACE] + digits + [SPACE] + raw;
    assert line[6..6 + |digits|] == digits && line[7 + |digits|..] == raw;
    assert FileLineWith(line, |digits|, size, name);
    assert NEWLINE !in digits by {
      forall i | 0 <= i < |digits|
        ensures digits[i] != NEWLINE
      {
        assert IsDigit(digits[i], Decimal);
      }
    }
  }

  lemma NoNewline(name: string)
    requires IsBytes(name) && '\n' !in name
    ensures NEWLINE !in Raw(name)
  {
  }
}
