// The file information that follows a ZFILE header: the name, then numbers in
// text. What the receiver reads out of it is what the sender put in.
module ZmodemFileInfo {
  import opened Bytes
  import opened Numerals

  datatype File = File(name: seq<Byte>, data: seq<Byte>, mtime: int)

  const SPACE: Byte := 0x20
  const SLASH: Byte := 0x2F
  const BACKSLASH: Byte := 0x5C
  const DOT: Byte := 0x2E

  function CountSpaces(text: seq<Byte>): (n: nat)
    ensures n <= |text|
  {
    if text == [] || text[0] != SPACE then 0 else 1 + CountSpaces(text[1..])
  }

  datatype Scanned = Number(value: nat, rest: seq<Byte>) | NoNumber

  function Scan(text: seq<Byte>, base: Base): Scanned {
    var t := text[CountSpaces(text)..];
    var n := CountDigits(t, base);
    if n == 0 then NoNumber else Number(Value(t[..n], base), t[n..])
  }

  function BytesLeft(files: seq<File>, from: nat): nat
    requires from <= |files|
    decreases |files| - from
  {
    if from == |files| then 0 else |files[from].data| + BytesLeft(files, from + 1)
  }

  // What goes with the offer of file `i` of a batch: its name, a NUL,
  // "<size> <mtime> 100644 0 <files left> <bytes left>" and another NUL.
  function FileInformation(files: seq<File>, i: nat): seq<Byte>
    requires i < |files|
  {
    Information(files[i].name, |files[i].data|, Since1970(files[i].mtime), |files| - i, BytesLeft(files, i))
  }

  function Information(name: seq<Byte>, size: nat, mtime: nat, filesLeft: nat, bytesLeft: nat): seq<Byte> {
    name + ([0] + Numbers(size, mtime, filesLeft, bytesLeft))
  }

  function Since1970(mtime: int): nat {
    if mtime > 0 then mtime else 0
  }

  function Numbers(size: nat, mtime: nat, filesLeft: nat, bytesLeft: nat): seq<Byte> {
    Digits(size, Decimal) + ([SPACE] + (Digits(mtime, Octal) + ([SPACE] + BatchNumbers(filesLeft, bytesLeft))))
  }

  function BatchNumbers(filesLeft: nat, bytesLeft: nat): seq<Byte> {
    [0x31, 0x30, 0x30, 0x36, 0x34, 0x34, SPACE, 0x30, SPACE] + Digits(filesLeft, Decimal) + [SPACE] + Digits(bytesLeft, Decimal) + [0]
  }

  datatype Parsed = Parsed(name: seq<Byte>, size: nat, mtime: nat) | Unparsed

  function Find(text: seq<Byte>, b: Byte): (n: nat)
    ensures n <= |text|
    ensures n < |text| ==> text[n] == b
    ensures forall i :: 0 <= i < n ==> text[i] != b
  {
    if text == [] || text[0] == b then 0 else 1 + Find(text[1..], b)
  }

  // What follows the last slash of either kind.
  function BaseName(name: seq<Byte>): (base: seq<Byte>)
    ensures |base| <= |name| && base == name[|name| - |base|..]
    ensures SLASH !in base && BACKSLASH !in base
  {
    if name == [] then []
    else if name[|name| - 1] == SLASH || name[|name| - 1] == BACKSLASH then []
    else
      var before := BaseName(name[..|name| - 1]);
      before + [name[|name| - 1]]
  }

  predicate IsFileName(base: seq<Byte>) {
    base != [] && base != [DOT] && base != [DOT, DOT]
  }

  function ParseFileInformation(info: seq<Byte>): Parsed {
    var nul := Find(info, 0);
    if nul == |info| || nul == 0 then Unparsed else ParseNamed(info[..nul], info[nul + 1..])
  }

  function ParseNamed(name: seq<Byte>, text: seq<Byte>): (p: Parsed)
    ensures p.Parsed? ==> IsFileName(p.name) && SLASH !in p.name && BACKSLASH !in p.name
  {
    var base := BaseName(name);
    if IsFileName(base) then WithNumbers(base, text) else Unparsed
  }

  // A name with its size and time, each 0 when there is no number to read.
  function WithNumbers(base: seq<Byte>, text: seq<Byte>): (p: Parsed)
    ensures p.Parsed? && p.name == base
  {
    match Scan(text, Decimal)
    case NoNumber => Parsed(base, 0, 0)
    case Number(bytes, rest) =>
      match Scan(rest, Octal)
      case NoNumber => Parsed(base, bytes, 0)
      case Number(modified, _) => Parsed(base, bytes, modified)
  }

  // ---- The round trip ----

  // A number after at most one space, something else following it.
  lemma ScansDigits(n: nat, base: Base, rest: seq<Byte>, spaced: bool)
    requires rest != [] && !IsDigit(rest[0], base)
    ensures Scan((if spaced then [SPACE] else []) + (Digits(n, base) + rest), base) == Number(n, rest)
  {
    var d := Digits(n, base);
    var text := (if spaced then [SPACE] else []) + (d + rest);
    assert spaced ==> text[1..] == d + rest;
    assert CountSpaces(d + rest) == 0;
    assert text[CountSpaces(text)..] == d + rest;
    CountsAllDigits(d, rest, base);
    assert (d + rest)[..|d|] == d && (d + rest)[|d|..] == rest;
    DigitsValue(n, base);
  }

  // What the receiver makes of a name that has no NUL in it.
  function Understood(name: seq<Byte>, size: nat, mtime: nat): Parsed {
    if IsFileName(BaseName(name)) then Parsed(BaseName(name), size, mtime) else Unparsed
  }

  lemma InformationRoundTrip(name: seq<Byte>, size: nat, mtime: nat, filesLeft: nat, bytesLeft: nat)
    requires 0 !in name
    ensures ParseFileInformation(Information(name, size, mtime, filesLeft, bytesLeft)) == Understood(name, size, mtime)
  {
    NameParses(name, Numbers(size, mtime, filesLeft, bytesLeft));
    NumbersParse(name, size, mtime, [SPACE] + BatchNumbers(filesLeft, bytesLeft));
  }

  lemma NameParses(name: seq<Byte>, rest: seq<Byte>)
    requires 0 !in name
    ensures ParseFileInformation(name + ([0] + rest)) == ParseNamed(name, rest)
  {
    NameEnds(name, rest);
  }

  lemma NumbersParse(name: seq<Byte>, size: nat, mtime: nat, tail: seq<Byte>)
    requires tail != [] && tail[0] == SPACE
    ensures ParseNamed(name, Digits(size, Decimal) + ([SPACE] + (Digits(mtime, Octal) + tail))) == Understood(name, size, mtime)
  {
    NumbersScan(BaseName(name), size, mtime, tail);
  }

  lemma WhatIsLeft(files: seq<File>, i: nat) returns (filesLeft: nat, bytesLeft: nat)
    requires i < |files|
    ensures FileInformation(files, i)
         == Information(files[i].name, |files[i].data|, Since1970(files[i].mtime), filesLeft, bytesLeft)
  {
    filesLeft, bytesLeft := |files| - i, BytesLeft(files, i);
  }

  lemma OneRoundTrip(f: File, filesLeft: nat, bytesLeft: nat, info: seq<Byte>)
    requires 0 !in f.name && info == Information(f.name, |f.data|, Since1970(f.mtime), filesLeft, bytesLeft)
    ensures ParseFileInformation(info) == Understood(f.name, |f.data|, Since1970(f.mtime))
  {
    InformationRoundTrip(f.name, |f.data|, Since1970(f.mtime), filesLeft, bytesLeft);
  }

  // The receiver reads back what the sender put in.
  lemma FileInformationRoundTrip(files: seq<File>, i: nat)
    requires i < |files| && 0 !in files[i].name
    ensures ParseFileInformation(FileInformation(files, i))
         == Understood(files[i].name, |files[i].data|, Since1970(files[i].mtime))
  {
    var filesLeft, bytesLeft := WhatIsLeft(files, i);
    OneRoundTrip(files[i], filesLeft, bytesLeft, FileInformation(files, i));
  }

  lemma NameEnds(name: seq<Byte>, rest: seq<Byte>)
    requires 0 !in name
    ensures
      var info := name + ([0] + rest);
      Find(info, 0) == |name| && info[..|name|] == name && info[|name| + 1..] == rest
  {
    var info := name + ([0] + rest);
    assert info[|name|] == 0;
    forall i | 0 <= i < |name| ensures info[i] != 0 {
      assert info[i] == name[i];
    }
  }

  lemma NumbersScan(base: seq<Byte>, size: nat, mtime: nat, tail: seq<Byte>)
    requires tail != [] && tail[0] == SPACE
    ensures WithNumbers(base, Digits(size, Decimal) + ([SPACE] + (Digits(mtime, Octal) + tail))) == Parsed(base, size, mtime)
  {
    var rest := [SPACE] + (Digits(mtime, Octal) + tail);
    ScansDigits(size, Decimal, rest, false);
    assert [] + (Digits(size, Decimal) + rest) == Digits(size, Decimal) + rest;
    ScansDigits(mtime, Octal, tail, true);
  }
}
