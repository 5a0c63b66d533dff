// ZIP archives: what the reader finds in one is what the writer put in, within
// the limits of the format without its 64-bit extension.
module ZipArchive {
  import opened Bytes

  // ---- Numbers ----

  const MAX16: nat := 0xFFFF
  const MAX32: nat := 0xFFFF_FFFF

  // The lowest byte of a number, n % 256, and the rest of it, n / 256, by
  // taking 256 away.
  function Low(n: nat): Byte {
    if n < 256 then n else Low(n - 256)
  }

  function Over(n: nat): nat {
    if n < 256 then 0 else 1 + Over(n - 256)
  }

  lemma {:induction false} LowIs(n: nat)
    ensures Low(n) == n % 256 && Over(n) == n / 256 && n == 256 * Over(n) + Low(n)
  {
    if n >= 256 {
      LowIs(n - 256);
    }
  }

  function High(n: nat): Byte {
    Low(Over(n))
  }

  // What is above the lowest 16 bits.
  function Upper(n: nat): nat {
    Over(Over(n))
  }

  // Two bytes as a number, low + 256 * high, by adding 256; and two such
  // numbers as one.
  function Value16(low: Byte, high: Byte): nat {
    if high == 0 then low else 256 + Value16(low, high - 1)
  }

  function Value32(low: nat, high: nat): nat {
    if high == 0 then low else 0x1_0000 + Value32(low, high - 1)
  }

  lemma {:induction false} Value16Is(low: Byte, high: Byte)
    ensures Value16(low, high) == low + 256 * high
  {
    if high > 0 {
      Value16Is(low, high - 1);
    }
  }

  lemma {:induction false} Value32Is(low: nat, high: nat)
    ensures Value32(low, high) == low + 0x1_0000 * high
  {
    if high > 0 {
      Value32Is(low, high - 1);
    }
  }

  function ReadU16(bytes: seq<Byte>, at: nat): nat
    requires at + 2 <= |bytes|
  {
    Value16(bytes[at], bytes[at + 1])
  }

  function ReadU32(bytes: seq<Byte>, at: nat): nat
    requires at + 4 <= |bytes|
  {
    Value32(ReadU16(bytes, at), ReadU16(bytes, at + 2))
  }

  lemma Read16(n: nat)
    requires n <= MAX16
    ensures Value16(Low(n), High(n)) == n
  {
    LowIs(n);
    LowIs(Over(n));
    Value16Is(Low(n), High(n));
  }

  lemma Read32(n: nat)
    requires n <= MAX32
    ensures Value32(Value16(Low(n), High(n)), Value16(Low(Upper(n)), High(Upper(n)))) == n
  {
    LowIs(n);
    LowIs(Over(n));
    Read16(Upper(n));
    Value16Is(Low(n), High(n));
    Value32Is(Value16(Low(n), High(n)), Upper(n));
  }

  // Four bytes of a signature.
  lemma Signature(h: seq<Byte>, last: Byte, end: Byte)
    requires |h| >= 4 && h[0] == 0x50 && h[1] == 0x4B && h[2] == last && h[3] == end
    ensures ReadU32(h, 0) == 0x4B50 + 0x1_0000 * (last + 256 * end)
  {
    Value16Is(0x50, 0x4B);
    Value16Is(last, end);
    Value32Is(0x4B50, ReadU16(h, 2));
  }

  // ---- Headers ----

  datatype Entry = Entry(name: seq<Byte>, flags: nat, compression: nat, crc: nat, compressedSize: nat, size: nat, offset: nat)

  const FLAG_UTF8: nat := 0x0800
  const STORED: nat := 0
  const DEFLATED: nat := 8

  const LOCAL_SIZE: nat := 30
  const CENTRAL_SIZE: nat := 46
  const END_SIZE: nat := 22

  const LOCAL_SIGNATURE: nat := 0x04034b50
  const CENTRAL_SIGNATURE: nat := 0x02014b50
  const END_SIGNATURE: nat := 0x06054b50

  function LocalHeader(e: Entry, time: nat, date: nat): (h: seq<Byte>)
    ensures |h| == LOCAL_SIZE
  {
    [0x50, 0x4B, 0x03, 0x04, 20, 0, 0x00, 0x08, 8, 0, Low(time), High(time), Low(date), High(date)]
    + ([Low(e.crc), High(e.crc), Low(Upper(e.crc)), High(Upper(e.crc)),
        Low(e.compressedSize), High(e.compressedSize), Low(Upper(e.compressedSize)), High(Upper(e.compressedSize)),
        Low(e.size), High(e.size), Low(Upper(e.size)), High(Upper(e.size))]
    + [Low(|e.name|), High(|e.name|), 0, 0])
  }

  function CentralHeader(e: Entry, time: nat, date: nat): (h: seq<Byte>)
    ensures |h| == CENTRAL_SIZE
  {
    [0x50, 0x4B, 0x01, 0x02, 20, 0, 20, 0, 0x00, 0x08, 8, 0, Low(time), High(time), Low(date), High(date)]
    + ([Low(e.crc), High(e.crc), Low(Upper(e.crc)), High(Upper(e.crc)),
        Low(e.compressedSize), High(e.compressedSize), Low(Upper(e.compressedSize)), High(Upper(e.compressedSize)),
        Low(e.size), High(e.size), Low(Upper(e.size)), High(Upper(e.size))]
    + [Low(|e.name|), High(|e.name|), 0, 0, 0, 0, 0, 0, 0, 0, 0, 0, 0, 0,
       Low(e.offset), High(e.offset), Low(Upper(e.offset)), High(Upper(e.offset))])
  }

  function EndRecord(count: nat, size: nat, offset: nat): (r: seq<Byte>)
    ensures |r| == END_SIZE
  {
    [0x50, 0x4B, 0x05, 0x06, 0, 0, 0, 0, Low(count), High(count), Low(count), High(count),
     Low(size), High(size), Low(Upper(size)), High(Upper(size)),
     Low(offset), High(offset), Low(Upper(offset)), High(Upper(offset)), 0, 0]
  }

  predicate IsSmall(e: Entry) {
    |e.name| <= MAX16 && e.crc <= MAX32 && e.compressedSize < MAX32 && e.size < MAX32 && e.offset < MAX32
  }

  // A central header with all that follows it.
  datatype Parsed = Parsed(entry: Entry, length: nat) | BadHeader | TooShort | Zip64

  function ParseCentral(directory: seq<Byte>, at: nat): Parsed
    requires at <= |directory|
  {
    if at + CENTRAL_SIZE > |directory| || ReadU32(directory, at) != CENTRAL_SIGNATURE then BadHeader
    else
      var name, extra, comment := ReadU16(directory, at + 28), ReadU16(directory, at + 30), ReadU16(directory, at + 32);
      var length := CENTRAL_SIZE + name + extra + comment;
      if at + length > |directory| then TooShort
      else
        var e := Entry(directory[at + CENTRAL_SIZE..at + CENTRAL_SIZE + name], ReadU16(directory, at + 8), ReadU16(directory, at + 10),
                       ReadU32(directory, at + 16), ReadU32(directory, at + 20), ReadU32(directory, at + 24), ReadU32(directory, at + 42));
        if e.compressedSize == MAX32 || e.size == MAX32 || e.offset == MAX32 then Zip64 else Parsed(e, length)
  }

  // What is written of an entry is parsed as it was.
  lemma CentralRoundTrip(e: Entry, time: nat, date: nat, directory: seq<Byte>, at: nat)
    requires IsWritten(e)
    requires at + CENTRAL_SIZE + |e.name| <= |directory|
    requires directory[at..at + CENTRAL_SIZE] == CentralHeader(e, time, date)
    requires directory[at + CENTRAL_SIZE..at + CENTRAL_SIZE + |e.name|] == e.name
    ensures ParseCentral(directory, at) == Parsed(e, CENTRAL_SIZE + |e.name|)
  {
    var h := CentralHeader(e, time, date);
    CentralFields(e, time, date, h);
    FieldsParse(e, h, directory, at);
  }

  // The fields of an entry's central header.
  predicate HasFields(h: seq<Byte>, e: Entry) {
    && |h| == CENTRAL_SIZE
    && ReadU32(h, 0) == CENTRAL_SIGNATURE && ReadU16(h, 8) == FLAG_UTF8 && ReadU16(h, 10) == DEFLATED
    && ReadU32(h, 16) == e.crc && ReadU32(h, 20) == e.compressedSize && ReadU32(h, 24) == e.size
    && ReadU16(h, 28) == |e.name| && ReadU16(h, 30) == 0 && ReadU16(h, 32) == 0 && ReadU32(h, 42) == e.offset
  }

  lemma FieldsParse(e: Entry, h: seq<Byte>, directory: seq<Byte>, at: nat)
    requires IsWritten(e) && HasFields(h, e)
    requires at + CENTRAL_SIZE + |e.name| <= |directory| && directory[at..at + |h|] == h
    requires directory[at + CENTRAL_SIZE..at + CENTRAL_SIZE + |e.name|] == e.name
    ensures ParseCentral(directory, at) == Parsed(e, CENTRAL_SIZE + |e.name|)
  {
    Field32(directory, h, at, 0);
    Field16(directory, h, at, 8);
    Field16(directory, h, at, 10);
    Field32(directory, h, at, 16);
    Field32(directory, h, at, 20);
    Field32(directory, h, at, 24);
    Field16(directory, h, at, 28);
    Field16(directory, h, at, 30);
    Field16(directory, h, at, 32);
    Field32(directory, h, at, 42);
  }

  lemma CentralFields(e: Entry, time: nat, date: nat, h: seq<Byte>)
    requires IsSmall(e) && h == CentralHeader(e, time, date)
    ensures HasFields(h, e)
  {
    FixedFields(e, time, date, h);
    SizeFields(e, time, date, h);
    LastFields(e, time, date, h);
  }

  lemma SizeFields(e: Entry, time: nat, date: nat, h: seq<Byte>)
    requires IsSmall(e) && h == CentralHeader(e, time, date)
    ensures ReadU32(h, 16) == e.crc && ReadU32(h, 20) == e.compressedSize && ReadU32(h, 24) == e.size
  {
    Is32(h, 16, e.crc);
    Is32(h, 20, e.compressedSize);
    Is32(h, 24, e.size);
  }

  lemma LastFields(e: Entry, time: nat, date: nat, h: seq<Byte>)
    requires IsSmall(e) && h == CentralHeader(e, time, date)
    ensures ReadU16(h, 28) == |e.name| && ReadU32(h, 42) == e.offset
  {
    Is16(h, 28, |e.name|);
    Is32(h, 42, e.offset);
  }

  lemma FixedFields(e: Entry, time: nat, date: nat, h: seq<Byte>)
    requires h == CentralHeader(e, time, date)
    ensures ReadU32(h, 0) == CENTRAL_SIGNATURE && ReadU16(h, 8) == FLAG_UTF8 && ReadU16(h, 10) == DEFLATED
    ensures ReadU16(h, 30) == 0 && ReadU16(h, 32) == 0
  {
    Signature(h, 0x01, 0x02);
    FlagFields(e, time, date, h);
  }

  lemma FlagFields(e: Entry, time: nat, date: nat, h: seq<Byte>)
    requires h == CentralHeader(e, time, date)
    ensures ReadU16(h, 8) == FLAG_UTF8 && ReadU16(h, 10) == DEFLATED && ReadU16(h, 30) == 0 && ReadU16(h, 32) == 0
  {
    Value16Is(h[8], h[9]);
    Value16Is(h[10], h[11]);
    Value16Is(h[30], h[31]);
    Value16Is(h[32], h[33]);
  }

  lemma Is16(h: seq<Byte>, at: nat, n: nat)
    requires at + 2 <= |h| && n <= MAX16 && h[at] == Low(n) && h[at + 1] == High(n)
    ensures ReadU16(h, at) == n
  {
    Read16(n);
  }

  lemma Is32(h: seq<Byte>, at: nat, n: nat)
    requires at + 4 <= |h| && n <= MAX32
    requires h[at] == Low(n) && h[at + 1] == High(n) && h[at + 2] == Low(Upper(n)) && h[at + 3] == High(Upper(n))
    ensures ReadU32(h, at) == n
  {
    Read32(n);
  }

  // A field of a header is where it is in the whole.
  lemma Field16(whole: seq<Byte>, h: seq<Byte>, at: nat, k: nat)
    requires at + |h| <= |whole| && whole[at..at + |h|] == h && k + 2 <= |h|
    ensures ReadU16(whole, at + k) == ReadU16(h, k)
  {
    assert whole[at + k] == h[k] && whole[at + (k + 1)] == h[k + 1];
  }

  lemma Field32(whole: seq<Byte>, h: seq<Byte>, at: nat, k: nat)
    requires at + |h| <= |whole| && whole[at..at + |h|] == h && k + 4 <= |h|
    ensures ReadU32(whole, at + k) == ReadU32(h, k)
  {
    Field16(whole, h, at, k);
    Field16(whole, h, at, k + 2);
  }

  // ---- The archive ----

  datatype File = File(name: seq<Byte>, data: seq<Byte>)

  // What bytes that begin a compressed stream tell: all the data they give,
  // whether the stream ends among them, and whether no stream begins so.
  datatype Coding = Coding(given: seq<Byte> -> seq<Byte>, ends: seq<Byte> -> bool, spoilt: seq<Byte> -> bool)

  // What zlib does, as far as it matters here: `more` carries a checksum on.
  datatype Zlib = Zlib(deflate: seq<Byte> -> seq<Byte>, coding: Coding, crc: seq<Byte> -> nat, more: (nat, seq<Byte>) -> nat)

  function EntryOf(z: Zlib, f: File, offset: nat): Entry {
    Entry(f.name, FLAG_UTF8, DEFLATED, z.crc(f.data), |z.deflate(f.data)|, |f.data|, offset)
  }

  // A file's local header, name and data.
  function Local(z: Zlib, f: File, offset: nat, time: nat, date: nat): seq<Byte> {
    LocalHeader(EntryOf(z, f, offset), time, date) + (f.name + z.deflate(f.data))
  }

  // The first `n` files.
  function Locals(z: Zlib, files: seq<File>, n: nat, time: nat, date: nat): seq<Byte>
    requires n <= |files|
  {
    if n == 0 then []
    else
      var before := Locals(z, files, n - 1, time, date);
      before + Local(z, files[n - 1], |before|, time, date)
  }

  function EntryAt(z: Zlib, files: seq<File>, k: nat, time: nat, date: nat): Entry
    requires k < |files|
  {
    EntryOf(z, files[k], |Locals(z, files, k, time, date)|)
  }

  function EntriesOf(z: Zlib, files: seq<File>, n: nat, time: nat, date: nat): (entries: seq<Entry>)
    requires n <= |files|
    ensures |entries| == n && forall k :: 0 <= k < n ==> entries[k] == EntryAt(z, files, k, time, date)
  {
    seq(n, k requires 0 <= k < n => EntryAt(z, files, k, time, date))
  }

  // The first `n` entries of the directory.
  function Directory(entries: seq<Entry>, n: nat, time: nat, date: nat): seq<Byte>
    requires n <= |entries|
  {
    if n == 0 then []
    else Directory(entries, n - 1, time, date) + (CentralHeader(entries[n - 1], time, date) + entries[n - 1].name)
  }

  function Archive(z: Zlib, files: seq<File>, time: nat, date: nat): seq<Byte> {
    var locals, entries := Locals(z, files, |files|, time, date), EntriesOf(z, files, |files|, time, date);
    var directory := Directory(entries, |files|, time, date);
    locals + (directory + EndRecord(|files|, |directory|, |locals|))
  }

  method WriteZipArchive(z: Zlib, files: seq<File>, time: nat, date: nat) returns (archive: seq<Byte>)
    ensures archive == Archive(z, files, time, date)
  {
    var locals, entries := WriteLocals(z, files, time, date);
    var directory := WriteDirectory(entries, time, date);
    archive := locals + (directory + EndRecord(|entries|, |directory|, |locals|));
  }

  method WriteLocals(z: Zlib, files: seq<File>, time: nat, date: nat) returns (archive: seq<Byte>, entries: seq<Entry>)
    ensures archive == Locals(z, files, |files|, time, date) && entries == EntriesOf(z, files, |files|, time, date)
  {
    archive, entries := [], [];
    for k := 0 to |files|
      invariant archive == Locals(z, files, k, time, date)
      invariant |entries| == k && forall j :: 0 <= j < k ==> entries[j] == EntryAt(z, files, j, time, date)
    {
      var f := files[k];
      var compressed := z.deflate(f.data);
      var entry := Entry(f.name, FLAG_UTF8, DEFLATED, z.crc(f.data), |compressed|, |f.data|, |archive|);
      archive := archive + (LocalHeader(entry, time, date) + (f.name + compressed));
      entries := entries + [entry];
    }
  }

  method WriteDirectory(entries: seq<Entry>, time: nat, date: nat) returns (directory: seq<Byte>)
    ensures directory == Directory(entries, |entries|, time, date)
  {
    directory := [];
    for k := 0 to |entries|
      invariant directory == Directory(entries, k, time, date)
    {
      directory := directory + (CentralHeader(entries[k], time, date) + entries[k].name);
    }
  }

  // ---- Reading it ----

  datatype Listed = Listed(entries: seq<Entry>) | TooSmall | NoEndRecord | NeedsZip64 | OutOfRange | Corrupt

  predicate IsEnd(file: seq<Byte>, i: nat)
    requires i + END_SIZE <= |file|
  {
    ReadU32(file, i) == END_SIGNATURE && i + END_SIZE + ReadU16(file, i + 20) == |file|
  }

  // The last end record from `i` down, or -1.
  function EndFrom(file: seq<Byte>, i: nat, lowest: nat): (at: int)
    requires i + END_SIZE <= |file| && lowest <= i
    ensures at == -1 || (lowest <= at <= i && IsEnd(file, at))
    decreases i
  {
    if IsEnd(file, i) then i else if i == lowest then -1 else EndFrom(file, i - 1, lowest)
  }

  // The entries read so far and where the next one starts, or what is wrong.
  datatype Reading = Reading(at: nat, entries: seq<Entry>) | Wrong(listed: Listed)

  function Next(s: Reading, parsed: Parsed): Reading
    requires s.Reading?
  {
    match parsed
    case Parsed(e, length) => Reading(s.at + length, s.entries + [e])
    case Zip64 => Wrong(NeedsZip64)
    case _ => Wrong(Corrupt)
  }

  function ParseAt(directory: seq<Byte>, at: nat): Parsed {
    if at <= |directory| then ParseCentral(directory, at) else BadHeader
  }

  // After so many entries, each parsed where the one before it ended.
  function ReadUpTo(parse: nat -> Parsed, count: nat): Reading {
    if count == 0 then Reading(0, [])
    else
      var s := ReadUpTo(parse, count - 1);
      if s.Wrong? then s else Next(s, parse(s.at))
  }

  function ParserOf(directory: seq<Byte>): nat -> Parsed {
    (at: nat) => ParseAt(directory, at)
  }

  ghost predicate Parses(parse: nat -> Parsed, directory: seq<Byte>) {
    forall at: nat {:trigger ParseAt(directory, at)} :: ParseAt(directory, at) == parse(at)
  }

  function Finish(s: Reading): Listed {
    if s.Wrong? then s.listed else Listed(s.entries)
  }

  function Lowest(file: seq<Byte>): nat {
    if |file| > END_SIZE + MAX16 then |file| - END_SIZE - MAX16 else 0
  }

  function ListedIn(file: seq<Byte>): Listed {
    if |file| < END_SIZE then TooSmall
    else
      var end := EndFrom(file, |file| - END_SIZE, Lowest(file));
      if end < 0 then NoEndRecord
      else ListedAt(file, end)
  }

  function ListedAt(file: seq<Byte>, end: nat): Listed
    requires end + END_SIZE <= |file|
  {
    ListedWith(file, ReadU16(file, end + 10), ReadU32(file, end + 12), ReadU32(file, end + 16))
  }

  function ListedWith(file: seq<Byte>, count: nat, size: nat, offset: nat): Listed {
    if count == MAX16 || size == MAX32 || offset == MAX32 then NeedsZip64
    else if offset + size > |file| then OutOfRange
    else Finish(ReadUpTo(ParserOf(file[offset..offset + size]), count))
  }

  method ReadCentralDirectory(file: seq<Byte>) returns (listed: Listed)
    ensures listed == ListedIn(file)
  {
    if |file| < END_SIZE {
      return TooSmall;
    }
    var lowest := Lowest(file);
    var i := FindEnd(file, |file| - END_SIZE, lowest);
    if i < 0 {
      return NoEndRecord;
    }
    listed := ReadDirectory(file, ReadU16(file, i + 10), ReadU32(file, i + 12), ReadU32(file, i + 16));
  }

  method ReadDirectory(file: seq<Byte>, count: nat, size: nat, offset: nat) returns (listed: Listed)
    ensures listed == ListedWith(file, count, size, offset)
  {
    if count == MAX16 || size == MAX32 || offset == MAX32 {
      return NeedsZip64;
    }
    if offset + size > |file| {
      return OutOfRange;
    }
    listed := ReadEntries(file[offset..offset + size], count, ParserOf(file[offset..offset + size]));
  }

  method FindEnd(file: seq<Byte>, from: nat, lowest: nat) returns (at: int)
    requires from + END_SIZE <= |file| && lowest <= from
    ensures at == EndFrom(file, from, lowest)
  {
    at := from;
    while at >= lowest
      invariant lowest - 1 <= at <= from
      invariant EndFrom(file, from, lowest) == if at >= lowest then EndFrom(file, at, lowest) else -1
    {
      var found := HasEndAt(file, at);
      if found {
        return;
      }
      at := at - 1;
    }
    at := -1;
  }

  method HasEndAt(file: seq<Byte>, i: nat) returns (found: bool)
    requires i + END_SIZE <= |file|
    ensures found <==> IsEnd(file, i)
  {
    found := ReadU32(file, i) == END_SIGNATURE && i + END_SIZE + ReadU16(file, i + 20) == |file|;
  }

  method ReadEntries(directory: seq<Byte>, count: nat, ghost parse: nat -> Parsed) returns (listed: Listed)
    requires Parses(parse, directory)
    ensures listed == Finish(ReadUpTo(parse, count))
  {
    var read := Reading(0, []);
    for i := 0 to count
      invariant read == ReadUpTo(parse, i) && read.Reading?
    {
      read := Next(read, ParseAt(directory, read.at));
      if read.Wrong? {
        WrongStays(parse, i + 1, count);
        return read.listed;
      }
    }
    listed := Listed(read.entries);
  }

  lemma {:induction false} WrongStays(parse: nat -> Parsed, i: nat, count: nat)
    requires i <= count && ReadUpTo(parse, i).Wrong?
    ensures ReadUpTo(parse, count) == ReadUpTo(parse, i)
  {
    if i < count {
      WrongStays(parse, i, count - 1);
    }
  }

  // ---- There and back ----

  // Within the limits of the format.
  predicate Fits(z: Zlib, files: seq<File>, time: nat, date: nat) {
    && |files| < MAX16
    && (forall k :: 0 <= k < |files| ==> IsSmall(EntryAt(z, files, k, time, date)))
    && |Locals(z, files, |files|, time, date)| < MAX32
    && |Directory(EntriesOf(z, files, |files|, time, date), |files|, time, date)| < MAX32
  }

  lemma {:induction false} DirectoryGrows(entries: seq<Entry>, k: nat, n: nat, time: nat, date: nat)
    requires k <= n <= |entries|
    ensures |Directory(entries, k, time, date)| <= |Directory(entries, n, time, date)|
    ensures Directory(entries, n, time, date)[..|Directory(entries, k, time, date)|] == Directory(entries, k, time, date)
    decreases n - k
  {
    if k < n {
      DirectoryGrows(entries, k, n - 1, time, date);
    }
  }

  // Each entry is where the ones before it end.
  lemma EntryIsAt(entries: seq<Entry>, k: nat, directory: seq<Byte>, at: nat, time: nat, date: nat)
    requires k < |entries| && directory == Directory(entries, |entries|, time, date) && at == |Directory(entries, k, time, date)|
    ensures at + CENTRAL_SIZE + |entries[k].name| == |Directory(entries, k + 1, time, date)| <= |directory|
    ensures directory[at..at + CENTRAL_SIZE] == CentralHeader(entries[k], time, date)
    ensures directory[at + CENTRAL_SIZE..at + CENTRAL_SIZE + |entries[k].name|] == entries[k].name
  {
    DirectoryGrows(entries, k + 1, |entries|, time, date);
    PiecesAre(Directory(entries, k, time, date), CentralHeader(entries[k], time, date), entries[k].name, directory);
  }

  // Two pieces right after a start.
  lemma PiecesAre(before: seq<Byte>, header: seq<Byte>, name: seq<Byte>, whole: seq<Byte>)
    requires |before| + |header| + |name| <= |whole| && whole[..|before| + |header| + |name|] == before + (header + name)
    ensures whole[|before|..|before| + |header|] == header
    ensures whole[|before| + |header|..|before| + |header| + |name|] == name
  {
    var upTo := before + (header + name);
    PieceIs(upTo, whole, |before|, header);
    PieceIs(upTo, whole, |before| + |header|, name);
  }

  lemma PieceIs(start: seq<Byte>, whole: seq<Byte>, at: nat, piece: seq<Byte>)
    requires at + |piece| <= |start| <= |whole| && whole[..|start|] == start && start[at..at + |piece|] == piece
    ensures whole[at..at + |piece|] == piece
  {
    forall i | 0 <= i < |piece| ensures whole[at + i] == piece[i] {
      assert whole[..|start|][at + i] == start[at + i] == start[at..at + |piece|][i];
    }
  }

  predicate IsWritten(e: Entry) {
    IsSmall(e) && e.flags == FLAG_UTF8 && e.compression == DEFLATED
  }

  // Where the entries start, and the directory ends.
  function Starts(entries: seq<Entry>, time: nat, date: nat): (ats: seq<nat>)
    ensures |ats| == |entries| + 1 && ats[0] == 0
    ensures forall k :: 0 <= k <= |entries| ==> ats[k] == |Directory(entries, k, time, date)|
  {
    seq(|entries| + 1, k requires 0 <= k <= |entries| => |Directory(entries, k, time, date)|)
  }

  // Parsed where they start, the entries are read one after the other.
  lemma {:induction false} DirectoryRead(entries: seq<Entry>, k: nat, parse: nat -> Parsed, ats: seq<nat>)
    requires k <= |entries| < |ats| && ats[0] == 0 && forall j :: 0 <= j < |entries| ==> ParsedWell(entries, j, parse, ats)
    ensures ReadUpTo(parse, k) == Reading(ats[k], entries[..k])
  {
    if k > 0 {
      DirectoryRead(entries, k - 1, parse, ats);
      assert entries[..k] == entries[..k - 1] + [entries[k - 1]];
      assert ParsedWell(entries, k - 1, parse, ats);
    }
  }

  predicate ParsedWell(entries: seq<Entry>, k: nat, parse: nat -> Parsed, ats: seq<nat>)
    requires k < |entries| < |ats|
  {
    ats[k] <= ats[k + 1] && parse(ats[k]) == Parsed(entries[k], ats[k + 1] - ats[k])
  }

  lemma EntryRead(entries: seq<Entry>, k: nat, directory: seq<Byte>, at: nat, time: nat, date: nat) returns (length: nat)
    requires k < |entries| && directory == Directory(entries, |entries|, time, date) && at == |Directory(entries, k, time, date)|
    requires IsWritten(entries[k])
    ensures at + length == |Directory(entries, k + 1, time, date)| <= |directory|
    ensures ParseAt(directory, at) == Parsed(entries[k], length)
  {
    EntryIsAt(entries, k, directory, at, time, date);
    CentralRoundTrip(entries[k], time, date, directory, at);
    length := CENTRAL_SIZE + |entries[k].name|;
  }

  lemma EndIsRead(file: seq<Byte>, count: nat, size: nat, offset: nat)
    requires |file| >= END_SIZE && file[|file| - END_SIZE..] == EndRecord(count, size, offset)
    requires count <= MAX16 && size <= MAX32 && offset <= MAX32
    ensures var end := |file| - END_SIZE;
            && IsEnd(file, end) && ReadU16(file, end + 10) == count && ReadU32(file, end + 12) == size
            && ReadU32(file, end + 16) == offset
  {
    var h, end := EndRecord(count, size, offset), |file| - END_SIZE;
    EndFields(count, size, offset, h);
    assert file[end..end + |h|] == h;
    Field32(file, h, end, 0);
    Field16(file, h, end, 10);
    Field32(file, h, end, 12);
    Field32(file, h, end, 16);
    Field16(file, h, end, 20);
  }

  lemma EndFields(count: nat, size: nat, offset: nat, h: seq<Byte>)
    requires h == EndRecord(count, size, offset) && count <= MAX16 && size <= MAX32 && offset <= MAX32
    ensures ReadU32(h, 0) == END_SIGNATURE && ReadU16(h, 10) == count && ReadU32(h, 12) == size && ReadU32(h, 16) == offset
    ensures ReadU16(h, 20) == 0
  {
    EndSignature(count, size, offset, h);
    Is16(h, 10, count);
    Is32(h, 12, size);
    Is32(h, 16, offset);
  }

  lemma EndSignature(count: nat, size: nat, offset: nat, h: seq<Byte>)
    requires h == EndRecord(count, size, offset)
    ensures ReadU32(h, 0) == END_SIGNATURE && ReadU16(h, 20) == 0
  {
    Signature(h, 0x05, 0x06);
  }

  // Every entry written is listed as it was.
  lemma DirectoryRoundTrip(z: Zlib, files: seq<File>, time: nat, date: nat)
    requires Fits(z, files, time, date)
    ensures ListedIn(Archive(z, files, time, date)) == Listed(EntriesOf(z, files, |files|, time, date))
  {
    var n := |files|;
    var locals, entries := Locals(z, files, n, time, date), EntriesOf(z, files, n, time, date);
    var directory := Directory(entries, n, time, date);
    var parse, ats := ParserOf(directory), Starts(entries, time, date);
    forall j | 0 <= j < n
      ensures ParsedWell(entries, j, parse, ats)
    {
      var length := EntryRead(entries, j, directory, ats[j], time, date);
    }
    DirectoryRead(entries, n, parse, ats);
    assert entries[..n] == entries;
    WholeRead(locals, directory, n, entries);
  }

  lemma WholeRead(locals: seq<Byte>, directory: seq<Byte>, n: nat, entries: seq<Entry>)
    requires n < MAX16 && |locals| < MAX32 && |directory| < MAX32
    requires Finish(ReadUpTo(ParserOf(directory), n)) == Listed(entries)
    ensures ListedIn(locals + (directory + EndRecord(n, |directory|, |locals|))) == Listed(entries)
  {
    var end := EndRecord(n, |directory|, |locals|);
    var archive := Whole(locals, directory, end);
    EndIsRead(archive, n, |directory|, |locals|);
    ListedAtEnd(archive, n, |directory|, |locals|);
    SliceRead(archive, n, |directory|, |locals|, directory);
  }

  lemma SliceRead(archive: seq<Byte>, n: nat, size: nat, offset: nat, directory: seq<Byte>)
    requires n < MAX16 && size < MAX32 && offset < MAX32 && offset + size <= |archive|
    requires archive[offset..offset + size] == directory
    ensures ListedWith(archive, n, size, offset) == Finish(ReadUpTo(ParserOf(directory), n))
  {
  }

  lemma Whole(locals: seq<Byte>, directory: seq<Byte>, end: seq<Byte>) returns (archive: seq<Byte>)
    requires |end| == END_SIZE
    ensures archive == locals + (directory + end) && |archive| == |locals| + |directory| + END_SIZE
    ensures archive[|archive| - END_SIZE..] == end && archive[|locals|..|locals| + |directory|] == directory
  {
    archive := locals + (directory + end);
  }

  lemma ListedAtEnd(file: seq<Byte>, count: nat, size: nat, offset: nat)
    requires |file| >= END_SIZE
    requires
      var end := |file| - END_SIZE;
      IsEnd(file, end) && ReadU16(file, end + 10) == count && ReadU32(file, end + 12) == size && ReadU32(file, end + 16) == offset
    ensures ListedIn(file) == ListedWith(file, count, size, offset)
  {
    var end := |file| - END_SIZE;
    EndIsFirst(file, end, Lowest(file));
    ListedFrom(file, end);
  }

  lemma EndIsFirst(file: seq<Byte>, i: nat, lowest: nat)
    requires i + END_SIZE <= |file| && lowest <= i && IsEnd(file, i)
    ensures EndFrom(file, i, lowest) == i
  {
  }

  lemma ListedFrom(file: seq<Byte>, end: nat)
    requires end + END_SIZE <= |file| && EndFrom(file, |file| - END_SIZE, Lowest(file)) == end
    ensures ListedIn(file) == ListedAt(file, end)
  {
  }

  // ---- Where a file's data is ----

  lemma {:induction false} LocalsGrow(z: Zlib, files: seq<File>, k: nat, n: nat, time: nat, date: nat)
    requires k <= n <= |files|
    ensures |Locals(z, files, k, time, date)| <= |Locals(z, files, n, time, date)|
    ensures Locals(z, files, n, time, date)[..|Locals(z, files, k, time, date)|] == Locals(z, files, k, time, date)
    decreases n - k
  {
    if k < n {
      LocalsGrow(z, files, k, n - 1, time, date);
    }
  }

  // A local header, as far as it is read.
  datatype LocalFields = LocalFields(signature: nat, name: nat, extra: nat)

  function LocalFieldsAt(bytes: seq<Byte>, at: nat): LocalFields
    requires at + LOCAL_SIZE <= |bytes|
  {
    LocalFields(ReadU32(bytes, at), ReadU16(bytes, at + 26), ReadU16(bytes, at + 28))
  }

  // The fields of an entry's local header.
  predicate HasLocalFields(h: seq<Byte>, e: Entry) {
    |h| == LOCAL_SIZE && LocalFieldsAt(h, 0) == LocalFields(LOCAL_SIGNATURE, |e.name|, 0)
  }

  lemma SameLocalFields(whole: seq<Byte>, h: seq<Byte>, at: nat)
    requires |h| == LOCAL_SIZE && at + LOCAL_SIZE <= |whole| && whole[at..at + LOCAL_SIZE] == h
    ensures LocalFieldsAt(whole, at) == LocalFieldsAt(h, 0)
  {
    Field32(whole, h, at, 0);
    Field16(whole, h, at, 26);
    Field16(whole, h, at, 28);
  }

  // A file's header and what follows it are where its entry says.
  lemma LocalIsAt(z: Zlib, files: seq<File>, k: nat, archive: seq<Byte>, time: nat, date: nat) returns (h: seq<Byte>)
    requires k < |files| && Locals(z, files, |files|, time, date) <= archive && |files[k].name| <= MAX16
    ensures
      var e, f := EntryAt(z, files, k, time, date), files[k];
      && e.offset + LOCAL_SIZE + |f.name| + e.compressedSize <= |archive|
      && HasLocalFields(h, e) && archive[e.offset..e.offset + LOCAL_SIZE] == h
      && archive[e.offset + LOCAL_SIZE + |f.name|..e.offset + LOCAL_SIZE + |f.name| + e.compressedSize] == z.deflate(f.data)
  {
    var e := EntryAt(z, files, k, time, date);
    PiecesAreAt(z, files, k, archive, time, date);
    h := LocalHeader(e, time, date);
    LocalHeaderFields(e, time, date, h);
  }

  lemma PiecesAreAt(z: Zlib, files: seq<File>, k: nat, archive: seq<Byte>, time: nat, date: nat)
    requires k < |files| && Locals(z, files, |files|, time, date) <= archive
    ensures
      var e, f := EntryAt(z, files, k, time, date), files[k];
      && e.offset + LOCAL_SIZE + |f.name| + e.compressedSize <= |archive|
      && archive[e.offset..e.offset + LOCAL_SIZE] == LocalHeader(e, time, date)
      && archive[e.offset + LOCAL_SIZE..e.offset + LOCAL_SIZE + |f.name|] == f.name
      && archive[e.offset + LOCAL_SIZE + |f.name|..e.offset + LOCAL_SIZE + |f.name| + e.compressedSize] == z.deflate(f.data)
  {
    var e, f := EntryAt(z, files, k, time, date), files[k];
    LocalsGrow(z, files, k + 1, |files|, time, date);
    var before, locals := Locals(z, files, k, time, date), Locals(z, files, |files|, time, date);
    assert archive[..|locals|] == locals;
    LocalPieces(before, LocalHeader(e, time, date), f.name, z.deflate(f.data), locals, archive);
  }

  lemma LocalPieces(before: seq<Byte>, header: seq<Byte>, name: seq<Byte>, held: seq<Byte>, locals: seq<Byte>, archive: seq<Byte>)
    requires |locals| <= |archive| && archive[..|locals|] == locals
    requires |before + (header + (name + held))| <= |locals|
    requires locals[..|before + (header + (name + held))|] == before + (header + (name + held))
    ensures var at := |before| + |header|;
            && archive[|before|..at] == header && at + |name| + |held| <= |archive|
            && archive[at + |name|..at + |name| + |held|] == held && archive[at..at + |name|] == name
  {
    var rest := name + held;
    var upTo := before + (header + rest);
    assert archive[..|upTo|] == upTo;
    PiecesAre(before, header, rest, archive);
    var at := |before| + |header|;
    assert rest[|name|..] == held;
    assert archive[at..at + |rest|][|name|..] == archive[at + |name|..at + |rest|];
    assert rest[..|name|] == name && archive[at..at + |rest|][..|name|] == archive[at..at + |name|];
  }

  lemma LocalHeaderFields(e: Entry, time: nat, date: nat, h: seq<Byte>)
    requires h == LocalHeader(e, time, date) && |e.name| <= MAX16
    ensures HasLocalFields(h, e)
  {
    LocalSignature(e, time, date, h);
    Is16(h, 26, |e.name|);
  }

  lemma LocalSignature(e: Entry, time: nat, date: nat, h: seq<Byte>)
    requires h == LocalHeader(e, time, date)
    ensures ReadU32(h, 0) == LOCAL_SIGNATURE && ReadU16(h, 28) == 0
  {
    Signature(h, 0x03, 0x04);
  }

  // ---- What the local headers tell ----

  // All that a local header tells of an entry.
  predicate IsToldBy(h: seq<Byte>, e: Entry, time: nat, date: nat) {
    && |h| == LOCAL_SIZE && ReadU32(h, 0) == LOCAL_SIGNATURE
    && ReadU16(h, 6) == e.flags && ReadU16(h, 8) == e.compression && ReadU16(h, 10) == time && ReadU16(h, 12) == date
    && ReadU32(h, 14) == e.crc && ReadU32(h, 18) == e.compressedSize && ReadU32(h, 22) == e.size
    && ReadU16(h, 26) == |e.name| && ReadU16(h, 28) == 0
  }

  lemma LocalTells(e: Entry, time: nat, date: nat, h: seq<Byte>)
    requires IsSmall(e) && IsWritten(e) && time <= MAX16 && date <= MAX16 && h == LocalHeader(e, time, date)
    ensures IsToldBy(h, e, time, date)
  {
    LocalSignature(e, time, date, h);
    LocalFlags(e, time, date, h);
    LocalTimes(e, time, date, h);
    LocalSizes(e, time, date, h);
  }

  lemma LocalFlags(e: Entry, time: nat, date: nat, h: seq<Byte>)
    requires h == LocalHeader(e, time, date)
    ensures ReadU16(h, 6) == FLAG_UTF8 && ReadU16(h, 8) == DEFLATED
  {
    Value16Is(h[6], h[7]);
    Value16Is(h[8], h[9]);
  }

  lemma LocalTimes(e: Entry, time: nat, date: nat, h: seq<Byte>)
    requires time <= MAX16 && date <= MAX16 && h == LocalHeader(e, time, date)
    ensures ReadU16(h, 10) == time && ReadU16(h, 12) == date
  {
    Is16(h, 10, time);
    Is16(h, 12, date);
  }

  lemma LocalSizes(e: Entry, time: nat, date: nat, h: seq<Byte>)
    requires IsSmall(e) && h == LocalHeader(e, time, date)
    ensures ReadU32(h, 14) == e.crc && ReadU32(h, 18) == e.compressedSize && ReadU32(h, 22) == e.size && ReadU16(h, 26) == |e.name|
  {
    Is32(h, 14, e.crc);
    Is32(h, 18, e.compressedSize);
    Is32(h, 22, e.size);
    Is16(h, 26, |e.name|);
  }

  predicate IsToldAt(archive: seq<Byte>, e: Entry, time: nat, date: nat) {
    && e.offset + LOCAL_SIZE + |e.name| <= |archive|
    && IsToldBy(archive[e.offset..e.offset + LOCAL_SIZE], e, time, date)
    && archive[e.offset + LOCAL_SIZE..e.offset + LOCAL_SIZE + |e.name|] == e.name
  }

  lemma LocalIsTold(z: Zlib, files: seq<File>, k: nat, archive: seq<Byte>, time: nat, date: nat)
    requires k < |files| && Locals(z, files, |files|, time, date) <= archive && IsSmall(EntryAt(z, files, k, time, date))
    requires time <= MAX16 && date <= MAX16
    ensures IsToldAt(archive, EntryAt(z, files, k, time, date), time, date)
  {
    var e := EntryAt(z, files, k, time, date);
    PiecesAreAt(z, files, k, archive, time, date);
    LocalTells(e, time, date, LocalHeader(e, time, date));
  }

  // Where an entry of the directory says its file is, a local header tells the
  // same of it, checksum and sizes among it, and is followed by its name.
  lemma LocalTellsTheSame(z: Zlib, files: seq<File>, time: nat, date: nat, k: nat)
    requires Fits(z, files, time, date) && k < |files| && time <= MAX16 && date <= MAX16
    ensures
      var archive, entries := Archive(z, files, time, date), EntriesOf(z, files, |files|, time, date);
      && ListedIn(archive) == Listed(entries) && entries[k].name == files[k].name && entries[k].size == |files[k].data|
      && IsToldAt(archive, entries[k], time, date)
  {
    DirectoryRoundTrip(z, files, time, date);
    LocalIsTold(z, files, k, Archive(z, files, time, date), time, date);
  }

  // The directory gives the same time.
  lemma CentralTimes(e: Entry, time: nat, date: nat, h: seq<Byte>)
    requires time <= MAX16 && date <= MAX16 && h == CentralHeader(e, time, date)
    ensures ReadU16(h, 12) == time && ReadU16(h, 14) == date
  {
    Is16(h, 12, time);
    Is16(h, 14, date);
  }
}
