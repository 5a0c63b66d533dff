// Taking files out of a ZIP archive. The data is read and inflated a buffer at
// a time; what comes out is what the whole stream gives, unless what one
// buffer of it gives fills the other buffer exactly.
module ZipExtraction {
  import opened Bytes
  import opened ZipArchive

  const BUFFER: nat := 0x1_0000

  datatype Extracted = Extracted(data: seq<Byte>) | IsEncrypted | Unsupported | BadLocal | Truncated | Undecodable | FailedCheck

  // ---- What zlib promises ----

  // More of a stream gives more, until it ends or is spoilt.
  ghost predicate IsCoding(c: Coding) {
    && c.given([]) == [] && !c.ends([]) && !c.spoilt([])
    && (forall x, y :: x <= y ==> Continues(c, x, y))
  }

  predicate Continues(c: Coding, x: seq<Byte>, y: seq<Byte>) {
    && c.given(x) <= c.given(y)
    && (c.ends(x) ==> c.ends(y) && c.given(y) == c.given(x))
    && (c.spoilt(x) ==> c.spoilt(y) && c.given(y) == c.given(x))
    && !(c.ends(y) && c.spoilt(x))
  }

  datatype Status = Okay | StreamEnd | Failed

  // A call of inflate: how much of the input it took, and what it put out.
  datatype Called = Called(used: nat, out: seq<Byte>, status: Status)

  // By what the stream took before, how much it has put out, the input at hand
  // and the room for output.
  type Inflater = (seq<Byte>, nat, seq<Byte>, nat) -> Called

  // It puts out what the bytes it took give, stops with input left only when
  // the room is full and there is more to put out, and fails when it has nothing
  // to take and nothing to put out.
  predicate IsCall(c: Coding, before: seq<Byte>, made: nat, input: seq<Byte>, room: nat, r: Called) {
    && r.used <= |input| && |r.out| <= room
    && var now := before + input[..r.used];
       var all := made + |r.out| == |c.given(now)|;
       && made + |r.out| <= |c.given(now)| && r.out == c.given(now)[made..made + |r.out|]
       && (!all ==> |r.out| == room)
       && (r.status == StreamEnd <==> all && c.ends(now))
       && (r.status == Failed <==> r.status != StreamEnd && ((all && c.spoilt(now)) || (input == [] && r.out == [])))
       && (r.status == Okay && r.used < |input| ==> |r.out| == room && made + room < |c.given(before + input)|)
  }

  ghost predicate Obeys(inflate: Inflater, c: Coding) {
    forall before: seq<Byte>, made: nat, input: seq<Byte>, room: nat {:trigger inflate(before, made, input, room)} ::
      room > 0 && made <= |c.given(before)| && !Finished(c, before, made) ==>
        IsCall(c, before, made, input, room, inflate(before, made, input, room))
  }

  // There is nothing more to come.
  predicate Finished(c: Coding, before: seq<Byte>, made: nat) {
    made == |c.given(before)| && (c.ends(before) || c.spoilt(before))
  }

  // ---- A stream, a buffer at a time ----

  function Least(a: nat, b: nat): nat {
    if a < b then a else b
  }

  // What these bytes give beyond those before fills some buffers and leaves
  // nothing over.
  predicate Fills(c: Coding, before: seq<Byte>, now: seq<Byte>) {
    var more := |c.given(now)| - |c.given(before)|;
    more > 0 && IsWhole(more)
  }

  // Some whole number of buffers.
  predicate IsWhole(n: nat) {
    n == 0 || (n >= BUFFER && IsWhole(n - BUFFER))
  }

  lemma {:induction false} WholeIs(calls: nat, rest: nat)
    requires rest < BUFFER
    ensures IsWhole(calls * BUFFER + rest) <==> rest == 0
  {
    if calls > 0 {
      WholeIs(calls - 1, rest);
    }
  }

  // What comes of `size` bytes, of which `held` are there, from `from` on.
  function Streamed(c: Coding, held: seq<Byte>, size: nat, from: nat): Extracted
    requires from <= |held|
    decreases size - from
  {
    if from >= size then Truncated
    else
      var to := Least(from + BUFFER, size);
      if to > |held| then Truncated
      else if c.spoilt(held[..to]) then Undecodable
      else if c.ends(held[..to]) then Extracted(c.given(held[..to]))
      else if Fills(c, held[..from], held[..to]) then Undecodable
      else Streamed(c, held, size, to)
  }

  // The stream where a call is made: `from` is where the last buffer read
  // begins and `to` where it ends, and `calls` have filled the other since.
  predicate Midway(c: Coding, held: seq<Byte>, size: nat, from: nat, to: nat, fed: seq<Byte>, input: seq<Byte>, out: seq<Byte>,
                   calls: nat)
  {
    && from < size && to == Least(from + BUFFER, size) <= |held| && fed + input == held[..to]
    && held[..from] <= fed && out <= c.given(fed) && !Finished(c, fed, |out|)
    && |out| == |c.given(held[..from])| + calls * BUFFER
    && (calls > 0 && input != [] ==> |out| < |c.given(held[..to])|)
    && (calls == 0 ==> input != [])
  }

  lemma Goes(c: Coding, x: seq<Byte>, y: seq<Byte>)
    requires IsCoding(c) && x <= y
    ensures Continues(c, x, y)
  {
  }

  lemma PutOut(out: seq<Byte>, part: seq<Byte>, whole: seq<Byte>)
    requires out <= whole && |out| + |part| <= |whole| && part == whole[|out|..|out| + |part|]
    ensures out + part == whole[..|out| + |part|]
  {
    assert whole[..|out|] == out;
  }

  // After a call what is out is what the bytes taken give, as far as it goes.
  lemma AfterCall(c: Coding, fed: seq<Byte>, input: seq<Byte>, out: seq<Byte>, all: seq<Byte>, r: Called)
    requires IsCoding(c) && IsCall(c, fed, |out|, input, BUFFER, r) && fed + input == all && out <= c.given(fed)
    ensures var now, rest := fed + input[..r.used], input[r.used..];
            && now + rest == all && fed <= now && out + r.out <= c.given(now)
            && Continues(c, now, all) && Continues(c, fed, now)
  {
    var now, rest := fed + input[..r.used], input[r.used..];
    assert input == input[..r.used] + rest;
    assert now + rest == all;
    Goes(c, fed, now);
    Goes(c, now, all);
    PutOut(out, r.out, c.given(now));
  }

  // All that was read has been taken, and all it gives put out.
  predicate AllOut(c: Coding, held: seq<Byte>, to: nat, fed: seq<Byte>, input: seq<Byte>, out: seq<Byte>)
    requires to <= |held|
  {
    input == [] && fed == held[..to] && out == c.given(fed) && !Finished(c, fed, |out|)
  }

  lemma CallEnds(c: Coding, held: seq<Byte>, size: nat, from: nat, to: nat, fed: seq<Byte>, input: seq<Byte>, out: seq<Byte>,
                 calls: nat, r: Called)
    requires IsCoding(c) && Midway(c, held, size, from, to, fed, input, out, calls) && IsCall(c, fed, |out|, input, BUFFER, r)
    requires r.status == StreamEnd
    ensures Streamed(c, held, size, from) == Extracted(out + r.out)
  {
    var all := held[..to];
    AfterCall(c, fed, input, out, all, r);
    Goes(c, all, all);
    assert out + r.out == c.given(all);
  }

  // Failing is for want of anything to do, or because the stream is spoilt.
  lemma CallFails(c: Coding, held: seq<Byte>, size: nat, from: nat, to: nat, fed: seq<Byte>, input: seq<Byte>, out: seq<Byte>,
                  calls: nat, r: Called)
    requires IsCoding(c) && Midway(c, held, size, from, to, fed, input, out, calls) && IsCall(c, fed, |out|, input, BUFFER, r)
    requires r.status == Failed
    ensures Streamed(c, held, size, from) == Undecodable
  {
    var all := held[..to];
    AfterCall(c, fed, input, out, all, r);
    if !c.spoilt(all) {
      assert fed + input == fed && out + r.out == out;
      assert |out| == |c.given(all)| && calls > 0;
      Goes(c, held[..from], all);
      WholeIs(calls, 0);
    }
  }

  // A call that fills the room leaves the stream midway, and one that does not
  // leaves nothing.
  lemma CallGoesOn(c: Coding, held: seq<Byte>, size: nat, from: nat, to: nat, fed: seq<Byte>, input: seq<Byte>, out: seq<Byte>,
                   calls: nat, r: Called)
    requires IsCoding(c) && Midway(c, held, size, from, to, fed, input, out, calls) && IsCall(c, fed, |out|, input, BUFFER, r)
    requires r.status == Okay
    ensures |r.out| == BUFFER ==>
              Midway(c, held, size, from, to, fed + input[..r.used], input[r.used..], out + r.out, calls + 1)
    ensures |r.out| < BUFFER ==>
              AllOut(c, held, to, fed + input[..r.used], input[r.used..], out + r.out) && (calls > 0 ==> r.out != [])
  {
    AfterCall(c, fed, input, out, held[..to], r);
  }

  // Then the stream goes on after what was read.
  lemma GoesOnAfter(c: Coding, held: seq<Byte>, size: nat, from: nat, to: nat, calls: nat, part: nat)
    requires IsCoding(c) && from < size && to == Least(from + BUFFER, size) <= |held| && part < BUFFER
    requires |c.given(held[..to])| == |c.given(held[..from])| + (calls * BUFFER + part) && (calls > 0 ==> part > 0)
    requires !Finished(c, held[..to], |c.given(held[..to])|)
    ensures Streamed(c, held, size, from) == Streamed(c, held, size, to)
  {
    WholeIs(calls, part);
  }

  // The stream between calls: midway, or at the end of what was read with
  // everything it gives put out.
  predicate Going(c: Coding, held: seq<Byte>, size: nat, from: nat, to: nat, fed: seq<Byte>, input: seq<Byte>, out: seq<Byte>,
                  full: bool, calls: nat)
  {
    && from <= to <= |held| && Streamed(c, held, size, from) == Streamed(c, held, size, 0)
    && (full ==> Midway(c, held, size, from, to, fed, input, out, calls))
    && (!full ==> from == to && AllOut(c, held, to, fed, input, out))
  }

  // What is left to take and to put out of what has been read.
  function Left(c: Coding, held: seq<Byte>, to: nat, input: seq<Byte>, out: seq<Byte>): nat
    requires to <= |held|
  {
    |input| + if |out| <= |c.given(held[..to])| then |c.given(held[..to])| - |out| else 0
  }

  // What a call leads to.
  lemma OneCall(c: Coding, held: seq<Byte>, size: nat, from: nat, to: nat, fed: seq<Byte>, input: seq<Byte>, out: seq<Byte>,
                calls: nat, r: Called)
    requires IsCoding(c) && Midway(c, held, size, from, to, fed, input, out, calls) && IsCall(c, fed, |out|, input, BUFFER, r)
    requires Streamed(c, held, size, from) == Streamed(c, held, size, 0)
    ensures r.status == Failed ==> Streamed(c, held, size, 0) == Undecodable
    ensures r.status == StreamEnd ==> Streamed(c, held, size, 0) == Extracted(out + r.out)
    ensures var full := |r.out| == BUFFER;
            r.status == Okay ==>
              Going(c, held, size, if full then from else to, to, fed + input[..r.used], input[r.used..], out + r.out, full, calls + 1)
    ensures r.status == Okay ==> Left(c, held, to, input[r.used..], out + r.out) < Left(c, held, to, input, out)
  {
    match r.status
    case Failed => CallFails(c, held, size, from, to, fed, input, out, calls, r);
    case StreamEnd => CallEnds(c, held, size, from, to, fed, input, out, calls, r);
    case Okay =>
      CallGoesOn(c, held, size, from, to, fed, input, out, calls, r);
      if |r.out| < BUFFER {
        GoesOnAfter(c, held, size, from, to, calls, |r.out|);
      }
      LessLeft(c, held, size, from, to, fed, input, out, calls, r);
  }

  lemma LessLeft(c: Coding, held: seq<Byte>, size: nat, from: nat, to: nat, fed: seq<Byte>, input: seq<Byte>, out: seq<Byte>,
                 calls: nat, r: Called)
    requires IsCoding(c) && Midway(c, held, size, from, to, fed, input, out, calls) && IsCall(c, fed, |out|, input, BUFFER, r)
    requires r.status == Okay
    ensures Left(c, held, to, input[r.used..], out + r.out) < Left(c, held, to, input, out)
  {
    AfterCall(c, fed, input, out, held[..to], r);
    assert r.used > 0 || r.out != [];
  }

  // A checksum carried on is that of the whole.
  ghost predicate Sums(z: Zlib) {
    forall x, y {:trigger z.more(z.crc(x), y)} :: z.more(z.crc(x), y) == z.crc(x + y)
  }

  ghost predicate Lawful(z: Zlib, inflate: Inflater) {
    IsCoding(z.coding) && Obeys(inflate, z.coding) && Sums(z)
  }

  lemma NothingYet(c: Coding, held: seq<Byte>)
    requires IsCoding(c)
    ensures [] <= c.given(held[..0]) && c.given(held[..0]) == [] && !Finished(c, held[..0], 0)
  {
    assert held[..0] == [];
  }

  // A buffer has been read.
  lemma Fed(c: Coding, held: seq<Byte>, size: nat, at: nat, to: nat, fed: seq<Byte>, out: seq<Byte>)
    requires at < size && to == Least(at + BUFFER, size) <= |held| && AllOut(c, held, at, fed, [], out)
    ensures Midway(c, held, size, at, to, fed, held[at..to], out, 0)
  {
    assert held[..at] + held[at..to] == held[..to];
  }

  // Inflates the `size` bytes of an entry, of which the file has `held`.
  method InflateData(held: seq<Byte>, size: nat, z: Zlib, inflate: Inflater) returns (made: Extracted, sum: nat)
    requires Lawful(z, inflate)
    ensures made == Streamed(z.coding, held, size, 0) && (made.Extracted? ==> sum == z.crc(made.data))
  {
    var read: nat, fed, input, out, full, status := 0, held[..0], [], [], false, Okay;
    ghost var from: nat, calls: nat := 0, 0;
    sum := z.crc([]);
    NothingYet(z.coding, held);
    while status != StreamEnd
      invariant read <= size && read <= |held| && sum == z.crc(out) && status != Failed
      invariant status == Okay ==> Going(z.coding, held, size, from, read, fed, input, out, full, calls)
      invariant status == StreamEnd ==> Streamed(z.coding, held, size, 0) == Extracted(out)
      decreases size - read, status == Okay, Left(z.coding, held, read, input, out)
    {
      if input == [] && !full {
        if read == size {
          return Truncated, 0;
        }
        var to := Least(read + BUFFER, size);
        if to > |held| {
          return Truncated, 0;
        }
        Fed(z.coding, held, size, read, to, fed, out);
        calls := 0;
        input, read := held[read..to], to;
      }
      var call := inflate(fed, |out|, input, BUFFER);
      OneCall(z.coding, held, size, from, read, fed, input, out, calls, call);
      if call.status == Failed {
        return Undecodable, 0;
      }
      status, full := call.status, |call.out| == BUFFER;
      fed, input := fed + input[..call.used], input[call.used..];
      sum, out := z.more(sum, call.out), out + call.out;
      from, calls := if full then from else read, calls + 1;
    }
    made := Extracted(out);
  }

  // Copies out the `size` bytes of an entry that is stored as it is.
  method CopyData(held: seq<Byte>, size: nat, z: Zlib) returns (made: Extracted, sum: nat)
    requires Sums(z)
    ensures made == Copied(held, size) && (made.Extracted? ==> sum == z.crc(made.data))
  {
    var read: nat, out := 0, held[..0];
    sum := z.crc([]);
    while read < size
      invariant read <= size && read <= |held| && out == held[..read] && sum == z.crc(out)
    {
      var to := Least(read + BUFFER, size);
      if to > |held| {
        return Truncated, 0;
      }
      assert held[..to] == held[..read] + held[read..to];
      sum, out := z.more(sum, held[read..to]), out + held[read..to];
      read := to;
    }
    made := Extracted(out);
  }

  function Copied(held: seq<Byte>, size: nat): Extracted {
    if |held| < size then Truncated else Extracted(held[..size])
  }

  // ---- An entry ----

  function Checked(made: Extracted, e: Entry, z: Zlib): Extracted {
    if made.Extracted? && (|made.data| != e.size || z.crc(made.data) != e.crc) then FailedCheck else made
  }

  // What the file holds of `size` bytes from a place on.
  function Held(file: seq<Byte>, start: nat, size: nat): seq<Byte> {
    if start > |file| then [] else file[start..Least(start + size, |file|)]
  }

  // What comes of an entry's bytes.
  function Made(held: seq<Byte>, e: Entry, z: Zlib): Extracted {
    Checked(if e.compression == STORED then Copied(held, e.compressedSize) else Streamed(z.coding, held, e.compressedSize, 0),
            e, z)
  }

  // Where an entry's data starts, found by its local header, or why it is not
  // looked for.
  datatype Place = At(start: nat) | Nowhere(why: Extracted)

  // An encrypted entry has the lowest flag.
  function PlaceOf(file: seq<Byte>, e: Entry): Place {
    if e.flags % 2 != 0 then Nowhere(IsEncrypted)
    else if e.compression != STORED && e.compression != DEFLATED then Nowhere(Unsupported)
    else if e.offset + LOCAL_SIZE > |file| then Nowhere(BadLocal)
    else PlaceAfter(LocalFieldsAt(file, e.offset), e.offset)
  }

  function PlaceAfter(h: LocalFields, at: nat): Place {
    if h.signature != LOCAL_SIGNATURE then Nowhere(BadLocal) else At(at + LOCAL_SIZE + h.name + h.extra)
  }

  // The data an entry says there is.
  function ExtractedFrom(file: seq<Byte>, e: Entry, z: Zlib): Extracted {
    ExtractedAt(PlaceOf(file, e), file, e, z)
  }

  function ExtractedAt(place: Place, file: seq<Byte>, e: Entry, z: Zlib): Extracted {
    match place
    case At(start) => Made(Held(file, start, e.compressedSize), e, z)
    case Nowhere(why) => why
  }

  method ExtractEntry(file: seq<Byte>, e: Entry, z: Zlib, inflate: Inflater) returns (r: Extracted)
    requires Lawful(z, inflate)
    ensures r == ExtractedFrom(file, e, z)
  {
    if e.flags % 2 != 0 {
      return IsEncrypted;
    }
    if e.compression != STORED && e.compression != DEFLATED {
      return Unsupported;
    }
    if e.offset + LOCAL_SIZE > |file| {
      return BadLocal;
    }
    var h := LocalFieldsAt(file, e.offset);
    if h.signature != LOCAL_SIGNATURE {
      return BadLocal;
    }
    r := ExtractData(Held(file, e.offset + LOCAL_SIZE + h.name + h.extra, e.compressedSize), e, z, inflate);
  }

  method ExtractData(held: seq<Byte>, e: Entry, z: Zlib, inflate: Inflater) returns (r: Extracted)
    requires Lawful(z, inflate)
    ensures r == Made(held, e, z)
  {
    var sum;
    if e.compression == STORED {
      r, sum := CopyData(held, e.compressedSize, z);
    } else {
      r, sum := InflateData(held, e.compressedSize, z, inflate);
    }
    if r.Extracted? && (|r.data| != e.size || sum != e.crc) {
      r := FailedCheck;
    }
  }

  // ---- The files asked for ----

  // What follows the last slash of either kind.
  function BaseName(name: seq<Byte>): seq<Byte> {
    if name == [] || name[|name| - 1] == 0x2F || name[|name| - 1] == 0x5C then []
    else BaseName(name[..|name| - 1]) + [name[|name| - 1]]
  }

  predicate IsFirstNamed(entries: seq<Entry>, k: nat, wanted: seq<Byte>)
    requires k < |entries|
  {
    BaseName(entries[k].name) == wanted && forall j :: 0 <= j < k ==> BaseName(entries[j].name) != wanted
  }

  predicate Named(entries: seq<Entry>, wanted: seq<Byte>) {
    exists k :: 0 <= k < |entries| && BaseName(entries[k].name) == wanted
  }

  // Of the entries that go by a name, what the first holds.
  predicate IsOf(file: seq<Byte>, entries: seq<Entry>, wanted: seq<Byte>, z: Zlib, r: Extracted) {
    exists k :: 0 <= k < |entries| && IsFirstNamed(entries, k, wanted) && r == ExtractedFrom(file, entries[k], z)
  }

  method ExtractOne(file: seq<Byte>, entries: seq<Entry>, wanted: seq<Byte>, z: Zlib, inflate: Inflater)
    returns (found: bool, extracted: Extracted)
    requires Lawful(z, inflate)
    ensures found == Named(entries, wanted) && (found ==> IsOf(file, entries, wanted, z, extracted))
  {
    for k := 0 to |entries|
      invariant forall j :: 0 <= j < k ==> BaseName(entries[j].name) != wanted
    {
      if BaseName(entries[k].name) == wanted {
        assert IsFirstNamed(entries, k, wanted);
        extracted := ExtractEntry(file, entries[k], z, inflate);
        return true, extracted;
      }
    }
    return false, Truncated;
  }

  datatype Outcome = AllWritten | NotAnArchive(listed: ZipArchive.Listed) | NotThere | NotExtracted(why: Extracted)

  // The files written, in the order asked for, up to the first that cannot be.
  method ExtractZipEntries(file: seq<Byte>, wanted: seq<seq<Byte>>, z: Zlib, inflate: Inflater)
    returns (written: seq<seq<Byte>>, outcome: Outcome)
    requires Lawful(z, inflate)
    ensures !ListedIn(file).Listed? ==> written == [] && outcome == NotAnArchive(ListedIn(file))
    ensures ListedIn(file).Listed? ==>
              AreWritten(file, ListedIn(file).entries, wanted, z, written) && Stopped(file, ListedIn(file).entries, wanted, z, written, outcome)
  {
    written := [];
    var listed := ReadCentralDirectory(file);
    if !listed.Listed? {
      return [], NotAnArchive(listed);
    }
    while |written| < |wanted|
      invariant AreWritten(file, listed.entries, wanted, z, written)
    {
      var found, extracted := ExtractOne(file, listed.entries, wanted[|written|], z, inflate);
      if !found {
        return written, NotThere;
      }
      if !extracted.Extracted? {
        return written, NotExtracted(extracted);
      }
      written := written + [extracted.data];
    }
    outcome := AllWritten;
  }

  predicate AreWritten(file: seq<Byte>, entries: seq<Entry>, wanted: seq<seq<Byte>>, z: Zlib, written: seq<seq<Byte>>) {
    |written| <= |wanted| && forall i :: 0 <= i < |written| ==> IsOf(file, entries, wanted[i], z, Extracted(written[i]))
  }

  predicate Stopped(file: seq<Byte>, entries: seq<Entry>, wanted: seq<seq<Byte>>, z: Zlib, written: seq<seq<Byte>>, outcome: Outcome) {
    match outcome
    case AllWritten => |written| == |wanted|
    case NotAnArchive(_) => false
    case NotThere => |written| < |wanted| && !Named(entries, wanted[|written|])
    case NotExtracted(why) => |written| < |wanted| && !why.Extracted? && IsOf(file, entries, wanted[|written|], z, why)
  }

  // ---- When a whole stream comes out ----

  // What the buffer before `k` buffers' end gives fills the other exactly,
  // though the stream goes on.
  predicate FillsAt(c: Coding, held: seq<Byte>, k: nat) {
    && 0 < k && k * BUFFER < |held| && !c.ends(held[..k * BUFFER])
    && Fills(c, held[..(k - 1) * BUFFER], held[..k * BUFFER])
  }

  ghost predicate NeverFills(c: Coding, held: seq<Byte>) {
    forall k: nat :: !FillsAt(c, held, k)
  }

  // From any buffer on.
  lemma {:induction false} StreamedFrom(c: Coding, held: seq<Byte>, k: nat)
    requires IsCoding(c) && k * BUFFER < |held| && c.ends(held) && !c.ends(held[..k * BUFFER]) && NeverFills(c, held)
    ensures Streamed(c, held, |held|, k * BUFFER) == Extracted(c.given(held))
    decreases |held| - k * BUFFER
  {
    var to := Least(k * BUFFER + BUFFER, |held|);
    Goes(c, held[..to], held);
    if to == |held| {
      assert held[..to] == held;
    } else if !c.ends(held[..to]) {
      assert !FillsAt(c, held, k + 1);
      StreamedFrom(c, held, k + 1);
    }
  }

  lemma {:induction false} StreamedUpTo(c: Coding, held: seq<Byte>, j: nat, k: nat)
    requires IsCoding(c) && j < k && c.ends(held) && FillsAt(c, held, k)
    ensures Streamed(c, held, |held|, j * BUFFER) == Undecodable
    decreases k - j
  {
    var to := (j + 1) * BUFFER;
    Goes(c, held[..to], held);
    Goes(c, held[..to], held[..k * BUFFER]);
    if j + 1 < k {
      StreamedUpTo(c, held, j + 1, k);
    }
  }

  // Only a stream that ends is extracted.
  lemma {:induction false} ExtractedEnds(c: Coding, held: seq<Byte>, from: nat)
    requires IsCoding(c) && from <= |held| && Streamed(c, held, |held|, from).Extracted?
    ensures c.ends(held) && Streamed(c, held, |held|, from).data == c.given(held)
    decreases |held| - from
  {
    var to := Least(from + BUFFER, |held|);
    if c.ends(held[..to]) {
      Goes(c, held[..to], held);
    } else {
      ExtractedEnds(c, held, to);
    }
  }

  // A stream comes out whole exactly if it ends and no buffer of it fills the
  // other exactly before.
  lemma StreamedIff(c: Coding, held: seq<Byte>)
    requires IsCoding(c)
    ensures Streamed(c, held, |held|, 0) == Extracted(c.given(held)) <==> c.ends(held) && NeverFills(c, held)
    ensures c.ends(held) && !NeverFills(c, held) ==> Streamed(c, held, |held|, 0) == Undecodable
  {
    if c.ends(held) {
      assert held != [];
      assert held[..0] == [];
      if NeverFills(c, held) {
        StreamedFrom(c, held, 0);
      } else {
        var k: nat :| FillsAt(c, held, k);
        StreamedUpTo(c, held, 0, k);
      }
    } else if Streamed(c, held, |held|, 0).Extracted? {
      ExtractedEnds(c, held, 0);
    }
  }

  // One buffer is never too much.
  lemma SmallNeverFills(c: Coding, held: seq<Byte>)
    requires |held| <= BUFFER
    ensures NeverFills(c, held)
  {
  }

  // ---- There and back ----

  // A file deflated gives the file.
  ghost predicate Undoes(z: Zlib) {
    forall d :: z.coding.ends(z.deflate(d)) && z.coding.given(z.deflate(d)) == d && z.crc(d) <= MAX32
  }

  // Every file comes out as it went in, unless a buffer of it fills the other
  // exactly: then it does not come out at all.
  lemma FileRoundTrip(z: Zlib, files: seq<File>, k: nat, time: nat, date: nat)
    requires Fits(z, files, time, date) && IsCoding(z.coding) && Undoes(z) && k < |files|
    ensures ExtractedFrom(Archive(z, files, time, date), EntryAt(z, files, k, time, date), z)
         == if NeverFills(z.coding, z.deflate(files[k].data)) then Extracted(files[k].data) else Undecodable
  {
    assert IsSmall(EntryAt(z, files, k, time, date));
    FileIsThere(z, files, k, Archive(z, files, time, date), time, date);
    Deflated(z, files[k].data);
  }

  // A file that deflates to one buffer or less always comes out.
  lemma SmallRoundTrip(z: Zlib, files: seq<File>, k: nat, time: nat, date: nat)
    requires Fits(z, files, time, date) && IsCoding(z.coding) && Undoes(z) && k < |files| && |z.deflate(files[k].data)| <= BUFFER
    ensures ExtractedFrom(Archive(z, files, time, date), EntryAt(z, files, k, time, date), z) == Extracted(files[k].data)
  {
    FileRoundTrip(z, files, k, time, date);
    SmallNeverFills(z.coding, z.deflate(files[k].data));
  }

  lemma Deflated(z: Zlib, d: seq<Byte>)
    requires IsCoding(z.coding) && Undoes(z)
    ensures Streamed(z.coding, z.deflate(d), |z.deflate(d)|, 0)
         == if NeverFills(z.coding, z.deflate(d)) then Extracted(d) else Undecodable
    ensures z.crc(d) <= MAX32
  {
    StreamedIff(z.coding, z.deflate(d));
    assert z.coding.ends(z.deflate(d));
  }

  lemma FileIsThere(z: Zlib, files: seq<File>, k: nat, archive: seq<Byte>, time: nat, date: nat)
    requires k < |files| && IsSmall(EntryAt(z, files, k, time, date))
    requires Locals(z, files, |files|, time, date) <= archive
    ensures var held, e := z.deflate(files[k].data), EntryAt(z, files, k, time, date);
            ExtractedFrom(archive, e, z) == Made(held, e, z)
  {
    var e, held := EntryAt(z, files, k, time, date), z.deflate(files[k].data);
    var h := LocalIsAt(z, files, k, archive, time, date);
    FileIsHeld(archive, e, h, held, z);
  }

  lemma FileIsHeld(archive: seq<Byte>, e: Entry, h: seq<Byte>, held: seq<Byte>, z: Zlib)
    requires IsWritten(e) && HasLocalFields(h, e) && |held| == e.compressedSize
    requires e.offset + LOCAL_SIZE + |e.name| + |held| <= |archive| && archive[e.offset..e.offset + LOCAL_SIZE] == h
    requires archive[e.offset + LOCAL_SIZE + |e.name|..e.offset + LOCAL_SIZE + |e.name| + |held|] == held
    ensures ExtractedFrom(archive, e, z) == Made(held, e, z)
  {
    PlaceIs(archive, e, h);
    DataIsThere(archive, e, e.offset + LOCAL_SIZE + |e.name|, held, z);
  }

  lemma DataIsThere(archive: seq<Byte>, e: Entry, start: nat, held: seq<Byte>, z: Zlib)
    requires |held| == e.compressedSize && start + |held| <= |archive| && archive[start..start + |held|] == held
    ensures ExtractedAt(At(start), archive, e, z) == Made(held, e, z)
  {
    HeldIs(archive, start, held);
  }

  lemma HeldIs(file: seq<Byte>, start: nat, held: seq<Byte>)
    requires start + |held| <= |file| && file[start..start + |held|] == held
    ensures Held(file, start, |held|) == held
  {
  }

  lemma PlaceIs(archive: seq<Byte>, e: Entry, h: seq<Byte>)
    requires IsWritten(e) && HasLocalFields(h, e)
    requires e.offset + LOCAL_SIZE <= |archive| && archive[e.offset..e.offset + |h|] == h
    ensures PlaceOf(archive, e) == At(e.offset + LOCAL_SIZE + |e.name|)
  {
    SameLocalFields(archive, h, e.offset);
    AfterHeader(LocalFieldsAt(archive, e.offset), e);
  }

  lemma AfterHeader(h: LocalFields, e: Entry)
    requires h == LocalFields(LOCAL_SIGNATURE, |e.name|, 0)
    ensures PlaceAfter(h, e.offset) == At(e.offset + LOCAL_SIZE + |e.name|)
  {
  }

  // ---- It can happen ----

  // A coding of bytes by themselves, up to one that ends the stream.
  const END_BYTE: Byte := 255

  function BeforeEnd(x: seq<Byte>): seq<Byte> {
    if x == [] || x[0] == END_BYTE then [] else [x[0]] + BeforeEnd(x[1..])
  }

  function Plain(): Coding {
    Coding(x => BeforeEnd(x), x => END_BYTE in x, _ => false)
  }

  lemma {:induction false} PlainContinues(x: seq<Byte>, y: seq<Byte>)
    requires x <= y
    ensures BeforeEnd(x) <= BeforeEnd(y) && (END_BYTE in x ==> END_BYTE in y && BeforeEnd(y) == BeforeEnd(x))
  {
    if x != [] && x[0] != END_BYTE {
      assert x == [x[0]] + x[1..] && y == [x[0]] + y[1..];
      PlainContinues(x[1..], y[1..]);
    }
  }

  lemma PlainIsCoding()
    ensures IsCoding(Plain())
  {
    forall x, y | x <= y ensures Continues(Plain(), x, y) {
      PlainContinues(x, y);
    }
  }

  lemma {:induction false} NoEnd(x: seq<Byte>, rest: seq<Byte>)
    requires END_BYTE !in x
    ensures BeforeEnd(x + rest) == x + BeforeEnd(rest)
  {
    if x == [] {
      assert x + rest == rest;
    } else {
      assert (x + rest)[1..] == x[1..] + rest;
      NoEnd(x[1..], rest);
    }
  }

  // A stream of as many bytes as a buffer holds and its end gives them all, and
  // none of it is extracted.
  lemma FullBufferIsLost(data: seq<Byte>)
    requires |data| == BUFFER && END_BYTE !in data
    ensures IsCoding(Plain())
    ensures var held := data + [END_BYTE];
            Plain().ends(held) && Plain().given(held) == data && Streamed(Plain(), held, |held|, 0) == Undecodable
  {
    var held := data + [END_BYTE];
    PlainIsCoding();
    NoEnd(data, [END_BYTE]);
    NoEnd(data, []);
    assert data + [] == data && held[..1 * BUFFER] == data && held[..0 * BUFFER] == [];
    assert FillsAt(Plain(), held, 1);
    StreamedIff(Plain(), held);
  }

  // ---- An inflater that keeps the promise ----

  // The bytes taken until there is more than room for, from the first `used`.
  function TakenFrom(c: Coding, before: seq<Byte>, upTo: nat, input: seq<Byte>, used: nat): nat
    requires used <= |input|
    decreases |input| - used
  {
    if used == |input| || |c.given(before + input[..used])| > upTo then used
    else TakenFrom(c, before, upTo, input, used + 1)
  }

  lemma {:induction false} TakenIs(c: Coding, before: seq<Byte>, upTo: nat, input: seq<Byte>, used: nat)
    requires used <= |input|
    ensures var u := TakenFrom(c, before, upTo, input, used);
            used <= u <= |input| && (u < |input| ==> |c.given(before + input[..u])| > upTo)
    decreases |input| - used
  {
    if used < |input| && |c.given(before + input[..used])| <= upTo {
      TakenIs(c, before, upTo, input, used + 1);
    }
  }

  function CallOf(c: Coding, before: seq<Byte>, made: nat, input: seq<Byte>, room: nat): Called {
    var used := TakenFrom(c, before, made + room, input, 0);
    if used > |input| then Called(0, [], Failed)
    else
      var now := before + input[..used];
      var data := c.given(now);
      if |data| < made then Called(0, [], Failed)
      else
        var put := Least(|data| - made, room);
        var out, all := data[made..made + put], made + put == |data|;
        Called(used, out,
               if all && c.ends(now) then StreamEnd
               else if (all && c.spoilt(now)) || (input == [] && out == []) then Failed
               else Okay)
  }

  lemma CallIs(c: Coding, before: seq<Byte>, made: nat, input: seq<Byte>, room: nat)
    requires IsCoding(c) && room > 0 && made <= |c.given(before)|
    ensures IsCall(c, before, made, input, room, CallOf(c, before, made, input, room))
  {
    var used := TakenFrom(c, before, made + room, input, 0);
    TakenIs(c, before, made + room, input, 0);
    var now := before + input[..used];
    Goes(c, before, now);
    assert before + input == now + input[used..];
    Goes(c, now, before + input);
  }

  lemma SomeInflaterObeys(c: Coding) returns (inflate: Inflater)
    requires IsCoding(c)
    ensures Obeys(inflate, c)
  {
    inflate := (before: seq<Byte>, made: nat, input: seq<Byte>, room: nat) => CallOf(c, before, made, input, room);
    forall before: seq<Byte>, made: nat, input: seq<Byte>, room: nat | room > 0 && made <= |c.given(before)|
      ensures IsCall(c, before, made, input, room, inflate(before, made, input, room))
    {
      CallIs(c, before, made, input, room);
    }
  }
}
