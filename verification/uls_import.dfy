// The FCC's license files, joined by id into stations: held small, found by
// halves, and written a batch at a time.
module UlsImport {
  type Line = seq<string>

  const MAX_OFFSET: nat := 0x1_0000_0000
  const MAX_LENGTH: nat := 0xFFFF
  const BATCH: nat := 5000

  // ---- The plain join ----

  datatype Station = Station(callsign: string, name: string, street: string, city: string, state: string, zip: string, license: string)

  function FieldOf(line: Line, i: nat): string {
    if i < |line| then line[i] else ""
  }

  predicate IsDigit(c: char) {
    '0' <= c <= '9'
  }

  // The number a text starts with.
  function Leading(text: string, before: nat): nat {
    if text == [] || !IsDigit(text[0]) then before else Leading(text[1..], 10 * before + (text[0] as int - '0' as int))
  }

  function NormalizeZip5(zip: string): string {
    if |zip| > 5 then zip[..5] else zip
  }

  // A record's id, or 0 if it has none that fits in 32 bits.
  function RecordId(text: string): (id: nat)
    ensures id < MAX_OFFSET
  {
    var n := Leading(text, 0);
    if n < MAX_OFFSET then n else 0
  }

  predicate IsActive(line: Line) {
    |line| > 5 && line[0] == "HD" && line[5] == "A" && line[4] != "" && RecordId(line[1]) != 0
  }

  function IdOf(line: Line): nat {
    RecordId(FieldOf(line, 1))
  }

  // The active licenses, in the file's order.
  function Active(hd: seq<Line>): (active: seq<Line>)
    ensures |active| <= |hd|
  {
    if hd == [] then []
    else
      var before, last := Active(hd[..|hd| - 1]), hd[|hd| - 1];
      if IsActive(last) then before + [last] else before
  }

  // As much of a text as is kept.
  function Clipped(text: string, limit: nat): string {
    if |text| > limit then text[..limit] else text
  }

  function Kept(text: string): string {
    Clipped(text, MAX_LENGTH)
  }

  // What a C string of it says.
  function UpToNul(text: string): string {
    if text == [] || text[0] == 0 as char then [] else [text[0]] + UpToNul(text[1..])
  }

  function Fixed(text: string, limit: nat): string {
    UpToNul(Clipped(text, limit))
  }

  function WithEntity(s: Station, line: Line): Station {
    s.(name := Kept(FieldOf(line, 7)), street := Kept(FieldOf(line, 15)), city := Kept(FieldOf(line, 16)),
       state := Fixed(FieldOf(line, 17), 2), zip := Fixed(NormalizeZip5(FieldOf(line, 18)), 5))
  }

  function WithLicense(s: Station, line: Line, classOf: string -> string): Station {
    s.(license := classOf(FieldOf(line, 5)))
  }

  function Bare(line: Line): Station {
    Station(Kept(FieldOf(line, 4)), [], [], [], [], [], [])
  }

  // The last line of a kind with this id, if there is one.
  function LastOf(lines: seq<Line>, tag: string, id: nat): (k: int)
    ensures -1 <= k < |lines|
    ensures k >= 0 ==> FieldOf(lines[k], 0) == tag && lines[k] != [] && IdOf(lines[k]) == id
  {
    if lines == [] then -1
    else
      var last := lines[|lines| - 1];
      if last != [] && last[0] == tag && IdOf(last) == id then |lines| - 1 else LastOf(lines[..|lines| - 1], tag, id)
  }

  // Whether an active license is the first with its id.
  predicate IsFirst(active: seq<Line>, k: nat)
    requires k < |active|
  {
    forall j :: 0 <= j < k ==> IdOf(active[j]) != IdOf(active[k])
  }

  // What is imported of a license: its call sign and, as the first with its id,
  // what the last lines with that id say.
  function Joined(active: seq<Line>, k: nat, en: seq<Line>, am: seq<Line>, classOf: string -> string): Station
    requires k < |active|
  {
    var s, id := Bare(active[k]), IdOf(active[k]);
    if !IsFirst(active, k) then s
    else
      var e, a := LastOf(en, "EN", id), LastOf(am, "AM", id);
      var named := if e >= 0 then WithEntity(s, en[e]) else s;
      if a >= 0 then WithLicense(named, am[a], classOf) else named
  }

  // What the lines with its id say of a license, whichever of that id it is.
  function Described(line: Line, en: seq<Line>, am: seq<Line>, classOf: string -> string): Station {
    var e, a := LastOf(en, "EN", IdOf(line)), LastOf(am, "AM", IdOf(line));
    var named := if e >= 0 then WithEntity(Bare(line), en[e]) else Bare(line);
    if a >= 0 then WithLicense(named, am[a], classOf) else named
  }

  predicate IsOf(line: Line, tag: string, id: nat) {
    line != [] && line[0] == tag && IdOf(line) == id
  }

  // The last line found is the last.
  lemma {:induction false} LastIs(lines: seq<Line>, tag: string, id: nat)
    ensures var k := LastOf(lines, tag, id);
            (k >= 0 ==> IsOf(lines[k], tag, id)) && forall j :: k < j < |lines| ==> !IsOf(lines[j], tag, id)
  {
    if lines != [] && !IsOf(lines[|lines| - 1], tag, id) {
      var before := lines[..|lines| - 1];
      LastIs(before, tag, id);
      assert forall j :: 0 <= j < |before| ==> lines[j] == before[j];
    }
  }

  // Whether a line has anything to say.
  predicate SaysEntity(line: Line) {
    || Kept(FieldOf(line, 7)) != [] || Kept(FieldOf(line, 15)) != [] || Kept(FieldOf(line, 16)) != []
    || Fixed(FieldOf(line, 17), 2) != [] || Fixed(NormalizeZip5(FieldOf(line, 18)), 5) != []
  }

  predicate SaysLicense(line: Line, classOf: string -> string) {
    classOf(FieldOf(line, 5)) != []
  }

  predicate Last(lines: seq<Line>, tag: string, e: nat) {
    e < |lines| && IsOf(lines[e], tag, IdOf(lines[e])) && forall j :: e < j < |lines| ==> !IsOf(lines[j], tag, IdOf(lines[e]))
  }

  // Two active licenses have the id.
  predicate Shared(active: seq<Line>, id: nat) {
    exists j, k :: 0 <= j < k < |active| && IdOf(active[j]) == id && IdOf(active[k]) == id
  }

  // No line that is the last of its kind with its id, and says something, has
  // an id that two active licenses have.
  predicate NoneShared(active: seq<Line>, en: seq<Line>, am: seq<Line>, classOf: string -> string) {
    && (forall e :: 0 <= e < |en| && Last(en, "EN", e) && SaysEntity(en[e]) ==> !Shared(active, IdOf(en[e])))
    && (forall a :: 0 <= a < |am| && Last(am, "AM", a) && SaysLicense(am[a], classOf) ==> !Shared(active, IdOf(am[a])))
  }

  // What is not the first with its id is imported bare.
  lemma JoinedIs(active: seq<Line>, k: nat, en: seq<Line>, am: seq<Line>, classOf: string -> string)
    requires k < |active|
    ensures Joined(active, k, en, am, classOf)
         == if IsFirst(active, k) then Described(active[k], en, am, classOf) else Bare(active[k])
  {
  }

  // A license has something said of it exactly if the last line of a kind with
  // its id says something.
  lemma DescribedIff(line: Line, en: seq<Line>, am: seq<Line>, classOf: string -> string)
    ensures Described(line, en, am, classOf) != Bare(line)
            <==> var e, a := LastOf(en, "EN", IdOf(line)), LastOf(am, "AM", IdOf(line));
                 (e >= 0 && SaysEntity(en[e])) || (a >= 0 && SaysLicense(am[a], classOf))
  {
  }

  lemma SharedIff(active: seq<Line>, k: nat)
    requires k < |active| && !IsFirst(active, k)
    ensures Shared(active, IdOf(active[k]))
  {
    var j :| 0 <= j < k && IdOf(active[j]) == IdOf(active[k]);
  }

  lemma LaterOf(active: seq<Line>, id: nat) returns (k: nat)
    requires Shared(active, id)
    ensures k < |active| && IdOf(active[k]) == id && !IsFirst(active, k)
  {
    var i, j :| 0 <= i < j < |active| && IdOf(active[i]) == id && IdOf(active[j]) == id;
    k := j;
  }

  // Every license is imported with all that the lines with its id say, exactly
  // if no line that counts has an id shared by two of them.
  lemma JoinedIff(active: seq<Line>, en: seq<Line>, am: seq<Line>, classOf: string -> string)
    ensures (forall k :: 0 <= k < |active| ==> Joined(active, k, en, am, classOf) == Described(active[k], en, am, classOf))
            <==> NoneShared(active, en, am, classOf)
  {
    if NoneShared(active, en, am, classOf) {
      forall k | 0 <= k < |active| ensures Joined(active, k, en, am, classOf) == Described(active[k], en, am, classOf) {
        NoneSaid(active, k, en, am, classOf);
      }
    } else if e: nat :| e < |en| && Last(en, "EN", e) && SaysEntity(en[e]) && Shared(active, IdOf(en[e])) {
      var k := LaterOf(active, IdOf(en[e]));
      LastIs(en, "EN", IdOf(en[e]));
      assert LastOf(en, "EN", IdOf(en[e])) == e;
      DescribedIff(active[k], en, am, classOf);
      JoinedIs(active, k, en, am, classOf);
    } else {
      var a: nat :| a < |am| && Last(am, "AM", a) && SaysLicense(am[a], classOf) && Shared(active, IdOf(am[a]));
      var k := LaterOf(active, IdOf(am[a]));
      LastIs(am, "AM", IdOf(am[a]));
      assert LastOf(am, "AM", IdOf(am[a])) == a;
      DescribedIff(active[k], en, am, classOf);
      JoinedIs(active, k, en, am, classOf);
    }
  }

  lemma NoneSaid(active: seq<Line>, k: nat, en: seq<Line>, am: seq<Line>, classOf: string -> string)
    requires k < |active| && NoneShared(active, en, am, classOf)
    ensures Joined(active, k, en, am, classOf) == Described(active[k], en, am, classOf)
  {
    JoinedIs(active, k, en, am, classOf);
    if !IsFirst(active, k) {
      SharedIff(active, k);
      var id := IdOf(active[k]);
      LastIs(en, "EN", id);
      LastIs(am, "AM", id);
      var e, a := LastOf(en, "EN", id), LastOf(am, "AM", id);
      assert e >= 0 ==> Last(en, "EN", e);
      assert a >= 0 ==> Last(am, "AM", a);
      DescribedIff(active[k], en, am, classOf);
    }
  }

  const TWO_OF_AN_ID: seq<Line> := [["HD", "1", "", "", "W1AW", "A"], ["HD", "1", "", "", "K1TTT", "A"]]

  // Two active licenses with one id, and a line that names their holder: the
  // second is imported without a name.
  lemma SecondIsBare(classOf: string -> string)
    ensures var en := [["EN", "1", "", "", "", "", "", "ADA"]];
            && Active(TWO_OF_AN_ID) == TWO_OF_AN_ID
            && Joined(TWO_OF_AN_ID, 0, en, [], classOf).name == "ADA"
            && Joined(TWO_OF_AN_ID, 1, en, [], classOf) == Bare(TWO_OF_AN_ID[1])
            && Described(TWO_OF_AN_ID[1], en, [], classOf).name == "ADA"
  {
    var hd := TWO_OF_AN_ID;
    assert Leading("1", 0) == 1 by {
      assert "1"[1..] == "";
    }
    assert hd[..1] == [hd[0]] && hd[..1][..0] == [];
    assert Active([]) == [] && Active(hd[..1]) == [hd[0]];
  }

  // ---- As it is held ----

  // A piece of text in the one buffer.
  datatype TextRef = TextRef(offset: nat, length: nat)

  datatype Record = Record(callsign: TextRef, name: TextRef, street: TextRef, city: TextRef, state: string, zip: string, license: string)

  const NO_TEXT: TextRef := TextRef(0, 0)

  predicate IsIn(ref: TextRef, text: string) {
    ref.offset + ref.length <= |text|
  }

  predicate AllIn(r: Record, text: string) {
    IsIn(r.callsign, text) && IsIn(r.name, text) && IsIn(r.street, text) && IsIn(r.city, text)
  }

  function Read(ref: TextRef, text: string): string
    requires IsIn(ref, text)
  {
    text[ref.offset..ref.offset + ref.length]
  }

  function StationOf(r: Record, text: string): Station
    requires AllIn(r, text)
  {
    Station(Read(r.callsign, text), Read(r.name, text), Read(r.street, text), Read(r.city, text),
            UpToNul(r.state), UpToNul(r.zip), r.license)
  }

  // Whatever is added later, a piece of text stays.
  lemma ReadStays(r: Record, text: string, more: string)
    requires AllIn(r, text)
    ensures AllIn(r, text + more) && StationOf(r, text + more) == StationOf(r, text)
  {
    TextStays(r.callsign, text, more);
    TextStays(r.name, text, more);
    TextStays(r.street, text, more);
    TextStays(r.city, text, more);
  }

  lemma TextStays(ref: TextRef, text: string, more: string)
    requires IsIn(ref, text)
    ensures IsIn(ref, text + more) && Read(ref, text + more) == Read(ref, text)
  {
  }

  datatype Key = Key(id: nat, index: nat)

  predicate Before(a: Key, b: Key) {
    a.id < b.id || (a.id == b.id && a.index < b.index)
  }

  predicate IsSorted(keys: seq<Key>) {
    forall i, j :: 0 <= i < j < |keys| ==> Before(keys[i], keys[j])
  }

  // The keys of the active licenses, in the file's order.
  function KeysOf(active: seq<Line>): (keys: seq<Key>)
    ensures |keys| == |active| && forall k :: 0 <= k < |keys| ==> keys[k] == Key(IdOf(active[k]), k)
  {
    seq(|active|, k requires 0 <= k < |active| => Key(IdOf(active[k]), k))
  }

  // The first active license with an id, if there is one.
  function FirstWith(active: seq<Line>, id: nat): (k: int)
    ensures -1 <= k < |active|
    ensures k >= 0 ==> IdOf(active[k]) == id && forall j :: 0 <= j < k ==> IdOf(active[j]) != id
    ensures k < 0 ==> forall j :: 0 <= j < |active| ==> IdOf(active[j]) != id
  {
    if active == [] then -1
    else
      var before := FirstWith(active[..|active| - 1], id);
      if before >= 0 then before
      else if IdOf(active[|active| - 1]) == id then |active| - 1
      else
        assert forall j :: 0 <= j < |active| - 1 ==> active[j] == active[..|active| - 1][j];
        -1
  }

  // Once 2^32 characters are stored, a reference to more is one to what was
  // stored first.
  lemma WrapsAround(text: string, value: string)
    requires |text| == MAX_OFFSET && value != []
    ensures Read(TextRef(|text| % MAX_OFFSET, |Kept(value)|), text + Kept(value)) == text[..|Kept(value)|]
    ensures text[0] != value[0] ==> Read(TextRef(|text| % MAX_OFFSET, |Kept(value)|), text + Kept(value)) != Kept(value)
  {
    assert (text + Kept(value))[0..|Kept(value)|] == text[..|Kept(value)|];
    assert text[..|Kept(value)|][0] == text[0] && Kept(value)[0] == value[0];
  }

  // ---- Sorting and finding ----

  function Insert(key: Key, sorted: seq<Key>): seq<Key> {
    if sorted == [] then [key]
    else if Before(key, sorted[0]) then [key] + sorted
    else [sorted[0]] + Insert(key, sorted[1..])
  }

  function Sorted(keys: seq<Key>): seq<Key> {
    if keys == [] then [] else Insert(keys[|keys| - 1], Sorted(keys[..|keys| - 1]))
  }

  lemma {:induction false} InsertHolds(key: Key, sorted: seq<Key>)
    ensures multiset(Insert(key, sorted)) == multiset(sorted) + multiset{key}
  {
    if sorted != [] {
      assert sorted == [sorted[0]] + sorted[1..];
      if !Before(key, sorted[0]) {
        InsertHolds(key, sorted[1..]);
      }
    }
  }

  lemma {:induction false} InsertSorts(key: Key, sorted: seq<Key>)
    requires IsSorted(sorted) && key !in sorted
    ensures IsSorted(Insert(key, sorted))
  {
    if sorted == [] || Before(key, sorted[0]) {
      Precedes(key, sorted);
    } else {
      var first, rest := sorted[0], sorted[1..];
      InsertSorts(key, rest);
      InsertHolds(key, rest);
      var inserted := Insert(key, rest);
      forall i | 0 <= i < |inserted| ensures Before(first, inserted[i]) {
        assert inserted[i] in multiset(inserted);
        assert inserted[i] == key || inserted[i] in rest;
      }
      Precedes(first, inserted);
    }
  }

  lemma Precedes(key: Key, sorted: seq<Key>)
    requires IsSorted(sorted) && (sorted != [] ==> Before(key, sorted[0]))
    ensures IsSorted([key] + sorted)
  {
    forall i | 0 <= i < |sorted|
      ensures Before(key, sorted[i])
    {
      assert i > 0 ==> Before(sorted[0], sorted[i]);
    }
  }

  lemma {:induction false} SortedSorts(keys: seq<Key>)
    requires forall i, j :: 0 <= i < j < |keys| ==> keys[i] != keys[j]
    ensures IsSorted(Sorted(keys)) && multiset(Sorted(keys)) == multiset(keys)
  {
    if keys != [] {
      var before, last := keys[..|keys| - 1], keys[|keys| - 1];
      assert keys == before + [last];
      SortedSorts(before);
      assert last !in Sorted(before) by {
        assert last !in before;
        assert forall k :: k in Sorted(before) ==> k in multiset(Sorted(before));
      }
      InsertSorts(last, Sorted(before));
      InsertHolds(last, Sorted(before));
    }
  }

  // These are the active licenses' keys, sorted.
  ghost predicate IsIndex(ids: seq<Key>, active: seq<Line>) {
    IsSorted(ids) && multiset(ids) == multiset(KeysOf(active))
  }

  // The place found by halves is that of the first license with the id.
  lemma PlaceIsFirst(ids: seq<Key>, active: seq<Line>, id: nat, at: nat)
    requires IsIndex(ids, active) && at <= |ids|
    requires forall i :: 0 <= i < at ==> ids[i].id < id
    requires forall i :: at <= i < |ids| ==> ids[i].id >= id
    ensures FirstWith(active, id) == if at < |ids| && ids[at].id == id then ids[at].index else -1
  {
    var keys := KeysOf(active);
    forall j | 0 <= j < |active| && IdOf(active[j]) == id
      ensures exists q :: at <= q < |ids| && ids[q] == Key(id, j)
    {
      assert keys[j] in multiset(keys);
      assert Key(id, j) in ids;
    }
    if at < |ids| && ids[at].id == id {
      assert ids[at] in multiset(ids);
      assert ids[at] in keys;
      forall j | 0 <= j < |active| && IdOf(active[j]) == id
        ensures ids[at].index <= j
      {
        var q :| at <= q < |ids| && ids[q] == Key(id, j);
        assert q == at || Before(ids[at], ids[q]);
      }
    }
  }

  lemma FirstMeans(active: seq<Line>, k: nat, id: nat)
    requires k < |active|
    ensures FirstWith(active, id) == k <==> IdOf(active[k]) == id && IsFirst(active, k)
  {
  }

  // ---- One more line ----

  lemma LastMore(lines: seq<Line>, line: Line, tag: string, id: nat)
    ensures LastOf(lines + [line], tag, id) == if IsOf(line, tag, id) then |lines| else LastOf(lines, tag, id)
  {
    assert (lines + [line])[..|lines|] == lines;
  }

  lemma EntityMore(active: seq<Line>, k: nat, en: seq<Line>, line: Line, am: seq<Line>, classOf: string -> string)
    requires k < |active|
    ensures Joined(active, k, en + [line], am, classOf)
            == if IsOf(line, "EN", IdOf(active[k])) && IsFirst(active, k) then WithEntity(Joined(active, k, en, am, classOf), line)
               else Joined(active, k, en, am, classOf)
  {
    LastMore(en, line, "EN", IdOf(active[k]));
  }

  lemma LicenseMore(active: seq<Line>, k: nat, en: seq<Line>, am: seq<Line>, line: Line, classOf: string -> string)
    requires k < |active|
    ensures Joined(active, k, en, am + [line], classOf)
            == if IsOf(line, "AM", IdOf(active[k])) && IsFirst(active, k) then WithLicense(Joined(active, k, en, am, classOf), line, classOf)
               else Joined(active, k, en, am, classOf)
  {
    LastMore(am, line, "AM", IdOf(active[k]));
  }

  function ActiveMore(active: seq<Line>, line: Line): seq<Line> {
    if IsActive(line) then active + [line] else active
  }

  function EntityText(line: Line): string {
    Kept(FieldOf(line, 7)) + Kept(FieldOf(line, 15)) + Kept(FieldOf(line, 16))
  }

  // How much text the files' lines come to: call signs, and entities of active
  // licenses.
  function HdSize(active: seq<Line>): nat {
    if active == [] then 0 else HdSize(active[..|active| - 1]) + |Kept(FieldOf(active[|active| - 1], 4))|
  }

  function EnSize(active: seq<Line>, en: seq<Line>): nat
    decreases |en|
  {
    if en == [] then 0
    else
      var last := en[|en| - 1];
      EnSize(active, en[..|en| - 1])
      + if last != [] && last[0] == "EN" && FirstWith(active, IdOf(last)) >= 0 then |EntityText(last)| else 0
  }

  lemma SizeMore(active: seq<Line>, line: Line)
    ensures HdSize(active + [line]) == HdSize(active) + |Kept(FieldOf(line, 4))|
  {
    assert (active + [line])[..|active|] == active;
  }

  lemma EnSizeMore(active: seq<Line>, en: seq<Line>, line: Line)
    ensures EnSize(active, en + [line])
            == EnSize(active, en)
               + if line != [] && line[0] == "EN" && FirstWith(active, IdOf(line)) >= 0 then |EntityText(line)| else 0
  {
    assert (en + [line])[..|en|] == en;
  }

  lemma FirstInMore(active: seq<Line>, line: Line, k: nat)
    requires k < |active|
    ensures IsFirst(active + [line], k) <==> IsFirst(active, k)
  {
    assert forall j :: 0 <= j <= k ==> (active + [line])[j] == active[j];
    assert forall j :: 0 <= j < k ==> IdOf((active + [line])[j]) == IdOf(active[j]);
  }

  // All text is there.
  predicate Held(records: seq<Record>, text: string) {
    forall k :: 0 <= k < |records| ==> AllIn(records[k], text)
  }

  ghost predicate ReadsAs(records: seq<Record>, text: string, active: seq<Line>, en: seq<Line>, am: seq<Line>, classOf: string -> string)
    requires Held(records, text) && |records| == |active|
  {
    forall k :: 0 <= k < |records| ==> StationOf(records[k], text) == Joined(active, k, en, am, classOf)
  }

  // The records are what the join says, unless the text has outgrown its
  // offsets.
  ghost predicate Shows(records: seq<Record>, text: string, active: seq<Line>, en: seq<Line>, am: seq<Line>, classOf: string -> string) {
    && Held(records, text) && |records| == |active| && |text| == HdSize(active) + EnSize(active, en)
    && (|text| <= MAX_OFFSET ==> ReadsAs(records, text, active, en, am, classOf))
  }

  // One more license.
  lemma HdShows(records: seq<Record>, text: string, active: seq<Line>, line: Line, r: Record, classOf: string -> string)
    requires Shows(records, text, active, [], [], classOf)
    requires AllIn(r, text + Kept(FieldOf(line, 4)))
    requires |text + Kept(FieldOf(line, 4))| <= MAX_OFFSET ==> StationOf(r, text + Kept(FieldOf(line, 4))) == Bare(line)
    ensures Shows(records + [r], text + Kept(FieldOf(line, 4)), active + [line], [], [], classOf)
  {
    var more, next := Kept(FieldOf(line, 4)), active + [line];
    SizeMore(active, line);
    forall k | 0 <= k < |active|
      ensures AllIn(records[k], text + more) && StationOf(records[k], text + more) == StationOf(records[k], text)
      ensures Joined(next, k, [], [], classOf) == Joined(active, k, [], [], classOf)
    {
      ReadStays(records[k], text, more);
      FirstInMore(active, line, k);
    }
  }

  // One more entity: of one license, or of none.
  lemma EnShows(records: seq<Record>, text: string, active: seq<Line>, en: seq<Line>, line: Line, r: Record, classOf: string -> string)
    requires Shows(records, text, active, en, [], classOf)
    requires line != [] && line[0] == "EN" && FirstWith(active, IdOf(line)) >= 0
    requires AllIn(r, text + EntityText(line))
    requires |text + EntityText(line)| <= MAX_OFFSET ==>
               StationOf(r, text + EntityText(line)) == WithEntity(StationOf(records[FirstWith(active, IdOf(line))], text), line)
    ensures Shows(records[FirstWith(active, IdOf(line)) := r], text + EntityText(line), active, en + [line], [], classOf)
  {
    var more := EntityText(line);
    EnSizeMore(active, en, line);
    forall k | 0 <= k < |active|
      ensures AllIn(records[k], text + more) && StationOf(records[k], text + more) == StationOf(records[k], text)
      ensures Joined(active, k, en + [line], [], classOf)
              == if FirstWith(active, IdOf(line)) == k then WithEntity(Joined(active, k, en, [], classOf), line)
                 else Joined(active, k, en, [], classOf)
    {
      ReadStays(records[k], text, more);
      EntityMore(active, k, en, line, [], classOf);
      FirstMeans(active, k, IdOf(line));
    }
  }

  lemma EnSkipped(records: seq<Record>, text: string, active: seq<Line>, en: seq<Line>, line: Line, classOf: string -> string)
    requires Shows(records, text, active, en, [], classOf)
    requires line == [] || line[0] != "EN" || FirstWith(active, IdOf(line)) < 0
    ensures Shows(records, text, active, en + [line], [], classOf)
  {
    EnSizeMore(active, en, line);
    forall k | 0 <= k < |active|
      ensures Joined(active, k, en + [line], [], classOf) == Joined(active, k, en, [], classOf)
    {
      EntityMore(active, k, en, line, [], classOf);
      FirstMeans(active, k, IdOf(line));
    }
  }

  // And one more line on a license's class.
  lemma AmShows(records: seq<Record>, text: string, active: seq<Line>, en: seq<Line>, am: seq<Line>, line: Line, next: seq<Record>,
                classOf: string -> string)
    requires Shows(records, text, active, en, am, classOf)
    requires
      var k := FirstWith(active, IdOf(line));
      next == if line != [] && line[0] == "AM" && k >= 0 then records[k := records[k].(license := classOf(FieldOf(line, 5)))] else records
    ensures Shows(next, text, active, en, am + [line], classOf)
  {
    forall k | 0 <= k < |active|
      ensures Joined(active, k, en, am + [line], classOf)
              == if line != [] && line[0] == "AM" && FirstWith(active, IdOf(line)) == k
                 then WithLicense(Joined(active, k, en, am, classOf), line, classOf) else Joined(active, k, en, am, classOf)
    {
      LicenseMore(active, k, en, am, line, classOf);
      FirstMeans(active, k, IdOf(line));
    }
  }

  class UlsLicenses {
    var records: seq<Record>
    var text: string
    var ids: seq<Key>

    constructor ()
      ensures records == [] && text == [] && ids == []
    {
      records, text, ids := [], [], [];
    }

    method Store(value: string) returns (ref: TextRef)
      modifies `text
      ensures text == old(text) + Kept(value) && ref == TextRef(|old(text)| % MAX_OFFSET, |Kept(value)|)
      ensures IsIn(ref, text) && (|text| <= MAX_OFFSET ==> Read(ref, text) == Kept(value))
    {
      ref := TextRef(|text| % MAX_OFFSET, if |value| < MAX_LENGTH then |value| else MAX_LENGTH);
      ghost var was := text;
      text := text + value[..ref.length];
      assert value[..ref.length] == Kept(value);
      InRange(|was|);
      if |text| <= MAX_OFFSET && |was| == MAX_OFFSET {
        assert Kept(value) == [];
      }
    }

    lemma InRange(n: nat)
      ensures n % MAX_OFFSET <= n && (n < MAX_OFFSET ==> n % MAX_OFFSET == n)
    {
    }

    // As many characters as offsets can count stored, the next text is read as
    // the first.
    method StoreTooMuch() returns (ref: TextRef)
      requires text == []
      modifies `text
      ensures |text| == MAX_OFFSET + 1 && text[MAX_OFFSET..] == "B" && IsIn(ref, text) && Read(ref, text) == "A"
    {
      var long := seq(MAX_LENGTH, i => 'A');
      for n := 0 to MAX_LENGTH + 2
        invariant |text| == n * MAX_LENGTH && (n > 0 ==> text[0] == 'A')
      {
        var stored := Store(long);
      }
      var last := Store("A");
      assert |text| == MAX_OFFSET;
      ghost var was := text;
      ref := Store("B");
      WrapsAround(was, "B");
      assert was[..1] == "A";
    }

    method HandleHd(line: Line, ghost active: seq<Line>, ghost classOf: string -> string)
      requires Shows(records, text, active, [], [], classOf) && ids == KeysOf(active)
      modifies this
      ensures Shows(records, text, ActiveMore(active, line), [], [], classOf) && ids == KeysOf(ActiveMore(active, line))
    {
      if |line| <= 5 || line[0] != "HD" || line[5] != "A" || line[4] == "" {
        return;
      }
      var id := RecordId(line[1]);
      if id == 0 {
        return;
      }
      ids := ids + [Key(id, |records|)];
      assert ids == KeysOf(active + [line]);
      var ref := Store(line[4]);
      var r := Record(ref, NO_TEXT, NO_TEXT, NO_TEXT, [], [], []);
      HdShows(records, old(text), active, line, r, classOf);
      records := records + [r];
    }

    // The index of the record with an id, or -1.
    method Find(id: nat, ghost active: seq<Line>) returns (k: int)
      requires IsIndex(ids, active)
      ensures k == FirstWith(active, id)
    {
      var low, high := 0, |ids|;
      while low < high
        invariant low <= high <= |ids|
        invariant forall i :: 0 <= i < low ==> ids[i].id < id
        invariant forall i :: high <= i < |ids| ==> ids[i].id >= id
      {
        var middle := low + (high - low) / 2;
        if Before(ids[middle], Key(id, 0)) {
          assert forall i :: 0 <= i < middle ==> Before(ids[i], ids[middle]);
          low := middle + 1;
        } else {
          assert forall i :: middle < i < |ids| ==> Before(ids[middle], ids[i]);
          high := middle;
        }
      }
      PlaceIsFirst(ids, active, id, low);
      k := if low < |ids| && ids[low].id == id then ids[low].index else -1;
    }

    method HandleEn(line: Line, ghost active: seq<Line>, ghost en: seq<Line>, ghost classOf: string -> string)
      requires Shows(records, text, active, en, [], classOf) && IsIndex(ids, active)
      modifies `records, `text
      ensures Shows(records, text, active, en + [line], [], classOf)
    {
      if line == [] || line[0] != "EN" {
        EnSkipped(records, text, active, en, line, classOf);
        return;
      }
      var found := Find(RecordId(FieldOf(line, 1)), active);
      if found < 0 {
        EnSkipped(records, text, active, en, line, classOf);
        return;
      }
      var r := StoreEntity(records[found], line);
      EnShows(records, old(text), active, en, line, r, classOf);
      records := records[found := r];
    }

    // A record with what a line says, its text stored.
    method StoreEntity(r: Record, line: Line) returns (next: Record)
      requires AllIn(r, text)
      modifies `text
      ensures text == old(text) + EntityText(line) && AllIn(next, text)
      ensures |text| <= MAX_OFFSET ==> StationOf(next, text) == WithEntity(StationOf(r, old(text)), line)
    {
      var name := Store(FieldOf(line, 7));
      ghost var one := text;
      var street := Store(FieldOf(line, 15));
      ghost var two := text;
      var city := Store(FieldOf(line, 16));
      TextStays(name, one, Kept(FieldOf(line, 15)));
      TextStays(name, two, Kept(FieldOf(line, 16)));
      TextStays(street, two, Kept(FieldOf(line, 16)));
      assert text == old(text) + EntityText(line);
      TextStays(r.callsign, old(text), EntityText(line));
      next := r.(name := name, street := street, city := city,
                 state := Clipped(FieldOf(line, 17), 2), zip := Clipped(NormalizeZip5(FieldOf(line, 18)), 5));
    }

    method HandleAm(line: Line, ghost active: seq<Line>, ghost en: seq<Line>, ghost am: seq<Line>, classOf: string -> string)
      requires Shows(records, text, active, en, am, classOf) && IsIndex(ids, active)
      modifies `records
      ensures Shows(records, text, active, en, am + [line], classOf)
    {
      var found := -1;
      if line != [] && line[0] == "AM" {
        found := Find(RecordId(FieldOf(line, 1)), active);
        if found >= 0 {
          records := records[found := records[found].(license := classOf(FieldOf(line, 5)))];
        }
      }
      AmShows(old(records), text, active, en, am, line, records, classOf);
    }

    // The three files, one after the other, line by line.
    method ReadFiles(hd: seq<Line>, en: seq<Line>, am: seq<Line>, hasClasses: bool, classOf: string -> string)
      requires records == [] && text == [] && ids == []
      modifies this
      ensures Shows(records, text, Active(hd), en, if hasClasses then am else [], classOf)
    {
      ReadHd(hd, classOf);
      ghost var active := Active(hd);
      SortedSorts(ids);
      ids := Sorted(ids);
      ReadEn(en, active, classOf);
      if hasClasses {
        ReadAm(am, active, en, classOf);
      }
    }

    method ReadHd(hd: seq<Line>, ghost classOf: string -> string)
      requires records == [] && text == [] && ids == []
      modifies this
      ensures Shows(records, text, Active(hd), [], [], classOf) && ids == KeysOf(Active(hd))
    {
      assert KeysOf([]) == [];
      ghost var active: seq<Line> := [];
      for i := 0 to |hd|
        invariant active == Active(hd[..i])
        invariant Shows(records, text, active, [], [], classOf) && ids == KeysOf(active)
      {
        assert hd[..i + 1][..i] == hd[..i];
        HandleHd(hd[i], active, classOf);
        active := ActiveMore(active, hd[i]);
      }
      assert hd[..|hd|] == hd;
    }

    method ReadEn(en: seq<Line>, ghost active: seq<Line>, ghost classOf: string -> string)
      requires Shows(records, text, active, [], [], classOf) && IsIndex(ids, active)
      modifies `records, `text
      ensures Shows(records, text, active, en, [], classOf)
    {
      ghost var done: seq<Line> := [];
      for i := 0 to |en|
        invariant |done| == i && done <= en
        invariant Shows(records, text, active, done, [], classOf)
      {
        var line := en[i];
        HandleEn(line, active, done, classOf);
        done := done + [line];
      }
      assert done == en;
    }

    method ReadAm(am: seq<Line>, ghost active: seq<Line>, ghost en: seq<Line>, classOf: string -> string)
      requires Shows(records, text, active, en, [], classOf) && IsIndex(ids, active)
      modifies `records
      ensures Shows(records, text, active, en, am, classOf)
    {
      ghost var done: seq<Line> := [];
      for i := 0 to |am|
        invariant done == am[..i]
        invariant Shows(records, text, active, en, done, classOf)
      {
        HandleAm(am[i], active, en, done, classOf);
        done := done + [am[i]];
      }
      assert done == am;
    }
  }

  // ---- Written, a batch at a time ----

  // The last station with a call sign is the one kept.
  function Upserted(rows: map<string, Station>, stations: seq<Station>): map<string, Station> {
    if stations == [] then rows
    else
      var last := stations[|stations| - 1];
      Upserted(rows, stations[..|stations| - 1])[last.callsign := last]
  }

  lemma {:induction false} UpsertedMore(rows: map<string, Station>, a: seq<Station>, b: seq<Station>)
    ensures Upserted(rows, a + b) == Upserted(Upserted(rows, a), b)
    decreases |b|
  {
    if b == [] {
      assert a + b == a;
    } else {
      assert (a + b)[..|a + b| - 1] == a + b[..|b| - 1];
      UpsertedMore(rows, a, b[..|b| - 1]);
    }
  }

  // What was there before shows only where no station is.
  lemma {:induction false} OnlyTheNew(rows: map<string, Station>, stations: seq<Station>, callsign: string)
    requires exists k :: 0 <= k < |stations| && stations[k].callsign == callsign
    ensures callsign in Upserted(rows, stations) && callsign in Upserted(map[], stations)
    ensures Upserted(rows, stations)[callsign] == Upserted(map[], stations)[callsign]
    decreases |stations|
  {
    var before, last := stations[..|stations| - 1], stations[|stations| - 1];
    if last.callsign != callsign {
      var k :| 0 <= k < |stations| && stations[k].callsign == callsign;
      assert before[k].callsign == callsign;
      OnlyTheNew(rows, before, callsign);
    }
  }

  class LicenseTable {
    var rows: map<string, Station>

    method BulkUpsert(stations: seq<Station>)
      modifies `rows
      ensures rows == Upserted(old(rows), stations)
    {
      for i := 0 to |stations|
        invariant rows == Upserted(old(rows), stations[..i])
      {
        assert stations[..i + 1][..i] == stations[..i];
        rows := rows[stations[i].callsign := stations[i]];
      }
      assert stations[..|stations|] == stations;
    }

    method DeleteNotIn(callsigns: seq<string>)
      modifies `rows
      ensures rows == map c | c in old(rows) && c in callsigns :: old(rows)[c]
    {
      rows := map c | c in rows && c in callsigns :: rows[c];
    }
  }

  // The stations of all the records.
  function StationsOf(records: seq<Record>, text: string): (stations: seq<Station>)
    requires forall k :: 0 <= k < |records| ==> AllIn(records[k], text)
    ensures |stations| == |records|
  {
    seq(|records|, k requires 0 <= k < |records| => StationOf(records[k], text))
  }

  // All stations joined, in the file's order.
  function AllJoined(active: seq<Line>, en: seq<Line>, am: seq<Line>, classOf: string -> string): seq<Station> {
    seq(|active|, k requires 0 <= k < |active| => Joined(active, k, en, am, classOf))
  }

  // How many stations the first batches hold.
  function Through(batches: nat, total: nat): (n: nat)
    ensures n <= total
  {
    if batches * BATCH < total then batches * BATCH else total
  }

  // All the stations, in order and each once, however the batches fall; then
  // those no longer in the file go. It may be stopped after any batch; then the
  // stations of the batches written are there, and all others as they were.
  method WriteBatches(licenses: UlsLicenses, table: LicenseTable) returns (whole: bool, ghost batches: nat)
    requires Held(licenses.records, licenses.text)
    modifies table`rows
    ensures !whole ==>
              var all := StationsOf(licenses.records, licenses.text);
              table.rows == Upserted(old(table.rows), all[..Through(batches, |all|)])
    ensures whole ==> table.rows == Upserted(map[], StationsOf(licenses.records, licenses.text))
  {
    ghost var all := StationsOf(licenses.records, licenses.text);
    var total := |licenses.records|;
    var start, end := 0, 0;
    batches := 0;
    while start < total
      invariant start == batches * BATCH && end == Through(batches, total)
      invariant table.rows == Upserted(old(table.rows), all[..end])
    {
      end := if start + BATCH < total then start + BATCH else total;
      WriteBatch(licenses, table, start, end, old(table.rows));
      start, batches := start + BATCH, batches + 1;
      var stopped: bool := *;
      if stopped {
        return false, batches;
      }
    }
    assert all[..total] == all;
    DeleteOthers(licenses, table, old(table.rows));
    whole := true;
  }

  method WriteBatch(licenses: UlsLicenses, table: LicenseTable, start: nat, end: nat, ghost rows: map<string, Station>)
    requires Held(licenses.records, licenses.text) && start <= end <= |licenses.records|
    requires table.rows == Upserted(rows, StationsOf(licenses.records, licenses.text)[..start])
    modifies table`rows
    ensures table.rows == Upserted(rows, StationsOf(licenses.records, licenses.text)[..end])
  {
    ghost var all := StationsOf(licenses.records, licenses.text);
    var batch := StationsOf(licenses.records[start..end], licenses.text);
    assert batch == all[start..end];
    assert all[..start] + batch == all[..end];
    UpsertedMore(rows, all[..start], batch);
    table.BulkUpsert(batch);
  }

  method DeleteOthers(licenses: UlsLicenses, table: LicenseTable, ghost rows: map<string, Station>)
    requires Held(licenses.records, licenses.text) && table.rows == Upserted(rows, StationsOf(licenses.records, licenses.text))
    modifies table`rows
    ensures table.rows == Upserted(map[], StationsOf(licenses.records, licenses.text))
  {
    ghost var all := StationsOf(licenses.records, licenses.text);
    var callsigns: seq<string> := [];
    for k := 0 to |licenses.records|
      invariant |callsigns| == k && forall j :: 0 <= j < k ==> callsigns[j] == all[j].callsign
    {
      callsigns := callsigns + [Read(licenses.records[k].callsign, licenses.text)];
    }
    table.DeleteNotIn(callsigns);
    OldRowsGo(rows, all, callsigns);
  }

  lemma OldRowsGo(rows: map<string, Station>, stations: seq<Station>, callsigns: seq<string>)
    requires |callsigns| == |stations| && forall k :: 0 <= k < |stations| ==> callsigns[k] == stations[k].callsign
    ensures (map c | c in Upserted(rows, stations) && c in callsigns :: Upserted(rows, stations)[c]) == Upserted(map[], stations)
  {
    forall c | c in callsigns
      ensures c in Upserted(rows, stations) && c in Upserted(map[], stations)
      ensures Upserted(rows, stations)[c] == Upserted(map[], stations)[c]
    {
      var k :| 0 <= k < |callsigns| && callsigns[k] == c;
      assert stations[k].callsign == c;
      OnlyTheNew(rows, stations, c);
    }
    OnlyTheirs(stations, callsigns);
  }

  lemma {:induction false} OnlyTheirs(stations: seq<Station>, callsigns: seq<string>)
    requires forall k :: 0 <= k < |stations| ==> stations[k].callsign in callsigns
    ensures forall c :: c in Upserted(map[], stations) ==> c in callsigns
  {
    if stations != [] {
      OnlyTheirs(stations[..|stations| - 1], callsigns);
    }
  }

  // After an import that goes through, the table holds the join of the three
  // files and nothing else; after one that is stopped, some whole batches of it,
  // and what is not among them as it was; provided the text fits the offsets.
  method ParseAndImport(hd: seq<Line>, en: seq<Line>, am: seq<Line>, hasClasses: bool, classOf: string -> string, table: LicenseTable)
    returns (ok: bool, ghost batches: nat)
    modifies table`rows
    ensures ok ==> Active(hd) != []
    ensures ok && HdSize(Active(hd)) + EnSize(Active(hd), en) <= MAX_OFFSET ==>
              table.rows == Upserted(map[], AllJoined(Active(hd), en, if hasClasses then am else [], classOf))
    ensures !ok && HdSize(Active(hd)) + EnSize(Active(hd), en) <= MAX_OFFSET ==>
              var all := AllJoined(Active(hd), en, if hasClasses then am else [], classOf);
              table.rows == Upserted(old(table.rows), all[..Through(batches, |all|)])
    ensures Active(hd) == [] ==> table.rows == old(table.rows)
  {
    batches := 0;
    var stopped: bool := *;
    if stopped {
      return false, 0;
    }
    var licenses := new UlsLicenses();
    licenses.ReadFiles(hd, en, am, hasClasses, classOf);
    if licenses.records == [] {
      return false, 0;
    }
    ok, batches := WriteBatches(licenses, table);
    if |licenses.text| <= MAX_OFFSET {
      assert StationsOf(licenses.records, licenses.text) == AllJoined(Active(hd), en, if hasClasses then am else [], classOf);
    }
  }
}
