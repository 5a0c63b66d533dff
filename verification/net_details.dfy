// Stations here whose details differ from the file's, and taking the file's
// where the operator chooses to.
module NetDetails {
  import opened CheckInKeys
  import opened NetDatabase

  // A field is one of a station's details or, after them, the member ID.
  const MEMBER_ID: nat := DETAIL_COUNT

  function Field(details: Details, memberId: string, k: nat): string
    requires k <= MEMBER_ID
  {
    if k < DETAIL_COUNT then details[k] else memberId
  }

  // A station of the file. One not saved to the net has no member ID.
  datatype Theirs = Theirs(station: Station, memberId: string)

  // The file's stations, saved and others, as they come.
  function TheirsOf(s: Slice): seq<Theirs> {
    seq(|s.saved|, i requires 0 <= i < |s.saved| => Theirs(s.saved[i].station, s.saved[i].memberId))
    + seq(|s.others|, i requires 0 <= i < |s.others| => Theirs(s.others[i], ""))
  }

  // Filled in on both sides, and not alike but for case.
  predicate Clash(here: string, file: string) {
    here != "" && file != "" && Upper(here) != Upper(file)
  }

  // The file's side of what differs.
  function Differences(details: Details, memberId: string, t: Theirs): map<nat, string> {
    map k: nat | k <= MEMBER_ID && Clash(Field(details, memberId, k), Field(t.station.details, t.memberId, k)) ::
      Field(t.station.details, t.memberId, k)
  }

  datatype Conflict = Conflict(callsign: string, fields: map<nat, string>, replace: bool)

  // The member ID shown for a call sign: one of its entries', blank only if all
  // of them are.
  predicate IdsAre(ids: map<string, string>, saved: map<Entry, SavedRow>) {
    && (forall e :: e in saved ==> e.callsign in ids && (ids[e.callsign] == "" ==> saved[e].memberId == ""))
    && (forall c :: c in ids ==> exists e :: e in saved && e.callsign == c && saved[e].memberId == ids[c])
  }

  method MemberIds(db: Database) returns (ids: map<string, string>)
    ensures IdsAre(ids, db.saved)
  {
    ids := map[];
    var left := db.saved.Keys;
    while left != {}
      invariant left <= db.saved.Keys
      invariant forall e :: e in db.saved && e !in left ==>
                  e.callsign in ids && (ids[e.callsign] == "" ==> db.saved[e].memberId == "")
      invariant forall c :: c in ids ==> exists e :: e in db.saved && e.callsign == c && db.saved[e].memberId == ids[c]
      decreases |left|
    {
      var e :| e in left;
      left := left - {e};
      if e.callsign !in ids || ids[e.callsign] == "" {
        ids := ids[e.callsign := db.saved[e].memberId];
      }
    }
  }

  function IdOf(ids: map<string, string>, callsign: string): string {
    if callsign in ids then ids[callsign] else ""
  }

  // One for each station also here that differs, the first of each call sign.
  function ConflictsOf(stations: map<string, Details>, ids: map<string, string>, theirs: seq<Theirs>): seq<Conflict> {
    if theirs == [] then []
    else
      var last := |theirs| - 1;
      var before, t := ConflictsOf(stations, ids, theirs[..last]), theirs[last];
      var callsign := Upper(t.station.callsign);
      if (last > 0 && Upper(theirs[last - 1].station.callsign) == callsign) || callsign !in stations then before
      else
        var fields := Differences(stations[callsign], IdOf(ids, callsign), t);
        if fields == map[] then before else before + [Conflict(t.station.callsign, fields, false)]
  }

  // `theirs` are the file's stations, sorted by call sign.
  method StationConflicts(db: Database, theirs: seq<Theirs>) returns (conflicts: seq<Conflict>, ghost ids: map<string, string>)
    ensures IdsAre(ids, db.saved) && conflicts == ConflictsOf(db.stations, ids, theirs)
  {
    var members := MemberIds(db);
    conflicts, ids := [], members;
    for i := 0 to |theirs|
      invariant conflicts == ConflictsOf(db.stations, members, theirs[..i])
    {
      assert theirs[..i + 1][..i] == theirs[..i];
      var callsign := Upper(theirs[i].station.callsign);
      if i > 0 && callsign == Upper(theirs[i - 1].station.callsign) {
        continue;
      }
      if callsign !in db.stations {
        continue;
      }
      var fields := Differences(db.stations[callsign], IdOf(members, callsign), theirs[i]);
      if fields != map[] {
        conflicts := conflicts + [Conflict(theirs[i].station.callsign, fields, false)];
      }
    }
    assert theirs[..|theirs|] == theirs;
  }

  predicate ByCallsign(theirs: seq<Theirs>) {
    forall i, j :: 0 <= i < j < |theirs| ==> AtMost(theirs[i].station.callsign, theirs[j].station.callsign)
  }

  predicate InCapitals(theirs: seq<Theirs>) {
    forall i :: 0 <= i < |theirs| ==> Upper(theirs[i].station.callsign) == theirs[i].station.callsign
  }

  // A station of the file and what differs from it here.
  predicate IsConflict(stations: map<string, Details>, ids: map<string, string>, t: Theirs, c: Conflict) {
    var callsign := Upper(t.station.callsign);
    && c.callsign == t.station.callsign && callsign in stations && !c.replace
    && c.fields == Differences(stations[callsign], IdOf(ids, callsign), t) != map[]
  }

  // Each conflict is of a station of the file.
  lemma {:induction false} ConflictIs(stations: map<string, Details>, ids: map<string, string>, theirs: seq<Theirs>, c: Conflict)
    returns (i: nat)
    requires c in ConflictsOf(stations, ids, theirs)
    ensures i < |theirs| && IsConflict(stations, ids, theirs[i], c)
  {
    var last := |theirs| - 1;
    if c in ConflictsOf(stations, ids, theirs[..last]) {
      i := ConflictIs(stations, ids, theirs[..last], c);
    } else {
      i := last;
    }
  }

  predicate OneEach(conflicts: seq<Conflict>) {
    forall i, j :: 0 <= i < j < |conflicts| ==> conflicts[i].callsign != conflicts[j].callsign
  }

  lemma OneMoreEach(before: seq<Conflict>, c: Conflict)
    requires OneEach(before) && forall i :: 0 <= i < |before| ==> before[i].callsign != c.callsign
    ensures OneEach(before + [c])
  {
  }

  // No call sign has two.
  lemma {:induction false} OneConflictEach(stations: map<string, Details>, ids: map<string, string>, theirs: seq<Theirs>)
    requires ByCallsign(theirs) && InCapitals(theirs)
    ensures OneEach(ConflictsOf(stations, ids, theirs))
  {
    if theirs != [] {
      var last := |theirs| - 1;
      OneConflictEach(stations, ids, theirs[..last]);
      var before := ConflictsOf(stations, ids, theirs[..last]);
      assert Upper(theirs[last].station.callsign) == theirs[last].station.callsign;
      var all := ConflictsOf(stations, ids, theirs);
      if all != before {
        forall i | 0 <= i < |before| ensures before[i].callsign != theirs[last].station.callsign {
          var k := ConflictIs(stations, ids, theirs[..last], before[i]);
          assert Upper(theirs[last - 1].station.callsign) == theirs[last - 1].station.callsign;
          NotLater(theirs, k);
        }
        assert all == before + [all[|before|]] && all[|before|].callsign == theirs[last].station.callsign;
        OneMoreEach(before, all[|before|]);
      }
    }
  }

  lemma NotLater(theirs: seq<Theirs>, k: nat)
    requires ByCallsign(theirs) && k < |theirs| - 1
    requires theirs[|theirs| - 2].station.callsign != theirs[|theirs| - 1].station.callsign
    ensures theirs[k].station.callsign != theirs[|theirs| - 1].station.callsign
  {
    var last := |theirs| - 1;
    if theirs[k].station.callsign == theirs[last].station.callsign {
      AtMostTotal(theirs[last - 1].station.callsign, theirs[last].station.callsign);
    }
  }

  // A station whose filled-in details are the file's in all but case has none.
  lemma NoConflictIff(stations: map<string, Details>, ids: map<string, string>, t: Theirs)
    requires Upper(t.station.callsign) in stations
    ensures ConflictsOf(stations, ids, [t]) == []
            <==> forall k: nat :: k <= MEMBER_ID ==>
                   !Clash(Field(stations[Upper(t.station.callsign)], IdOf(ids, Upper(t.station.callsign)), k),
                          Field(t.station.details, t.memberId, k))
  {
    var callsign := Upper(t.station.callsign);
    var fields := Differences(stations[callsign], IdOf(ids, callsign), t);
    assert [t][..0] == [];
    if fields == map[] {
      forall k: nat | k <= MEMBER_ID
        ensures !Clash(Field(stations[callsign], IdOf(ids, callsign), k), Field(t.station.details, t.memberId, k))
      {
        assert k !in fields;
      }
    }
  }

  // ---- Taking the file's ----

  // What the chosen conflicts of a call sign say, the last of each field.
  function Chosen(conflicts: seq<Conflict>, callsign: string): map<nat, string> {
    if conflicts == [] then map[]
    else
      var before, last := Chosen(conflicts[..|conflicts| - 1], callsign), conflicts[|conflicts| - 1];
      if IsChosen(last, callsign) then before + last.fields else before
  }

  predicate IsChosen(c: Conflict, callsign: string) {
    c.replace && Upper(c.callsign) == callsign
  }

  predicate AnyChosen(conflicts: seq<Conflict>, callsign: string) {
    exists c :: c in conflicts && IsChosen(c, callsign)
  }

  function TakenFields(details: Details, fields: map<nat, string>): Details {
    seq(DETAIL_COUNT, k requires 0 <= k < DETAIL_COUNT => if k in fields then fields[k] else details[k])
  }

  function TakenId(id: string, fields: map<nat, string>): string {
    if MEMBER_ID in fields then fields[MEMBER_ID] else id
  }

  // Every station's details after taking, and every entry: the member ID of a
  // station taken starts out blank.
  function StationsAfter(conflicts: seq<Conflict>, stations: map<string, Details>): map<string, Details> {
    map c | c in stations :: TakenFields(stations[c], Chosen(conflicts, c))
  }

  function RowAfter(conflicts: seq<Conflict>, stations: map<string, Details>, e: Entry, row: SavedRow): SavedRow {
    if AnyChosen(conflicts, e.callsign) && e.callsign in stations
    then row.(memberId := TakenId("", Chosen(conflicts, e.callsign))) else row
  }

  function SavedAfter(conflicts: seq<Conflict>, stations: map<string, Details>, saved: map<Entry, SavedRow>): map<Entry, SavedRow> {
    map e | e in saved :: RowAfter(conflicts, stations, e, saved[e])
  }

  // A station as it is read, its own member ID no longer in use, and changed.
  datatype Read = Read(details: Details, memberId: string)

  // What has been read, after the first conflicts.
  predicate ReadSoFar(conflicts: seq<Conflict>, stations: map<string, Details>, read: map<string, Read>) {
    forall c :: c in read ==>
      c in stations && read[c] == Read(TakenFields(stations[c], Chosen(conflicts, c)), TakenId("", Chosen(conflicts, c)))
  }

  lemma ChosenMore(conflicts: seq<Conflict>, next: Conflict, callsign: string)
    ensures Chosen(conflicts + [next], callsign)
         == if IsChosen(next, callsign) then Chosen(conflicts, callsign) + next.fields else Chosen(conflicts, callsign)
    ensures AnyChosen(conflicts + [next], callsign) <==> AnyChosen(conflicts, callsign) || IsChosen(next, callsign)
  {
    assert (conflicts + [next])[..|conflicts|] == conflicts;
    assert forall c :: c in conflicts + [next] <==> c in conflicts || c == next;
  }

  lemma UpperTwice(s: string)
    ensures Upper(Upper(s)) == Upper(s)
  {
    forall i | 0 <= i < |s| ensures UpperChar(UpperChar(s[i])) == UpperChar(s[i]) {
    }
  }

  // Only the details listed are taken, each station read once for all.
  method TakeDetails(db: Database, conflicts: seq<Conflict>) returns (replaced: nat)
    modifies db`stations, db`saved
    ensures db.stations == StationsAfter(conflicts, old(db.stations))
    ensures db.saved == SavedAfter(conflicts, old(db.stations), old(db.saved))
  {
    replaced := 0;
    var wanted := set c | c in conflicts && c.replace :: Upper(c.callsign);
    var read := map c | c in db.stations && c in wanted :: Read(db.stations[c], "");
    NothingTaken(db.stations, db.saved);
    for i := 0 to |conflicts|
      invariant read.Keys == set c | c in old(db.stations) && c in wanted
      invariant ReadSoFar(conflicts[..i], old(db.stations), read)
      invariant db.stations == StationsAfter(conflicts[..i], old(db.stations))
      invariant db.saved == SavedAfter(conflicts[..i], old(db.stations), old(db.saved))
    {
      assert conflicts[..i + 1] == conflicts[..i] + [conflicts[i]];
      var callsign := Upper(conflicts[i].callsign);
      if conflicts[i].replace && callsign in read {
        read := TakeOne(db, conflicts[..i], conflicts[i], read, old(db.stations), old(db.saved));
        replaced := replaced + 1;
      } else {
        PassedOver(conflicts[..i], conflicts[i], old(db.stations), old(db.saved), read);
      }
    }
    assert conflicts[..|conflicts|] == conflicts;
  }

  lemma NothingTaken(stations: map<string, Details>, saved: map<Entry, SavedRow>)
    ensures StationsAfter([], stations) == stations && SavedAfter([], stations, saved) == saved
  {
    forall c | c in stations ensures TakenFields(stations[c], Chosen([], c)) == stations[c] {
      TakenNone(stations[c]);
    }
  }

  lemma TakenNone(details: Details)
    ensures TakenFields(details, map[]) == details
  {
  }

  lemma TakenTwice(details: Details, id: string, a: map<nat, string>, b: map<nat, string>)
    ensures TakenFields(TakenFields(details, a), b) == TakenFields(details, a + b)
    ensures TakenId(TakenId(id, a), b) == TakenId(id, a + b)
  {
  }

  // One station more.
  lemma StationTaken(before: seq<Conflict>, next: Conflict, stations: map<string, Details>, callsign: string, details: Details)
    requires next.replace && Upper(next.callsign) == callsign && callsign in stations
    requires details == TakenFields(TakenFields(stations[callsign], Chosen(before, callsign)), next.fields)
    ensures StationsAfter(before + [next], stations) == StationsAfter(before, stations)[callsign := details]
  {
    TakenTwice(stations[callsign], "", Chosen(before, callsign), next.fields);
    forall c { ChosenMore(before, next, c); }
  }

  // And its entries.
  lemma EntriesTaken(before: seq<Conflict>, next: Conflict, stations: map<string, Details>, saved: map<Entry, SavedRow>,
                     after: map<Entry, SavedRow>, callsign: string, id: string)
    requires next.replace && Upper(next.callsign) == callsign && callsign in stations
    requires id == TakenId(TakenId("", Chosen(before, callsign)), next.fields) && after.Keys == saved.Keys
    requires forall e :: e in saved ==>
               var row := RowAfter(before, stations, e, saved[e]);
               after[e] == if e.callsign == callsign then row.(memberId := id) else row
    ensures after == SavedAfter(before + [next], stations, saved)
  {
    TakenTwice(stations[callsign], "", Chosen(before, callsign), next.fields);
    forall e | e in saved ensures after[e] == RowAfter(before + [next], stations, e, saved[e]) {
      ChosenMore(before, next, e.callsign);
    }
  }

  lemma MoreRead(before: seq<Conflict>, next: Conflict, stations: map<string, Details>, read: map<string, Read>, callsign: string)
    requires ReadSoFar(before, stations, read) && next.replace && Upper(next.callsign) == callsign && callsign in read
    ensures var r := read[callsign];
            ReadSoFar(before + [next], stations,
                      read[callsign := Read(TakenFields(r.details, next.fields), TakenId(r.memberId, next.fields))])
  {
    TakenTwice(stations[callsign], "", Chosen(before, callsign), next.fields);
    forall c { ChosenMore(before, next, c); }
  }

  method TakeOne(db: Database, ghost before: seq<Conflict>, next: Conflict, read: map<string, Read>,
                 ghost stations: map<string, Details>, ghost saved: map<Entry, SavedRow>) returns (more: map<string, Read>)
    requires next.replace && Upper(next.callsign) in read && ReadSoFar(before, stations, read)
    requires db.stations == StationsAfter(before, stations) && db.saved == SavedAfter(before, stations, saved)
    modifies db`stations, db`saved
    ensures more.Keys == read.Keys && ReadSoFar(before + [next], stations, more)
    ensures db.stations == StationsAfter(before + [next], stations) && db.saved == SavedAfter(before + [next], stations, saved)
  {
    var callsign := Upper(next.callsign);
    var station := Read(TakenFields(read[callsign].details, next.fields), TakenId(read[callsign].memberId, next.fields));
    more := read[callsign := station];
    db.UpdateStationFields(callsign, station.details);
    db.SetNetMemberId(callsign, station.memberId);
    UpperTwice(next.callsign);
    MoreRead(before, next, stations, read, callsign);
    StationTaken(before, next, stations, callsign, station.details);
    EntriesTaken(before, next, stations, saved, db.saved, callsign, station.memberId);
  }

  lemma PassedOver(before: seq<Conflict>, next: Conflict, stations: map<string, Details>, saved: map<Entry, SavedRow>,
                   read: map<string, Read>)
    requires ReadSoFar(before, stations, read)
    requires !next.replace || Upper(next.callsign) !in stations
    ensures StationsAfter(before + [next], stations) == StationsAfter(before, stations)
    ensures SavedAfter(before + [next], stations, saved) == SavedAfter(before, stations, saved)
    ensures ReadSoFar(before + [next], stations, read)
  {
    forall c { ChosenMore(before, next, c); }
  }

  // Taken once, a station has no more conflicts.
  lemma TakenLeavesNone(details: Details, id: string, t: Theirs)
    ensures var fields := Differences(details, id, t);
            Differences(TakenFields(details, fields), TakenId("", fields), t) == map[]
  {
    var fields := Differences(details, id, t);
    var taken, newId := TakenFields(details, fields), TakenId("", fields);
    forall k: nat | k <= MEMBER_ID
      ensures !Clash(Field(taken, newId, k), Field(t.station.details, t.memberId, k))
    {
      assert k in fields <==> Clash(Field(details, id, k), Field(t.station.details, t.memberId, k));
    }
  }

  predicate NoneHasId(saved: map<Entry, SavedRow>, callsign: string) {
    forall e :: e in saved && e.callsign == callsign ==> saved[e].memberId == ""
  }

  // What is not listed stays exactly if the member ID is listed, or the net has
  // none for the call sign.
  lemma OnlyListedIff(conflicts: seq<Conflict>, stations: map<string, Details>, saved: map<Entry, SavedRow>, callsign: string)
    requires AnyChosen(conflicts, callsign) && callsign in stations
    ensures (MEMBER_ID in Chosen(conflicts, callsign)
             || forall e :: e in saved && e.callsign == callsign ==> SavedAfter(conflicts, stations, saved)[e] == saved[e])
            <==> MEMBER_ID in Chosen(conflicts, callsign) || NoneHasId(saved, callsign)
    ensures forall k :: 0 <= k < DETAIL_COUNT && k !in Chosen(conflicts, callsign) ==>
              StationsAfter(conflicts, stations)[callsign][k] == stations[callsign][k]
  {
    var after := SavedAfter(conflicts, stations, saved);
    if MEMBER_ID !in Chosen(conflicts, callsign) && !NoneHasId(saved, callsign) {
      var e :| e in saved && e.callsign == callsign && saved[e].memberId != "";
      assert after[e].memberId == "";
    }
  }

  // So taking any detail of a station costs it its member ID on the net, when
  // the file has none for it or has it alike.
  lemma TakingLosesId(stations: map<string, Details>, saved: map<Entry, SavedRow>, t: Theirs, c: Conflict, id: string, e: Entry)
    requires c.replace && Upper(c.callsign) == e.callsign && e in saved && e.callsign in stations
    requires c.fields == Differences(stations[e.callsign], id, t) && !Clash(id, t.memberId)
    ensures SavedAfter([c], stations, saved)[e].memberId == ""
  {
    assert [c][..0] == [];
    assert c in [c] && Chosen([], e.callsign) == map[];
    assert Chosen([c], e.callsign) == map[] + c.fields;
    assert MEMBER_ID !in c.fields;
  }
}
