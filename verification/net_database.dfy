// The database, as far as a merge is concerned. Each operation does what its
// declaration promises and no more is assumed of it. Sessions are listed in the
// one order the database lists them in.
module NetDatabase {
  import opened CheckInKeys
  import opened NetListing
  import opened NetMatching

  const DETAIL_COUNT: nat := 7

  // A station's details: name, address, city, county, state, ZIP and grid.
  type Details = d: seq<string> | |d| == DETAIL_COUNT witness ["", "", "", "", "", "", ""]

  const NO_DETAILS: Details := ["", "", "", "", "", "", ""]

  datatype Station = Station(callsign: string, details: Details)

  datatype SavedStation = SavedStation(station: Station, name: string, remarks: string, memberId: string)

  // What a file holds: its sessions, their check-ins by session, and the
  // stations, those saved to the net apart.
  datatype Slice = Slice(instances: seq<Instance>, checkIns: seq<CheckIn>, saved: seq<SavedStation>, others: seq<Station>)

  // A saved entry, by callsign and entry name.
  datatype Entry = Entry(callsign: string, name: string)

  datatype SavedRow = SavedRow(remarks: string, memberId: string)

  function EntryOf(s: SavedStation): Entry {
    Entry(Upper(s.station.callsign), Upper(s.name))
  }

  function CheckInsOf(checkIns: seq<CheckIn>, id: int): seq<CheckIn> {
    if checkIns == [] then []
    else CheckInsOf(checkIns[..|checkIns| - 1], id)
         + if checkIns[|checkIns| - 1].session == id then [checkIns[|checkIns| - 1]] else []
  }

  // The latest check-in, or 0 if all are earlier.
  function LastAt(checkIns: seq<CheckIn>): nat {
    if checkIns == [] then 0
    else
      var before := LastAt(checkIns[..|checkIns| - 1]);
      if checkIns[|checkIns| - 1].at > before then checkIns[|checkIns| - 1].at else before
  }

  function LoggedAs(i: Instance, checkIns: seq<CheckIn>): Logged {
    Logged(i, Sort(Keys(checkIns)), LastAt(checkIns))
  }

  // The file's sessions, each with its own check-ins.
  function FilesOf(s: Slice): (files: seq<Logged>)
    ensures |files| == |s.instances|
  {
    seq(|s.instances|, i requires 0 <= i < |s.instances| => LoggedAs(s.instances[i], CheckInsOf(s.checkIns, s.instances[i].id)))
  }

  // The sessions here, as listed.
  function HereOf(sessions: seq<Instance>, checkIns: map<int, seq<CheckIn>>): (here: seq<Logged>)
    ensures |here| == |sessions|
  {
    seq(|sessions|, k requires 0 <= k < |sessions| =>
      LoggedAs(sessions[k], if sessions[k].id in checkIns then checkIns[sessions[k].id] else []))
  }

  // ---- The database ----

  // The sessions of a net, as listed, and their check-ins.
  ghost predicate IsNet(sessions: seq<Instance>, checkIns: map<int, seq<CheckIn>>, lastId: int) {
    && DistinctIds(HereOf(sessions, checkIns)) && InOrder(sessions)
    && (forall k :: 0 <= k < |sessions| ==> sessions[k].id in checkIns && sessions[k].id <= lastId)
    && (forall id :: id in checkIns ==> id <= lastId && exists k :: 0 <= k < |sessions| && sessions[k].id == id)
  }

  // `sessions` and `checkIns` and `saved` are those of the net merged into;
  // stations are everyone's.
  class Database {
    var sessions: seq<Instance>
    var checkIns: map<int, seq<CheckIn>>
    var saved: map<Entry, SavedRow>
    var stations: map<string, Details>
    var usedElsewhere: set<string>
    var lastId: int

    ghost predicate Valid()
      reads `sessions, `checkIns, `lastId
    {
      IsNet(sessions, checkIns, lastId)
    }

    function Here(): seq<Logged>
      reads `sessions, `checkIns
    {
      HereOf(sessions, checkIns)
    }

    // A new session, listed where its date, its start and its id put it.
    method CreateNetInstance(i: Instance) returns (id: int, ghost at: nat)
      requires InOrder(sessions) && forall k :: 0 <= k < |sessions| ==> sessions[k].id <= lastId
      modifies `sessions, `checkIns, `lastId
      ensures id == old(lastId) + 1 == lastId
      ensures at <= |old(sessions)| && sessions == old(sessions)[..at] + [i.(id := id)] + old(sessions)[at..]
      ensures InOrder(sessions) && checkIns == old(checkIns)[id := []]
    {
      lastId := lastId + 1;
      id := lastId;
      ghost var place := PlaceFor(sessions, i.(id := id));
      var k :| 0 <= k <= |sessions| && InOrder(sessions[..k] + [i.(id := id)] + sessions[k..]);
      at := k;
      sessions := sessions[..k] + [i.(id := id)] + sessions[k..];
      checkIns := checkIns[id := []];
    }

    method AddCheckIn(c: CheckIn, id: int)
      requires id in checkIns
      modifies `checkIns
      ensures checkIns == old(checkIns)[id := old(checkIns)[id] + [c.(session := id, callsign := Upper(c.callsign))]]
    {
      checkIns := checkIns[id := checkIns[id] + [c.(session := id, callsign := Upper(c.callsign))]];
    }

    // 1, 2, 3 and so on, by the numbers they have.
    method RenumberCheckIns(id: int)
      requires id in checkIns
      modifies `checkIns
      ensures checkIns == old(checkIns)[id := Renumbered(old(checkIns)[id])]
    {
      checkIns := checkIns[id := Renumbered(checkIns[id])];
    }

    method DeleteNetInstance(id: int)
      modifies `sessions, `checkIns
      ensures sessions == Without(old(sessions), id)
      ensures checkIns == map k | k in old(checkIns) && k != id :: old(checkIns)[k]
    {
      sessions := Without(sessions, id);
      checkIns := map k | k in checkIns && k != id :: checkIns[k];
    }

    // Adds a station, or fills in only what is blank.
    method FillStationBlanks(s: Station)
      modifies `stations
      ensures var callsign := Upper(s.callsign);
              var known := if callsign in old(stations) then old(stations)[callsign] else NO_DETAILS;
              stations == old(stations)[callsign := Filled(known, s.details)]
    {
      var callsign := Upper(s.callsign);
      var known := if callsign in stations then stations[callsign] else NO_DETAILS;
      stations := stations[callsign := Filled(known, s.details)];
    }

    method AddNetSavedStationIfMissing(s: SavedStation) returns (added: bool)
      modifies `saved
      ensures added == (EntryOf(s) !in old(saved))
      ensures saved == if added then old(saved)[EntryOf(s) := SavedRow(s.remarks, s.memberId)] else old(saved)
    {
      added := EntryOf(s) !in saved;
      if added {
        saved := saved[EntryOf(s) := SavedRow(s.remarks, s.memberId)];
      }
    }

    // Whether some entry of the callsign has a member ID.
    method HasNetMemberId(callsign: string) returns (has: bool)
      ensures has <==> exists e :: e in saved && e.callsign == Upper(callsign) && saved[e].memberId != ""
    {
      has := exists e :: e in saved && e.callsign == Upper(callsign) && saved[e].memberId != "";
    }

    // On every entry of the callsign.
    method SetNetMemberId(callsign: string, memberId: string)
      modifies `saved
      ensures saved.Keys == old(saved).Keys
      ensures forall e :: e in saved ==>
                saved[e] == if e.callsign == Upper(callsign) then old(saved)[e].(memberId := memberId) else old(saved)[e]
    {
      saved := map e | e in saved :: if e.callsign == Upper(callsign) then saved[e].(memberId := memberId) else saved[e];
    }

    // Only a station that is there.
    method UpdateStationFields(callsign: string, details: Details)
      modifies `stations
      ensures stations == if callsign in old(stations) then old(stations)[callsign := details] else old(stations)
    {
      if callsign in stations {
        stations := stations[callsign := details];
      }
    }

    // Stations nothing refers to any more.
    method DeleteUnusedStations()
      modifies `stations
      ensures stations == map c | c in old(stations) && Used(c) :: old(stations)[c]
    {
      stations := map c | c in stations && Used(c) :: stations[c];
    }

    predicate Used(callsign: string)
      reads `usedElsewhere, `saved, `checkIns
    {
      || callsign in usedElsewhere
      || (exists e :: e in saved && e.callsign == callsign)
      || (exists id :: id in checkIns && exists k :: 0 <= k < |checkIns[id]| && Upper(checkIns[id][k].callsign) == callsign)
    }
  }

  // By number, and then as they were added.
  predicate Precedes(log: seq<CheckIn>, j: nat, k: nat)
    requires j < |log| && k < |log|
  {
    log[j].number < log[k].number || (log[j].number == log[k].number && j < k)
  }

  function Preceding(log: seq<CheckIn>, k: nat): set<nat>
    requires k < |log|
  {
    set j: nat | j < |log| && Precedes(log, j, k)
  }

  function Renumbered(log: seq<CheckIn>): (r: seq<CheckIn>)
    ensures |r| == |log|
  {
    seq(|log|, k requires 0 <= k < |log| => log[k].(number := |Preceding(log, k)| + 1))
  }

  function Without(sessions: seq<Instance>, id: int): seq<Instance> {
    if sessions == [] then []
    else if sessions[0].id == id then Without(sessions[1..], id)
    else [sessions[0]] + Without(sessions[1..], id)
  }

  function Filled(known: Details, more: Details): Details {
    seq(DETAIL_COUNT, k requires 0 <= k < DETAIL_COUNT => if known[k] == "" then more[k] else known[k])
  }

  // ---- What is kept ----

  // What no merge without a replacement changes.
  predicate StationsKept(before: map<string, Details>, after: map<string, Details>) {
    forall c :: c in before ==> c in after && Extends(before[c], after[c])
  }

  predicate Extends(before: Details, after: Details) {
    forall k :: 0 <= k < DETAIL_COUNT && before[k] != "" ==> after[k] == before[k]
  }

  predicate SavedKept(before: map<Entry, SavedRow>, after: map<Entry, SavedRow>) {
    forall e :: e in before ==>
      && e in after && after[e].remarks == before[e].remarks
      && (before[e].memberId != "" ==> after[e].memberId == before[e].memberId)
  }

  predicate CheckInsKept(before: map<int, seq<CheckIn>>, after: map<int, seq<CheckIn>>) {
    forall id :: id in before ==> id in after && after[id] == before[id]
  }
}
