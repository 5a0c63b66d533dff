// A whole net, gathered from one database and applied to another: all of it
// arrives, each check-in with its own session, and nothing else there changes.
module NetSlices {
  import opened CheckInKeys
  import opened NetDatabase
  import opened NetMatching
  import opened Sets

  datatype Net = Net(name: string, gmrs: bool, location: string, frequency: string, mode: string, comments: string, importedAt: int)

  datatype NetSlice = NetSlice(net: Net, rows: Slice)

  // A database's rows: nets, and by session whose it is, itself and its
  // check-ins; what is saved, by net; and the stations, which all nets share.
  datatype Rows = Rows(
    nets: map<int, Net>, owner: map<int, int>, sessions: map<int, Instance>, log: map<int, seq<CheckIn>>,
    saved: map<int, map<Entry, SavedRow>>, stations: map<string, Details>)

  const EMPTY: Rows := Rows(map[], map[], map[], map[], map[], map[])

  predicate Sound(r: Rows) {
    SoundSessions(r) && SoundStations(r)
  }

  predicate SoundSessions(r: Rows) {
    && r.sessions.Keys == r.owner.Keys == r.log.Keys
    && (forall i :: i in r.owner ==> r.owner[i] in r.nets && r.sessions[i].id == i)
    && (forall i, k :: i in r.log && 0 <= k < |r.log[i]| ==> r.log[i][k].session == i)
  }

  predicate SoundStations(r: Rows) {
    && r.saved.Keys == r.nets.Keys
    && (forall n, e :: n in r.saved && e in r.saved[n] ==> IsUpper(e.callsign) && IsUpper(e.name) && e.callsign in r.stations)
    && (forall c :: c in r.stations ==> IsUpper(c))
  }

  predicate IsUpper(s: string) {
    Upper(s) == s
  }

  lemma UpperIsUpper(s: string)
    ensures IsUpper(Upper(s))
  {
  }

  // ---- What gathering a net gives ----

  predicate DistinctInstances(instances: seq<Instance>) {
    forall i, j :: 0 <= i < j < |instances| ==> instances[i].id != instances[j].id
  }

  // All its sessions and their check-ins, as they are.
  ghost predicate HoldsSessions(s: Slice, r: Rows, net: int) {
    && r.owner.Keys == r.sessions.Keys == r.log.Keys
    && DistinctInstances(s.instances)
    && (forall k :: 0 <= k < |s.instances| ==>
          var i := s.instances[k].id; i in r.owner && r.owner[i] == net && r.sessions[i] == s.instances[k])
    && (forall i :: i in r.owner && r.owner[i] == net ==> exists k :: 0 <= k < |s.instances| && s.instances[k].id == i)
    && (forall i :: i in r.owner && r.owner[i] == net ==> CheckInsOf(s.checkIns, i) == r.log[i])
    && (forall c :: c in s.checkIns ==> c.session in r.owner && r.owner[c.session] == net)
  }

  // All that is saved to it.
  ghost predicate HoldsSaved(saved: seq<SavedStation>, r: Rows, net: int) {
    && net in r.saved
    && (forall k :: 0 <= k < |saved| ==>
          && EntryOf(saved[k]) in r.saved[net] && r.saved[net][EntryOf(saved[k])] == SavedRow(saved[k].remarks, saved[k].memberId)
          && Upper(saved[k].station.callsign) in r.stations
          && saved[k].station.details == r.stations[Upper(saved[k].station.callsign)])
    && (forall e :: e in r.saved[net] ==> exists k :: 0 <= k < |saved| && EntryOf(saved[k]) == e)
  }

  // And who else checked in, as far as known.
  ghost predicate HoldsOthers(s: Slice, r: Rows) {
    && (forall k :: 0 <= k < |s.others| ==>
          && Upper(s.others[k].callsign) in r.stations && s.others[k].details == r.stations[Upper(s.others[k].callsign)]
          && CheckedIn(s.checkIns, Upper(s.others[k].callsign)))
    && (forall c :: c in s.checkIns && Upper(c.callsign) in r.stations ==> IsListed(s, Upper(c.callsign)))
  }

  predicate CheckedIn(checkIns: seq<CheckIn>, callsign: string) {
    exists k :: 0 <= k < |checkIns| && Upper(checkIns[k].callsign) == callsign
  }

  predicate IsListed(s: Slice, callsign: string) {
    Names(StationsOf(s.saved), callsign) || Names(s.others, callsign)
  }

  ghost predicate Gathered(s: NetSlice, r: Rows, net: int) {
    && net in r.nets && s.net == r.nets[net]
    && HoldsSessions(s.rows, r, net) && HoldsSaved(s.rows.saved, r, net) && HoldsOthers(s.rows, r)
  }

  // ---- What applying one does ----

  // A check-in as it is stored, its call sign in capitals.
  function InSession(c: CheckIn, id: int): CheckIn {
    c.(session := id, callsign := Upper(c.callsign))
  }

  function Moved(log: seq<CheckIn>, id: int): (moved: seq<CheckIn>)
    ensures |moved| == |log| && forall k :: 0 <= k < |log| ==> moved[k] == InSession(log[k], id)
  {
    seq(|log|, k requires 0 <= k < |log| => InSession(log[k], id))
  }

  // What a database knows of a station, with what more is said.
  function Told(known: Details, more: Details): Details {
    seq(DETAIL_COUNT, k requires 0 <= k < DETAIL_COUNT => if more[k] == "" then known[k] else more[k])
  }

  function KnownOf(stations: map<string, Details>, callsign: string): Details {
    if callsign in stations then stations[callsign] else NO_DETAILS
  }

  function Recorded(stations: map<string, Details>, s: Station): map<string, Details> {
    stations[Upper(s.callsign) := Told(KnownOf(stations, Upper(s.callsign)), s.details)]
  }

  function AllRecorded(stations: map<string, Details>, list: seq<Station>): map<string, Details> {
    if list == [] then stations else Recorded(AllRecorded(stations, list[..|list| - 1]), list[|list| - 1])
  }

  function StationsOf(saved: seq<SavedStation>): (list: seq<Station>)
    ensures |list| == |saved| && forall k :: 0 <= k < |saved| ==> list[k] == saved[k].station
  {
    seq(|saved|, k requires 0 <= k < |saved| => saved[k].station)
  }

  function SavedAs(saved: seq<SavedStation>): map<Entry, SavedRow> {
    if saved == [] then map[]
    else
      var last := saved[|saved| - 1];
      SavedAs(saved[..|saved| - 1])[EntryOf(last) := SavedRow(last.remarks, last.memberId)]
  }

  // Where each session of a slice went.
  predicate Renames(f: map<int, int>, instances: seq<Instance>) {
    && (forall k :: 0 <= k < |instances| ==> instances[k].id in f)
    && (forall i :: i in f ==> exists k :: 0 <= k < |instances| && instances[k].id == i)
    && (forall i, j :: i in f && j in f && i != j ==> f[i] != f[j])
  }

  predicate IsNew(f: map<int, int>, id: int) {
    exists i :: i in f && f[i] == id
  }

  // A new net with everything in the slice; and all that was there stays.
  ghost predicate Applied(s: NetSlice, before: Rows, after: Rows, net: int, f: map<int, int>, normal: Net -> Net, importedAt: int) {
    && net !in before.nets && after.nets == before.nets[net := normal(s.net.(importedAt := importedAt))]
    && after.saved == before.saved[net := SavedAs(s.rows.saved)]
    && after.stations == AllRecorded(AllRecorded(before.stations, StationsOf(s.rows.saved)), s.rows.others)
    && Renames(f, s.rows.instances)
    && (forall i :: i in f ==> f[i] !in before.owner)
    && (forall i :: i in after.owner <==> i in before.owner || IsNew(f, i))
    && after.sessions.Keys == after.owner.Keys && after.log.Keys == after.owner.Keys
    && (forall i :: i in before.owner ==>
          after.owner[i] == before.owner[i] && i in before.sessions && after.sessions[i] == before.sessions[i]
          && i in before.log && after.log[i] == before.log[i])
    && Landed(s.rows, after, net, f)
  }

  // Each session is there under its new id, with its check-ins.
  ghost predicate Landed(s: Slice, r: Rows, net: int, f: map<int, int>)
    requires Renames(f, s.instances) && r.owner.Keys == r.sessions.Keys == r.log.Keys
  {
    forall k :: 0 <= k < |s.instances| ==>
      var i := s.instances[k].id;
      && f[i] in r.owner && r.owner[f[i]] == net && r.sessions[f[i]] == s.instances[k].(id := f[i])
      && r.log[f[i]] == Moved(CheckInsOf(s.checkIns, i), f[i])
  }

  // ---- There and back ----

  // What a slice tells of a station.
  predicate Tells(s: Slice, callsign: string, details: Details) {
    || (exists k :: 0 <= k < |s.saved| && Upper(s.saved[k].station.callsign) == callsign && s.saved[k].station.details == details)
    || (exists k :: 0 <= k < |s.others| && Upper(s.others[k].callsign) == callsign && s.others[k].details == details)
  }

  predicate HasSession(instances: seq<Instance>, i: Instance) {
    exists k :: 0 <= k < |instances| && instances[k] == i
  }

  predicate HasEntry(saved: seq<SavedStation>, e: Entry, row: SavedRow) {
    exists k :: 0 <= k < |saved| && EntryOf(saved[k]) == e && SavedRow(saved[k].remarks, saved[k].memberId) == row
  }

  // The same net with its sessions renamed.
  ghost predicate SameSlice(s: NetSlice, t: NetSlice, f: map<int, int>, normal: Net -> Net) {
    && t.net == normal(s.net)
    && Renames(f, s.rows.instances)
    && (forall i :: i in s.rows.instances ==> HasSession(t.rows.instances, i.(id := f[i.id])))
    && (forall j :: j in t.rows.instances ==> exists i :: i in s.rows.instances && j == i.(id := f[i.id]))
    && (forall i :: i in f ==> CheckInsOf(t.rows.checkIns, f[i]) == Moved(CheckInsOf(s.rows.checkIns, i), f[i]))
    && (forall c :: c in t.rows.checkIns ==> IsNew(f, c.session))
    && (forall e, row :: HasEntry(s.rows.saved, e, row) <==> HasEntry(t.rows.saved, e, row))
    && (forall c, d :: Tells(s.rows, c, d) <==> Tells(t.rows, c, d))
  }

  // Told of a station only what is known of it, or nothing, a database knows
  // that.
  lemma ToldTheSame(d: Details)
    ensures Told(NO_DETAILS, d) == d && Told(d, d) == d
  {
  }

  predicate Names(list: seq<Station>, callsign: string) {
    exists k :: 0 <= k < |list| && Upper(list[k].callsign) == callsign
  }

  lemma NamesMore(list: seq<Station>, s: Station, callsign: string)
    ensures Names(list + [s], callsign) <==> Names(list, callsign) || Upper(s.callsign) == callsign
  {
    var more := list + [s];
    assert more[|list|] == s;
    assert forall k :: 0 <= k < |list| ==> more[k] == list[k];
  }

  // A list that agrees with what is known of each station.
  predicate Agrees(list: seq<Station>, known: map<string, Details>) {
    forall k :: 0 <= k < |list| ==> Upper(list[k].callsign) in known && list[k].details == known[Upper(list[k].callsign)]
  }

  lemma {:induction false} AgreedIsRecorded(stations: map<string, Details>, list: seq<Station>, known: map<string, Details>)
    requires Agrees(list, known)
    requires forall c :: c in stations ==> c in known && stations[c] == known[c]
    ensures
      var r := AllRecorded(stations, list);
      && (forall c :: c in r ==> c in known && r[c] == known[c])
      && (forall c :: c in r <==> c in stations || Names(list, c))
  {
    if list != [] {
      var before, last := list[..|list| - 1], list[|list| - 1];
      AgreedIsRecorded(stations, before, known);
      ToldTheSame(last.details);
      assert list == before + [last];
      forall c
        ensures Names(list, c) <==> Names(before, c) || Upper(last.callsign) == c
      {
        NamesMore(before, last, c);
      }
    }
  }

  lemma {:induction false} SavedAsHolds(saved: seq<SavedStation>, rows: map<Entry, SavedRow>)
    requires forall k :: 0 <= k < |saved| ==>
               EntryOf(saved[k]) in rows && rows[EntryOf(saved[k])] == SavedRow(saved[k].remarks, saved[k].memberId)
    ensures forall e :: e in SavedAs(saved) ==> e in rows && SavedAs(saved)[e] == rows[e] && HasEntry(saved, e, rows[e])
    ensures forall k :: 0 <= k < |saved| ==> EntryOf(saved[k]) in SavedAs(saved)
  {
    if saved != [] {
      var before, last := saved[..|saved| - 1], saved[|saved| - 1];
      SavedAsHolds(before, rows);
      forall e | e in SavedAs(saved)
        ensures HasEntry(saved, e, rows[e])
      {
        if e == EntryOf(last) {
          assert saved[|saved| - 1] == last;
        } else {
          assert HasEntry(before, e, rows[e]);
          var k :| 0 <= k < |before| && EntryOf(before[k]) == e && SavedRow(before[k].remarks, before[k].memberId) == rows[e];
          assert saved[k] == before[k];
        }
      }
    }
  }

  // The entries saved are those of the net, whichever slice holds them.
  lemma EntriesAre(saved: seq<SavedStation>, r: Rows, net: int)
    requires HoldsSaved(saved, r, net)
    ensures forall e, row :: HasEntry(saved, e, row) <==> e in r.saved[net] && r.saved[net][e] == row
  {
  }

  lemma EntriesComeBack(s: seq<SavedStation>, a: Rows, net: int, t: seq<SavedStation>, b: Rows, newNet: int)
    requires HoldsSaved(s, a, net) && HoldsSaved(t, b, newNet) && b.saved[newNet] == SavedAs(s)
    ensures forall e, row :: HasEntry(s, e, row) <==> HasEntry(t, e, row)
  {
    EntriesAre(s, a, net);
    EntriesAre(t, b, newNet);
    SavedAsHolds(s, a.saved[net]);
    forall e | e in a.saved[net]
      ensures e in b.saved[newNet] && b.saved[newNet][e] == a.saved[net][e]
    {
      var k :| 0 <= k < |s| && EntryOf(s[k]) == e;
    }
  }

  lemma {:induction false} InItsLog(checkIns: seq<CheckIn>, c: CheckIn, id: int)
    ensures c in CheckInsOf(checkIns, id) <==> c in checkIns && c.session == id
  {
    if checkIns != [] {
      InItsLog(checkIns[..|checkIns| - 1], c, id);
      assert checkIns == checkIns[..|checkIns| - 1] + [checkIns[|checkIns| - 1]];
    }
  }

  lemma SessionsArrive(s: Slice, t: Slice, b: Rows, net: int, f: map<int, int>, i: Instance)
    requires HoldsSessions(t, b, net) && Renames(f, s.instances) && Landed(s, b, net, f) && i in s.instances
    ensures HasSession(t.instances, i.(id := f[i.id]))
  {
    var k :| 0 <= k < |s.instances| && s.instances[k] == i;
    var j :| 0 <= j < |t.instances| && t.instances[j].id == f[i.id];
    assert t.instances[j] == b.sessions[f[i.id]];
  }

  lemma NoneIsMadeUp(s: Slice, t: Slice, b: Rows, net: int, f: map<int, int>, j: Instance) returns (i: Instance)
    requires HoldsSessions(t, b, net) && Renames(f, s.instances) && Landed(s, b, net, f) && j in t.instances
    requires forall i :: i in b.owner ==> IsNew(f, i)
    ensures i in s.instances && i.id in f && j == i.(id := f[i.id])
  {
    var m :| 0 <= m < |t.instances| && t.instances[m] == j;
    assert IsNew(f, j.id);
    var id :| id in f && f[id] == j.id;
    var k :| 0 <= k < |s.instances| && s.instances[k].id == id;
    i := s.instances[k];
  }

  lemma LogsArrive(s: Slice, t: Slice, b: Rows, net: int, f: map<int, int>, i: int)
    requires HoldsSessions(t, b, net) && Renames(f, s.instances) && Landed(s, b, net, f) && i in f
    ensures CheckInsOf(t.checkIns, f[i]) == Moved(CheckInsOf(s.checkIns, i), f[i])
  {
    var k :| 0 <= k < |s.instances| && s.instances[k].id == i;
  }

  lemma SessionsComeBack(s: Slice, t: Slice, b: Rows, net: int, f: map<int, int>)
    requires HoldsSessions(t, b, net) && Renames(f, s.instances) && Landed(s, b, net, f)
    requires forall i :: i in b.owner ==> IsNew(f, i)
    ensures forall i :: i in s.instances ==> HasSession(t.instances, i.(id := f[i.id]))
    ensures forall j :: j in t.instances ==> exists i :: i in s.instances && j == i.(id := f[i.id])
    ensures forall i :: i in f ==> CheckInsOf(t.checkIns, f[i]) == Moved(CheckInsOf(s.checkIns, i), f[i])
    ensures forall c :: c in t.checkIns ==> IsNew(f, c.session)
  {
    forall i | i in s.instances
      ensures HasSession(t.instances, i.(id := f[i.id]))
    {
      SessionsArrive(s, t, b, net, f, i);
    }
    forall j | j in t.instances
      ensures exists i :: i in s.instances && j == i.(id := f[i.id])
    {
      var i := NoneIsMadeUp(s, t, b, net, f, j);
    }
    forall i | i in f
      ensures CheckInsOf(t.checkIns, f[i]) == Moved(CheckInsOf(s.checkIns, i), f[i])
    {
      LogsArrive(s, t, b, net, f, i);
    }
  }

  lemma {:induction false} ListedComesBack(s: Slice, a: Rows, net: int, t: Slice, b: Rows, newNet: int, f: map<int, int>, callsign: string)
    requires HoldsSessions(s, a, net) && HoldsOthers(s, a) && HoldsOthers(t, b) && Renames(f, s.instances)
    requires forall i :: i in f ==> CheckInsOf(t.checkIns, f[i]) == Moved(CheckInsOf(s.checkIns, i), f[i])
    requires forall e, row :: HasEntry(s.saved, e, row) <==> HasEntry(t.saved, e, row)
    requires callsign in b.stations && IsListed(s, callsign)
    ensures IsListed(t, callsign)
  {
    if k :| 0 <= k < |s.saved| && Upper(StationsOf(s.saved)[k].callsign) == callsign {
      var e, row := EntryOf(s.saved[k]), SavedRow(s.saved[k].remarks, s.saved[k].memberId);
      assert HasEntry(s.saved, e, row);
      assert HasEntry(t.saved, e, row);
      var j :| 0 <= j < |t.saved| && EntryOf(t.saved[j]) == e;
      assert Upper(StationsOf(t.saved)[j].callsign) == callsign;
    } else {
      var k :| 0 <= k < |s.others| && Upper(s.others[k].callsign) == callsign;
      var m :| 0 <= m < |s.checkIns| && Upper(s.checkIns[m].callsign) == callsign;
      CheckedInComesBack(s, a, net, t, b, f, s.checkIns[m]);
    }
  }

  lemma CheckedInComesBack(s: Slice, a: Rows, net: int, t: Slice, b: Rows, f: map<int, int>, c: CheckIn)
    requires HoldsSessions(s, a, net) && HoldsOthers(t, b) && Renames(f, s.instances) && c in s.checkIns
    requires forall i :: i in f ==> CheckInsOf(t.checkIns, f[i]) == Moved(CheckInsOf(s.checkIns, i), f[i])
    requires Upper(c.callsign) in b.stations
    ensures IsListed(t, Upper(c.callsign))
  {
    var q :| 0 <= q < |s.instances| && s.instances[q].id == c.session;
    MovedIsThere(s.checkIns, t.checkIns, c, f);
    var moved := InSession(c, f[c.session]);
    UpperIsUpper(c.callsign);
    assert moved in t.checkIns && Upper(moved.callsign) == Upper(c.callsign);
  }

  // A check-in that came along, under its session's new id.
  lemma MovedIsThere(from: seq<CheckIn>, to: seq<CheckIn>, c: CheckIn, f: map<int, int>)
    requires c in from && c.session in f
    requires CheckInsOf(to, f[c.session]) == Moved(CheckInsOf(from, c.session), f[c.session])
    ensures InSession(c, f[c.session]) in to
  {
    InItsLog(from, c, c.session);
    var log := CheckInsOf(from, c.session);
    var k :| 0 <= k < |log| && log[k] == c;
    var moved := InSession(c, f[c.session]);
    assert Moved(log, f[c.session])[k] == moved;
    InItsLog(to, moved, f[c.session]);
  }

  lemma TellsWhatIsKnown(s: Slice, r: Rows, net: int, callsign: string, details: Details)
    requires HoldsSaved(s.saved, r, net) && HoldsOthers(s, r)
    ensures Tells(s, callsign, details) <==> IsListed(s, callsign) && callsign in r.stations && r.stations[callsign] == details
  {
  }

  // Applied to nothing, a slice makes known what it tells of stations, and no
  // more.
  lemma StationsAre(s: Slice, a: Rows, net: int, stations: map<string, Details>)
    requires HoldsSaved(s.saved, a, net) && HoldsOthers(s, a)
    requires stations == AllRecorded(AllRecorded(map[], StationsOf(s.saved)), s.others)
    ensures forall c :: c in stations ==> c in a.stations && stations[c] == a.stations[c]
    ensures forall c :: c in stations <==> IsListed(s, c)
  {
    var first := AllRecorded(map[], StationsOf(s.saved));
    AgreedIsRecorded(map[], StationsOf(s.saved), a.stations);
    AgreedIsRecorded(first, s.others, a.stations);
  }

  lemma StationsComeBack(s: Slice, a: Rows, net: int, t: Slice, b: Rows, newNet: int, f: map<int, int>, c: string, d: Details)
    requires HoldsSessions(s, a, net) && HoldsSaved(s.saved, a, net) && HoldsOthers(s, a)
    requires HoldsSaved(t.saved, b, newNet) && HoldsOthers(t, b) && Renames(f, s.instances)
    requires c in b.stations ==> c in a.stations && b.stations[c] == a.stations[c]
    requires c in b.stations <==> IsListed(s, c)
    requires forall i :: i in f ==> CheckInsOf(t.checkIns, f[i]) == Moved(CheckInsOf(s.checkIns, i), f[i])
    requires forall e, row :: HasEntry(s.saved, e, row) <==> HasEntry(t.saved, e, row)
    ensures Tells(s, c, d) <==> Tells(t, c, d)
  {
    TellsWhatIsKnown(s, a, net, c, d);
    TellsWhatIsKnown(t, b, newNet, c, d);
    if c in b.stations {
      ListedComesBack(s, a, net, t, b, newNet, f, c);
    }
  }

  // A net gathered, applied to an empty database and gathered again is the same
  // net, but for the ids of its sessions; which is what a file of it is for.
  lemma SliceRoundTrip(s: NetSlice, a: Rows, net: int, b: Rows, newNet: int, f: map<int, int>, t: NetSlice, normal: Net -> Net)
    requires Gathered(s, a, net) && Applied(s, EMPTY, b, newNet, f, normal, s.net.importedAt) && Gathered(t, b, newNet)
    ensures SameSlice(s, t, f, normal)
  {
    EntriesComeBack(s.rows.saved, a, net, t.rows.saved, b, newNet);
    SessionsComeBack(s.rows, t.rows, b, newNet, f);
    StationsAre(s.rows, a, net, b.stations);
    forall c, d
      ensures Tells(s.rows, c, d) <==> Tells(t.rows, c, d)
    {
      StationsComeBack(s.rows, a, net, t.rows, b, newNet, f, c, d);
    }
    assert s.net.(importedAt := s.net.importedAt) == s.net;
  }

  // And whatever it is applied to, every other net stays as it was.
  lemma OtherNetsStay(s: NetSlice, before: Rows, after: Rows, net: int, f: map<int, int>, normal: Net -> Net, importedAt: int, other: int)
    requires Sound(before) && Applied(s, before, after, net, f, normal, importedAt) && other in before.nets
    ensures after.nets[other] == before.nets[other] && after.saved[other] == before.saved[other]
    ensures forall i :: i in after.owner && after.owner[i] == other <==> i in before.owner && before.owner[i] == other
    ensures forall i :: i in before.owner && before.owner[i] == other ==>
              after.sessions[i] == before.sessions[i] && after.log[i] == before.log[i]
  {
    forall i | i in f
      ensures after.owner[f[i]] == net
    {
      var k :| 0 <= k < |s.rows.instances| && s.rows.instances[k].id == i;
    }
  }

  // ---- The database's part, and the copying ----

  lemma RecordedMore(stations: map<string, Details>, list: seq<Station>, s: Station)
    ensures AllRecorded(stations, list + [s]) == Recorded(AllRecorded(stations, list), s)
  {
    assert (list + [s])[..|list|] == list;
  }

  lemma SavedMore(saved: seq<SavedStation>, s: SavedStation)
    ensures SavedAs(saved + [s]) == SavedAs(saved)[EntryOf(s) := SavedRow(s.remarks, s.memberId)]
  {
    assert (saved + [s])[..|saved|] == saved;
  }

  lemma LogMore(checkIns: seq<CheckIn>, c: CheckIn, id: int)
    ensures CheckInsOf(checkIns + [c], id) == CheckInsOf(checkIns, id) + if c.session == id then [c] else []
  {
    assert (checkIns + [c])[..|checkIns|] == checkIns;
  }

  // The first sessions have been created, empty so far.
  ghost predicate Created(instances: seq<Instance>, before: Rows, r: Rows, net: int, f: map<int, int>) {
    && Renames(f, instances)
    && r.owner.Keys == r.sessions.Keys == r.log.Keys
    && (forall i :: i in f ==> f[i] !in before.owner && f[i] in r.owner && r.owner[f[i]] == net && r.log[f[i]] == [])
    && (forall i :: i in r.owner <==> i in before.owner || IsNew(f, i))
    && (forall i :: i in before.owner ==>
          r.owner[i] == before.owner[i] && i in before.sessions && r.sessions[i] == before.sessions[i]
          && i in before.log && r.log[i] == before.log[i])
    && (forall k :: 0 <= k < |instances| ==> r.sessions[f[instances[k].id]] == instances[k].(id := f[instances[k].id]))
  }

  lemma CreatedMore(instances: seq<Instance>, before: Rows, r: Rows, net: int, f: map<int, int>, i: Instance, id: int, next: Rows)
    requires Created(instances, before, r, net, f) && id !in r.owner
    requires forall k :: 0 <= k < |instances| ==> instances[k].id != i.id
    requires next == r.(owner := r.owner[id := net], sessions := r.sessions[id := i.(id := id)], log := r.log[id := []])
    ensures Created(instances + [i], before, next, net, f[i.id := id])
  {
    var more, g := instances + [i], f[i.id := id];
    assert i.id !in f;
    RenamesMore(instances, f, i, id);
    NewsMore(f, i.id, id);
    assert forall k :: 0 <= k < |instances| ==> more[k] == instances[k] && g[instances[k].id] == f[instances[k].id];
  }

  lemma NewsMore(f: map<int, int>, i: int, id: int)
    requires i !in f
    ensures forall j :: IsNew(f[i := id], j) <==> IsNew(f, j) || j == id
  {
    forall j
      ensures IsNew(f[i := id], j) <==> IsNew(f, j) || j == id
    {
      NewMore(f, i, id, j);
    }
  }

  lemma RenamesMore(instances: seq<Instance>, f: map<int, int>, i: Instance, id: int)
    requires Renames(f, instances) && i.id !in f && forall j :: j in f ==> f[j] != id
    ensures Renames(f[i.id := id], instances + [i])
  {
    var more, g := instances + [i], f[i.id := id];
    assert more[|instances|] == i;
    assert forall k :: 0 <= k < |instances| ==> more[k] == instances[k];
    forall j | j in g
      ensures exists k :: 0 <= k < |more| && more[k].id == j
    {
      if j in f {
        var k :| 0 <= k < |instances| && instances[k].id == j;
        assert more[k].id == j;
      }
    }
  }

  lemma NewMore(f: map<int, int>, i: int, id: int, j: int)
    requires i !in f
    ensures IsNew(f[i := id], j) <==> IsNew(f, j) || j == id
  {
    var g := f[i := id];
    if IsNew(f, j) {
      var k :| k in f && f[k] == j;
      assert g[k] == j;
    }
    assert g[i] == id;
  }

  // The check-ins so far are with their sessions.
  ghost predicate FollowTheirSessions(checkIns: seq<CheckIn>, log: map<int, seq<CheckIn>>, f: map<int, int>) {
    forall i :: i in f ==> f[i] in log && log[f[i]] == Moved(CheckInsOf(checkIns, i), f[i])
  }

  lemma LoggedMore(checkIns: seq<CheckIn>, log: map<int, seq<CheckIn>>, f: map<int, int>, c: CheckIn, next: map<int, seq<CheckIn>>)
    requires FollowTheirSessions(checkIns, log, f) && forall i, j :: i in f && j in f && i != j ==> f[i] != f[j]
    requires next == if c.session in f then log[f[c.session] := log[f[c.session]] + [InSession(c, f[c.session])]] else log
    ensures FollowTheirSessions(checkIns + [c], next, f)
  {
    forall i | i in f
      ensures f[i] in next && next[f[i]] == Moved(CheckInsOf(checkIns + [c], i), f[i])
    {
      LogMore(checkIns, c, i);
      var log := CheckInsOf(checkIns, i);
      assert Moved(log + [c], f[i]) == Moved(log, f[i]) + [InSession(c, f[i])];
      assert log + [] == log;
    }
  }

  predicate AllBelow(owner: map<int, int>, last: int) {
    forall i :: i in owner ==> i <= last
  }

  class NetStore {
    var rows: Rows
    var lastNet: int
    var lastSession: int

    ghost predicate Valid()
      reads this
    {
      && Sound(rows) && (forall n :: n in rows.nets ==> n <= lastNet)
      && AllBelow(rows.owner, lastSession)
    }

    constructor ()
      ensures Valid() && rows == EMPTY
    {
      rows, lastNet, lastSession := EMPTY, 0, 0;
    }

    // The whole slice becomes a new net, its sessions getting new ids.
    method ApplyNetSlice(s: NetSlice, importedAt: int, normal: Net -> Net) returns (net: int, ghost f: map<int, int>)
      requires Valid() && DistinctInstances(s.rows.instances)
      modifies this
      ensures Valid() && Applied(s, old(rows), rows, net, f, normal, importedAt)
    {
      lastNet := lastNet + 1;
      net := lastNet;
      rows := rows.(nets := rows.nets[net := normal(s.net.(importedAt := importedAt))]);
      SaveAll(s.rows.saved, net);
      RecordAll(s.rows.others);
      var ids := CreateAll(s.rows.instances, net, old(rows));
      f := ids;
      AddAll(s.rows.checkIns, ids, old(rows));
      AppliedIsSound(s, old(rows), rows, net, f, normal, importedAt);
    }

    method SaveAll(saved: seq<SavedStation>, net: int)
      modifies `rows
      ensures rows == old(rows).(saved := old(rows).saved[net := SavedAs(saved)],
                                 stations := AllRecorded(old(rows).stations, StationsOf(saved)))
    {
      RecordAll(StationsOf(saved));
      var entries := EntriesOf(saved);
      rows := rows.(saved := rows.saved[net := entries]);
    }

    static method EntriesOf(saved: seq<SavedStation>) returns (entries: map<Entry, SavedRow>)
      ensures entries == SavedAs(saved)
    {
      entries := map[];
      for k := 0 to |saved|
        invariant entries == SavedAs(saved[..k])
      {
        assert saved[..k + 1] == saved[..k] + [saved[k]];
        SavedMore(saved[..k], saved[k]);
        entries := entries[EntryOf(saved[k]) := SavedRow(saved[k].remarks, saved[k].memberId)];
      }
      assert saved[..|saved|] == saved;
    }

    method RecordAll(others: seq<Station>)
      modifies `rows
      ensures rows == old(rows).(stations := AllRecorded(old(rows).stations, others))
    {
      for k := 0 to |others|
        invariant rows == old(rows).(stations := AllRecorded(old(rows).stations, others[..k]))
      {
        assert others[..k + 1] == others[..k] + [others[k]];
        RecordedMore(old(rows).stations, others[..k], others[k]);
        rows := rows.(stations := Recorded(rows.stations, others[k]));
      }
      assert others[..|others|] == others;
    }

    method CreateNetInstance(i: Instance, net: int) returns (id: int)
      modifies `rows, `lastSession
      ensures id == lastSession == old(lastSession) + 1
      ensures rows == old(rows).(owner := old(rows).owner[id := net], sessions := old(rows).sessions[id := i.(id := id)],
                                 log := old(rows).log[id := []])
    {
      lastSession := lastSession + 1;
      id := lastSession;
      rows := rows.(owner := rows.owner[id := net], sessions := rows.sessions[id := i.(id := id)], log := rows.log[id := []]);
    }

    method CreateAll(instances: seq<Instance>, net: int, ghost before: Rows) returns (f: map<int, int>)
      requires DistinctInstances(instances) && Created([], before, rows, net, map[]) && AllBelow(rows.owner, lastSession)
      modifies `rows, `lastSession
      ensures Created(instances, before, rows, net, f) && AllBelow(rows.owner, lastSession)
      ensures rows == old(rows).(owner := rows.owner, sessions := rows.sessions, log := rows.log)
    {
      f := map[];
      ghost var done: seq<Instance> := [];
      for k := 0 to |instances|
        invariant |done| == k && done <= instances
        invariant Created(done, before, rows, net, f) && AllBelow(rows.owner, lastSession)
        invariant rows == old(rows).(owner := rows.owner, sessions := rows.sessions, log := rows.log)
      {
        var i := instances[k];
        f := CreateOne(i, net, f, done, before);
        done := done + [i];
      }
      assert done == instances;
    }

    method CreateOne(i: Instance, net: int, f: map<int, int>, ghost done: seq<Instance>, ghost before: Rows) returns (g: map<int, int>)
      requires Created(done, before, rows, net, f) && AllBelow(rows.owner, lastSession)
      requires forall k :: 0 <= k < |done| ==> done[k].id != i.id
      modifies `rows, `lastSession
      ensures Created(done + [i], before, rows, net, g) && AllBelow(rows.owner, lastSession)
      ensures rows == old(rows).(owner := rows.owner, sessions := rows.sessions, log := rows.log)
    {
      ghost var was := rows;
      assert lastSession + 1 !in rows.owner;
      var id := CreateNetInstance(i, net);
      CreatedMore(done, before, was, net, f, i, id, rows);
      g := f[i.id := id];
    }

    // Each check-in to its session's copy; one of no session goes nowhere.
    method AddAll(checkIns: seq<CheckIn>, f: map<int, int>, ghost before: Rows)
      requires forall i :: i in f ==> f[i] in rows.log && rows.log[f[i]] == []
      requires forall i, j :: i in f && j in f && i != j ==> f[i] != f[j]
      modifies `rows
      ensures rows == old(rows).(log := rows.log) && rows.log.Keys == old(rows.log).Keys
      ensures FollowTheirSessions(checkIns, rows.log, f)
      ensures forall i :: i in rows.log && !IsNew(f, i) ==> rows.log[i] == old(rows.log)[i]
    {
      ghost var done: seq<CheckIn> := [];
      assert forall i :: i in f ==> Moved([], f[i]) == [];
      for m := 0 to |checkIns|
        invariant |done| == m && done <= checkIns
        invariant rows == old(rows).(log := rows.log) && rows.log.Keys == old(rows.log).Keys
        invariant FollowTheirSessions(done, rows.log, f)
        invariant forall i :: i in rows.log && !IsNew(f, i) ==> rows.log[i] == old(rows.log)[i]
      {
        var c := checkIns[m];
        ghost var was := rows.log;
        if c.session in f {
          var id := f[c.session];
          assert IsNew(f, id);
          rows := rows.(log := rows.log[id := rows.log[id] + [InSession(c, id)]]);
        }
        LoggedMore(done, was, f, c, rows.log);
        done := done + [c];
      }
      assert done == checkIns;
    }

    // The ids of a net's sessions, in whatever order they are listed.
    method SessionIds(net: int) returns (ids: seq<int>)
      ensures IsListing(ids, rows.owner, net)
    {
      ids := [];
      var left := set i | i in rows.owner && rows.owner[i] == net;
      while left != {}
        invariant forall i :: i in left ==> i in rows.owner && rows.owner[i] == net
        invariant forall k :: 0 <= k < |ids| ==> ids[k] in rows.owner && rows.owner[ids[k]] == net && ids[k] !in left
        invariant forall j, k :: 0 <= j < k < |ids| ==> ids[j] != ids[k]
        invariant forall i :: i in rows.owner && rows.owner[i] == net ==> i in left || i in ids
        decreases |left|
      {
        var i := AnyOf(left);
        left := left - {i};
        ids := ids + [i];
      }
    }

    method GetNetInstancesForNet(net: int) returns (list: seq<Instance>, ghost ids: seq<int>)
      requires Sound(rows)
      ensures IsListing(ids, rows.owner, net)
      ensures |list| == |ids| && forall k :: 0 <= k < |ids| ==> list[k] == rows.sessions[ids[k]] && list[k].id == ids[k]
    {
      var all := SessionIds(net);
      ids := all;
      list := [];
      for k := 0 to |all|
        invariant |list| == k && forall j :: 0 <= j < k ==> list[j] == rows.sessions[all[j]] && list[j].id == all[j]
      {
        list := list + [rows.sessions[all[k]]];
      }
    }

    // All check-ins to a net's sessions, session by session.
    method GetCheckInsForNet(net: int) returns (list: seq<CheckIn>, ghost ids: seq<int>)
      requires Sound(rows)
      ensures IsListing(ids, rows.owner, net)
      ensures forall i :: i in ids ==> CheckInsOf(list, i) == rows.log[i]
      ensures forall c :: c in list ==> c.session in ids
    {
      var all := SessionIds(net);
      ids := all;
      list := [];
      for k := 0 to |all|
        invariant forall j :: 0 <= j < |all| ==> CheckInsOf(list, all[j]) == if j < k then rows.log[all[j]] else []
        invariant forall c :: c in list ==> c.session in all
      {
        list := AppendLog(list, rows.log[all[k]], all, k);
      }
    }

    static method AppendLog(list: seq<CheckIn>, log: seq<CheckIn>, ghost ids: seq<int>, ghost k: nat) returns (more: seq<CheckIn>)
      requires k < |ids| && forall m :: 0 <= m < |log| ==> log[m].session == ids[k]
      requires forall i, j :: 0 <= i < j < |ids| ==> ids[i] != ids[j]
      requires CheckInsOf(list, ids[k]) == [] && forall c :: c in list ==> c.session in ids
      ensures forall j :: 0 <= j < |ids| ==> CheckInsOf(more, ids[j]) == if j == k then log else CheckInsOf(list, ids[j])
      ensures forall c :: c in more ==> c.session in ids
    {
      more := list + log;
      forall j | 0 <= j < |ids|
        ensures CheckInsOf(more, ids[j]) == if j == k then log else CheckInsOf(list, ids[j])
      {
        LogsMore(list, log, ids[k], ids[j]);
        assert [] + log == log && CheckInsOf(list, ids[j]) + [] == CheckInsOf(list, ids[j]);
      }
    }

    // What is saved to a net, by entry.
    method GetSavedNetEntries(net: int) returns (list: seq<SavedStation>)
      requires Sound(rows) && net in rows.saved
      ensures HoldsSaved(list, rows, net)
    {
      list := [];
      var left := rows.saved[net].Keys;
      while left != {}
        invariant left <= rows.saved[net].Keys
        invariant forall k :: 0 <= k < |list| ==> IsEntryOf(list[k], rows, net)
        invariant forall e :: e in rows.saved[net] && e !in left ==> HasEntry(list, e, rows.saved[net][e])
        decreases |left|
      {
        var e :| e in left;
        left := left - {e};
        var row := rows.saved[net][e];
        var entry := SavedStation(Station(e.callsign, rows.stations[e.callsign]), e.name, row.remarks, row.memberId);
        assert EntryOf(entry) == e;
        EntriesMore(list, entry);
        list := list + [entry];
      }
    }

    // The stations known by these call signs.
    method FindStationsByCallsigns(callsigns: seq<string>) returns (list: seq<Station>)
      requires Sound(rows)
      ensures forall k :: 0 <= k < |list| ==> list[k].callsign in callsigns && list[k].callsign in rows.stations
                                              && list[k].details == rows.stations[list[k].callsign] && IsUpper(list[k].callsign)
      ensures forall c :: c in callsigns && c in rows.stations ==> Names(list, c)
    {
      list := [];
      for m := 0 to |callsigns|
        invariant forall k :: 0 <= k < |list| ==> list[k].callsign in callsigns && list[k].callsign in rows.stations
                                                  && list[k].details == rows.stations[list[k].callsign] && IsUpper(list[k].callsign)
        invariant forall j :: 0 <= j < m && callsigns[j] in rows.stations ==> Names(list, callsigns[j])
      {
        var c := callsigns[m];
        if c in rows.stations {
          var s := Station(c, rows.stations[c]);
          forall x
            ensures Names(list + [s], x) <==> Names(list, x) || Upper(c) == x
          {
            NamesMore(list, s, x);
          }
          list := list + [s];
        }
      }
    }

    // A net with all that belongs to it, of one moment.
    method GatherNetSlice(net: int) returns (s: NetSlice)
      requires Valid() && net in rows.nets
      ensures Gathered(s, rows, net) && DistinctInstances(s.rows.instances)
    {
      var saved := GetSavedNetEntries(net);
      ghost var ids, others;
      var instances, checkIns;
      instances, ids := GetNetInstancesForNet(net);
      checkIns, others := GetCheckInsForNet(net);
      var unknown := UnknownCallsigns(saved, checkIns);
      var stations := FindStationsByCallsigns(unknown);
      s := NetSlice(rows.nets[net], Slice(instances, checkIns, saved, stations));
    }

    // The one net of a file.
    method ReadNet() returns (read: ReadSlice)
      requires Valid()
      ensures read.ReadSlice? <==> |rows.nets| == 1
      ensures read.ReadSlice? ==> forall net :: net in rows.nets ==> Gathered(read.slice, rows, net)
    {
      if |rows.nets| != 1 {
        return if rows.nets == map[] then NoNet else ManyNets;
      }
      var nets := rows.nets.Keys;
      var net := AnyOf(nets);
      OnlyOne(nets, net);
      var slice := GatherNetSlice(net);
      read := ReadSlice(slice);
    }
  }

  datatype ReadSlice = ReadSlice(slice: NetSlice) | NoNet | ManyNets

  // Exported to a file of its own and read back: the same net.
  method WriteAndRead(store: NetStore, net: int, normal: Net -> Net) returns (s: NetSlice, read: ReadSlice, ghost f: map<int, int>)
    requires store.Valid() && net in store.rows.nets
    ensures Gathered(s, store.rows, net) && read.ReadSlice? && SameSlice(s, read.slice, f, normal)
  {
    s := store.GatherNetSlice(net);
    var file := new NetStore();
    var newNet;
    newNet, f := file.ApplyNetSlice(s, s.net.importedAt, normal);
    assert file.rows.nets.Keys == {newNet};
    read := file.ReadNet();
    SliceRoundTrip(s, store.rows, net, file.rows, newNet, f, read.slice, normal);
  }

  lemma {:induction false} RecordedKeys(stations: map<string, Details>, list: seq<Station>)
    ensures forall c :: c in AllRecorded(stations, list) <==> c in stations || Names(list, c)
  {
    if list != [] {
      var before, last := list[..|list| - 1], list[|list| - 1];
      RecordedKeys(stations, before);
      assert list == before + [last];
      forall c
        ensures Names(list, c) <==> Names(before, c) || Upper(last.callsign) == c
      {
        NamesMore(before, last, c);
      }
    }
  }

  lemma {:induction false} SavedAsUpper(saved: seq<SavedStation>)
    ensures forall e :: e in SavedAs(saved) ==> IsUpper(e.callsign) && IsUpper(e.name) && Names(StationsOf(saved), e.callsign)
  {
    if saved != [] {
      var before, last := saved[..|saved| - 1], saved[|saved| - 1];
      SavedAsUpper(before);
      UpperIsUpper(last.station.callsign);
      UpperIsUpper(last.name);
      assert StationsOf(saved) == StationsOf(before) + [last.station];
      forall e | e in SavedAs(saved)
        ensures Names(StationsOf(saved), e.callsign)
      {
        NamesMore(StationsOf(before), last.station, e.callsign);
      }
    }
  }

  // ---- What becomes known of stations ----

  predicate SaysOf(list: seq<Station>, i: nat, callsign: string, k: nat)
    requires i < |list| && k < DETAIL_COUNT
  {
    Upper(list[i].callsign) == callsign && list[i].details[k] != ""
  }

  // A detail is the last that a list tells that is not blank, or what was known
  // if it tells none.
  predicate IsLastTold(list: seq<Station>, callsign: string, k: nat, known: string, value: string)
    requires k < DETAIL_COUNT
  {
    || (value == known && forall i :: 0 <= i < |list| ==> !SaysOf(list, i, callsign, k))
    || exists i :: 0 <= i < |list| && IsTheLast(list, i, callsign, k) && value == list[i].details[k]
  }

  predicate IsTheLast(list: seq<Station>, i: nat, callsign: string, k: nat)
    requires i < |list| && k < DETAIL_COUNT
  {
    SaysOf(list, i, callsign, k) && forall j :: i < j < |list| ==> !SaysOf(list, j, callsign, k)
  }

  lemma {:induction false} RecordedIsLastTold(stations: map<string, Details>, list: seq<Station>, callsign: string, k: nat)
    requires k < DETAIL_COUNT
    ensures IsLastTold(list, callsign, k, KnownOf(stations, callsign)[k], KnownOf(AllRecorded(stations, list), callsign)[k])
    ensures callsign in AllRecorded(stations, list) <==> callsign in stations || Names(list, callsign)
  {
    if list != [] {
      var before, last := list[..|list| - 1], list[|list| - 1];
      RecordedIsLastTold(stations, before, callsign, k);
      assert list == before + [last];
      NamesMore(before, last, callsign);
      var known, value := KnownOf(stations, callsign)[k], KnownOf(AllRecorded(stations, before), callsign)[k];
      LastToldMore(before, last, callsign, k, known, value);
    }
  }

  lemma LastToldMore(list: seq<Station>, last: Station, callsign: string, k: nat, known: string, value: string)
    requires k < DETAIL_COUNT && IsLastTold(list, callsign, k, known, value)
    ensures IsLastTold(list + [last], callsign, k, known,
                       if Upper(last.callsign) == callsign && last.details[k] != "" then last.details[k] else value)
  {
    var more := list + [last];
    assert forall i :: 0 <= i < |list| ==> (SaysOf(more, i, callsign, k) <==> SaysOf(list, i, callsign, k));
    if SaysOf(more, |list|, callsign, k) {
      assert IsTheLast(more, |list|, callsign, k);
    } else if i :| 0 <= i < |list| && IsTheLast(list, i, callsign, k) && value == list[i].details[k] {
      assert IsTheLast(more, i, callsign, k);
    }
  }

  lemma {:induction false} RecordedTogether(stations: map<string, Details>, a: seq<Station>, b: seq<Station>)
    ensures AllRecorded(AllRecorded(stations, a), b) == AllRecorded(stations, a + b)
  {
    if b == [] {
      assert a + b == a;
    } else {
      var before, last := b[..|b| - 1], b[|b| - 1];
      RecordedTogether(stations, a, before);
      assert (a + b)[..|a + b| - 1] == a + before && (a + b)[|a + b| - 1] == last;
    }
  }

  // After a slice is applied, each detail of a station is the last the slice
  // tells that is not blank, or what was known before; and no station is known
  // but those that were and those the slice tells of.
  lemma AppliedTellsLast(s: NetSlice, before: Rows, after: Rows, net: int, f: map<int, int>, normal: Net -> Net, importedAt: int,
                         callsign: string, k: nat)
    requires Applied(s, before, after, net, f, normal, importedAt) && k < DETAIL_COUNT
    ensures var told := StationsOf(s.rows.saved) + s.rows.others;
            && IsLastTold(told, callsign, k, KnownOf(before.stations, callsign)[k], KnownOf(after.stations, callsign)[k])
            && (callsign in after.stations <==> callsign in before.stations || Names(told, callsign))
  {
    RecordedTogether(before.stations, StationsOf(s.rows.saved), s.rows.others);
    RecordedIsLastTold(before.stations, StationsOf(s.rows.saved) + s.rows.others, callsign, k);
  }

  lemma AppliedIsSound(s: NetSlice, before: Rows, after: Rows, net: int, f: map<int, int>, normal: Net -> Net, importedAt: int)
    requires Sound(before) && Applied(s, before, after, net, f, normal, importedAt)
    ensures Sound(after)
  {
    SessionsAreSound(s, before, after, net, f);
    EntriesAreThere(s.rows.saved, s.rows.others, before.stations);
    StationsAreSound(before, after, net, SavedAs(s.rows.saved));
  }

  lemma StationsAreSound(before: Rows, after: Rows, net: int, entries: map<Entry, SavedRow>)
    requires SoundStations(before) && after.saved == before.saved[net := entries]
    requires after.nets.Keys == before.nets.Keys + {net}
    requires before.stations.Keys <= after.stations.Keys
    requires forall c :: c in after.stations ==> IsUpper(c)
    requires forall e :: e in entries ==> IsUpper(e.callsign) && IsUpper(e.name) && e.callsign in after.stations
    ensures SoundStations(after)
  {
  }

  lemma EntriesAreThere(saved: seq<SavedStation>, others: seq<Station>, stations: map<string, Details>)
    requires forall c :: c in stations ==> IsUpper(c)
    ensures
      var all := AllRecorded(AllRecorded(stations, StationsOf(saved)), others);
      && stations.Keys <= all.Keys && (forall c :: c in all ==> IsUpper(c))
      && (forall e :: e in SavedAs(saved) ==> IsUpper(e.callsign) && IsUpper(e.name) && e.callsign in all)
  {
    RecordedUpper(stations, StationsOf(saved));
    RecordedUpper(AllRecorded(stations, StationsOf(saved)), others);
    forall e | e in SavedAs(saved)
      ensures IsUpper(e.callsign) && IsUpper(e.name) && e.callsign in AllRecorded(AllRecorded(stations, StationsOf(saved)), others)
    {
      EntryIsThere(saved, others, stations, e);
    }
  }

  lemma {:induction false} RecordedUpper(stations: map<string, Details>, list: seq<Station>)
    requires forall c :: c in stations ==> IsUpper(c)
    ensures forall c :: c in AllRecorded(stations, list) ==> IsUpper(c)
    ensures stations.Keys <= AllRecorded(stations, list).Keys
  {
    if list != [] {
      RecordedUpper(stations, list[..|list| - 1]);
      UpperIsUpper(list[|list| - 1].callsign);
    }
  }

  lemma EntryIsThere(saved: seq<SavedStation>, others: seq<Station>, stations: map<string, Details>, e: Entry)
    requires e in SavedAs(saved) && forall c :: c in stations ==> IsUpper(c)
    ensures IsUpper(e.callsign) && IsUpper(e.name)
    ensures e.callsign in AllRecorded(AllRecorded(stations, StationsOf(saved)), others)
  {
    var list := StationsOf(saved);
    SavedAsUpper(saved);
    RecordedKeys(stations, list);
    RecordedUpper(stations, list);
    RecordedUpper(AllRecorded(stations, list), others);
  }

  lemma SessionsAreSound(s: NetSlice, before: Rows, after: Rows, net: int, f: map<int, int>)
    requires SoundSessions(before) && net in after.nets && before.nets.Keys <= after.nets.Keys
    requires Renames(f, s.rows.instances) && after.owner.Keys == after.sessions.Keys == after.log.Keys
    requires Landed(s.rows, after, net, f)
    requires forall i :: i in after.owner <==> i in before.owner || IsNew(f, i)
    requires forall i :: i in before.owner ==>
               after.owner[i] == before.owner[i] && after.sessions[i] == before.sessions[i] && after.log[i] == before.log[i]
    ensures SoundSessions(after)
  {
    forall i | i in after.owner
      ensures after.owner[i] in after.nets && after.sessions[i].id == i
      ensures forall k :: 0 <= k < |after.log[i]| ==> after.log[i][k].session == i
    {
      if i !in before.owner {
        var j :| j in f && f[j] == i;
        var k :| 0 <= k < |s.rows.instances| && s.rows.instances[k].id == j;
      }
    }
  }

  // Each of a net's sessions once.
  predicate IsListing(ids: seq<int>, owner: map<int, int>, net: int) {
    && (forall j, k :: 0 <= j < k < |ids| ==> ids[j] != ids[k])
    && (forall k :: 0 <= k < |ids| ==> ids[k] in owner && owner[ids[k]] == net)
    && (forall i :: i in owner && owner[i] == net ==> i in ids)
  }

  predicate IsEntryOf(s: SavedStation, r: Rows, net: int)
    requires net in r.saved
  {
    && EntryOf(s) in r.saved[net] && r.saved[net][EntryOf(s)] == SavedRow(s.remarks, s.memberId)
    && Upper(s.station.callsign) in r.stations && s.station.details == r.stations[Upper(s.station.callsign)]
  }

  lemma EntriesMore(list: seq<SavedStation>, s: SavedStation)
    ensures forall e, row :: HasEntry(list, e, row) ==> HasEntry(list + [s], e, row)
    ensures HasEntry(list + [s], EntryOf(s), SavedRow(s.remarks, s.memberId))
  {
    var more := list + [s];
    assert more[|list|] == s;
    assert forall k :: 0 <= k < |list| ==> more[k] == list[k];
  }

  // Call signs checked in that aren't saved, each once.
  method UnknownCallsigns(saved: seq<SavedStation>, checkIns: seq<CheckIn>) returns (unknown: seq<string>)
    ensures forall c :: c in unknown ==> CheckedIn(checkIns, c)
    ensures forall k :: 0 <= k < |checkIns| ==>
              Upper(checkIns[k].callsign) in unknown || Names(StationsOf(saved), Upper(checkIns[k].callsign))
  {
    var known: set<string> := {};
    for k := 0 to |saved|
      invariant forall c :: c in known ==> Names(StationsOf(saved), c)
    {
      assert StationsOf(saved)[k] == saved[k].station;
      known := known + {Upper(saved[k].station.callsign)};
    }
    unknown := [];
    for k := 0 to |checkIns|
      invariant forall c :: c in unknown ==> CheckedIn(checkIns, c)
      invariant forall c :: c in known ==> c in unknown || Names(StationsOf(saved), c)
      invariant forall j :: 0 <= j < k ==> Upper(checkIns[j].callsign) in known
    {
      var upper := Upper(checkIns[k].callsign);
      if upper !in known {
        known := known + {upper};
        unknown := unknown + [upper];
      }
    }
  }

  // A session's own log adds to it alone.
  lemma {:induction false} LogsMore(list: seq<CheckIn>, log: seq<CheckIn>, i: int, j: int)
    requires forall k :: 0 <= k < |log| ==> log[k].session == i
    ensures CheckInsOf(list + log, j) == CheckInsOf(list, j) + if j == i then log else []
    decreases |log|
  {
    var was := CheckInsOf(list, j);
    if log == [] {
      assert list + log == list && was + [] == was;
    } else {
      var before, last := log[..|log| - 1], log[|log| - 1];
      LogsMore(list, before, i, j);
      assert list + log == (list + before) + [last];
      LogMore(list + before, last, j);
      assert log == before + [last];
      assert (was + before) + [last] == was + log && (was + []) + [] == was + [];
    }
  }
}
