// What a merge leaves behind: which sessions are listed, with which check-ins,
// what is known of each station, and which entries are saved. All of it is told
// from the file, the plan and what was here before, whatever is replaced.
module NetAccount {
  import opened CheckInKeys
  import opened NetDatabase
  import opened NetMatching

  // ---- A plan ----

  datatype Kind = New | AlreadyHere | Differs

  datatype MergeSession = MergeSession(
    fileIndex: nat, kind: Kind, localId: int, localOpen: bool, fileOpen: bool, checkInsDiffer: bool, notesDiffer: bool,
    changes: Changes, replace: bool)

  // The callsigns whose check-in differs, those only in the file and those
  // only here, each sorted.
  datatype Changes = Changes(changed: seq<string>, onlyInFile: seq<string>, onlyHere: seq<string>)

  const NO_CHANGES: Changes := Changes([], [], [])

  predicate Replaces(m: MergeSession) {
    m.kind == Differs && m.replace
  }

  predicate Adds(m: MergeSession) {
    m.kind == New || Replaces(m)
  }

  predicate NoReplace(plan: seq<MergeSession>) {
    forall i :: 0 <= i < |plan| ==> !Replaces(plan[i])
  }

  // ---- What goes ----

  // Replaced by one of the first `n` sessions of the plan.
  predicate Gone(plan: seq<MergeSession>, n: nat, id: int)
    requires n <= |plan|
  {
    exists i :: 0 <= i < n && Replaces(plan[i]) && plan[i].localId == id
  }

  ghost predicate Left(plan: seq<MergeSession>, n: nat, before: seq<Instance>, after: seq<Instance>)
    requires n <= |plan|
  {
    forall x :: x in after <==> x in before && !Gone(plan, n, x.id)
  }

  ghost predicate LogsLeft(plan: seq<MergeSession>, n: nat, before: map<int, seq<CheckIn>>, after: map<int, seq<CheckIn>>)
    requires n <= |plan|
  {
    && (forall id :: id in after <==> id in before && !Gone(plan, n, id))
    && forall id :: id in after ==> after[id] == before[id]
  }

  lemma OneMoreGone(plan: seq<MergeSession>, n: nat, id: int)
    requires n < |plan|
    ensures Gone(plan, n + 1, id) <==> Gone(plan, n, id) || (Replaces(plan[n]) && plan[n].localId == id)
  {
  }

  // ---- What comes ----

  // The latest of a session's start and its check-ins.
  predicate IsLatest(t: int, start: int, log: seq<CheckIn>) {
    && start <= t && (forall k :: 0 <= k < |log| ==> log[k].at <= t)
    && (t == start || exists k :: 0 <= k < |log| && log[k].at == t)
  }

  // A session of the file as it is listed here: as it was, but closed. One that
  // was open ended with its last check-in, if any time is known.
  ghost predicate IsClosedCopy(x: Instance, file: Instance, log: seq<CheckIn>, now: int) {
    && x == file.(id := x.id, open := false, closedAt := x.closedAt)
    && (!file.open ==> x.closedAt == file.closedAt)
    && (file.open ==> forall t :: IsLatest(t, file.startedAt, log) ==> x.closedAt == if t > 0 then t else now)
  }

  // The file's check-ins in a session here, numbered from 1 in their order if
  // they are numbered anew.
  predicate IsLog(to: seq<CheckIn>, from: seq<CheckIn>, id: int, anew: bool) {
    && |to| == |from|
    && (forall k :: 0 <= k < |to| ==>
          to[k] == from[k].(session := id, callsign := Upper(from[k].callsign), number := to[k].number))
    && if anew then IsNumbered(to, from) else forall k :: 0 <= k < |to| ==> to[k].number == from[k].number
  }

  predicate IsNumbered(to: seq<CheckIn>, from: seq<CheckIn>)
    requires |to| == |from|
  {
    && (forall k :: 0 <= k < |to| ==> 1 <= to[k].number <= |to|)
    && forall j, k :: 0 <= j < |to| && 0 <= k < |to| && Precedes(from, j, k) ==> to[j].number < to[k].number
  }

  // Session `i` of the file is in session `id` here.
  ghost predicate IsIn(s: Slice, i: nat, id: int, sessions: seq<Instance>, logs: map<int, seq<CheckIn>>, now: int)
    requires i < |s.instances|
  {
    var file, log := s.instances[i], CheckInsOf(s.checkIns, s.instances[i].id);
    && id in logs && IsLog(logs[id], log, id, file.open)
    && exists x :: x in sessions && x.id == id && IsClosedCopy(x, file, log, now)
  }

  // `from` says which session of the file a new one here is.
  ghost predicate AllNew(s: Slice, plan: seq<MergeSession>, n: nat, from: map<int, nat>, sessions: seq<Instance>,
                         logs: map<int, seq<CheckIn>>, now: int)
    requires n <= |plan| == |s.instances|
  {
    && (forall id :: id in from ==> from[id] < n && Adds(plan[from[id]]) && IsIn(s, from[id], id, sessions, logs, now))
    && (forall a, b :: a in from && b in from && from[a] == from[b] ==> a == b)
    && forall i :: 0 <= i < n && Adds(plan[i]) ==> exists id :: id in from && from[id] == i
  }

  // All the others are as they were.
  ghost predicate OthersStay(sessions: seq<Instance>, logs: map<int, seq<CheckIn>>, from: map<int, nat>, after: seq<Instance>,
                       logsAfter: map<int, seq<CheckIn>>)
  {
    && (forall x :: x in after && x.id !in from <==> x in sessions)
    && (forall id :: id in logsAfter && id !in from <==> id in logs)
    && forall id :: id in logs ==> logsAfter[id] == logs[id]
  }

  // What is listed after a plan is carried out: the sessions here less those
  // replaced, each as it was, and one closed copy with its check-ins for each
  // session of the file that is new or replaces one.
  ghost predicate IsMerged(s: Slice, plan: seq<MergeSession>, sessions: seq<Instance>, logs: map<int, seq<CheckIn>>,
                           from: map<int, nat>, after: seq<Instance>, logsAfter: map<int, seq<CheckIn>>, now: int)
    requires |plan| == |s.instances|
  {
    && (forall x :: x in after && x.id !in from <==> x in sessions && !Gone(plan, |plan|, x.id))
    && (forall id :: id in logsAfter && id !in from <==> id in logs && !Gone(plan, |plan|, id))
    && (forall id :: id in logs && !Gone(plan, |plan|, id) ==> logsAfter[id] == logs[id])
    && AllNew(s, plan, |plan|, from, after, logsAfter, now)
  }

  lemma MergedFrom(s: Slice, plan: seq<MergeSession>, sessions: seq<Instance>, logs: map<int, seq<CheckIn>>,
                   left: seq<Instance>, logsLeft: map<int, seq<CheckIn>>, from: map<int, nat>, after: seq<Instance>,
                   logsAfter: map<int, seq<CheckIn>>, now: int)
    requires |plan| == |s.instances| && Left(plan, |plan|, sessions, left) && LogsLeft(plan, |plan|, logs, logsLeft)
    requires OthersStay(left, logsLeft, from, after, logsAfter) && AllNew(s, plan, |plan|, from, after, logsAfter, now)
    ensures IsMerged(s, plan, sessions, logs, from, after, logsAfter, now)
  {
  }

  // One more session listed.
  ghost predicate OneMoreListed(before: seq<Instance>, x: Instance, after: seq<Instance>) {
    forall y :: y in after <==> y in before || y == x
  }

  lemma OthersStillStay(sessions: seq<Instance>, logs: map<int, seq<CheckIn>>, from: map<int, nat>, before: seq<Instance>,
                        logsBefore: map<int, seq<CheckIn>>, x: Instance, log: seq<CheckIn>, i: nat, after: seq<Instance>)
    requires OthersStay(sessions, logs, from, before, logsBefore) && OneMoreListed(before, x, after)
    requires x.id !in logsBefore && x.id !in from && forall y :: y in before ==> y.id != x.id
    ensures OthersStay(sessions, logs, from[x.id := i], after, logsBefore[x.id := log])
  {
  }

  lemma OneMoreNew(s: Slice, plan: seq<MergeSession>, n: nat, from: map<int, nat>, before: seq<Instance>,
                   logs: map<int, seq<CheckIn>>, now: int, x: Instance, log: seq<CheckIn>, after: seq<Instance>)
    requires n < |plan| == |s.instances| && AllNew(s, plan, n, from, before, logs, now) && Adds(plan[n])
    requires OneMoreListed(before, x, after) && x.id !in logs && x.id !in from
    requires IsClosedCopy(x, s.instances[n], CheckInsOf(s.checkIns, s.instances[n].id), now)
    requires IsLog(log, CheckInsOf(s.checkIns, s.instances[n].id), x.id, s.instances[n].open)
    ensures AllNew(s, plan, n + 1, from[x.id := n], after, logs[x.id := log], now)
  {
    var names := from[x.id := n];
    forall id | id in names
      ensures names[id] < n + 1 && Adds(plan[names[id]]) && IsIn(s, names[id], id, after, logs[x.id := log], now)
    {
      if id != x.id {
        assert IsIn(s, from[id], id, before, logs, now);
      }
    }
    forall i | 0 <= i < n + 1 && Adds(plan[i]) ensures exists id :: id in names && names[id] == i {
      if i < n {
        var id :| id in from && from[id] == i;
        assert id in names && names[id] == i;
      } else {
        assert x.id in names && names[x.id] == i;
      }
    }
  }

  lemma NoneNewHere(s: Slice, plan: seq<MergeSession>, n: nat, from: map<int, nat>, sessions: seq<Instance>,
                    logs: map<int, seq<CheckIn>>, now: int)
    requires n < |plan| == |s.instances| && AllNew(s, plan, n, from, sessions, logs, now) && !Adds(plan[n])
    ensures AllNew(s, plan, n + 1, from, sessions, logs, now)
  {
  }

  lemma OneLatest(a: int, b: int, start: int, log: seq<CheckIn>)
    requires IsLatest(a, start, log) && IsLatest(b, start, log)
    ensures a == b
  {
  }

  // ---- What is known of stations ----

  // The file's stations: those saved, and the others.
  function StationsOf(s: Slice): (all: seq<Station>)
    ensures |all| == |s.saved| + |s.others|
    ensures forall i :: 0 <= i < |s.saved| ==> all[i] == s.saved[i].station
    ensures forall i :: 0 <= i < |s.others| ==> all[|s.saved| + i] == s.others[i]
  {
    seq(|s.saved|, i requires 0 <= i < |s.saved| => s.saved[i].station) + s.others
  }

  // Who checked in to the sessions being added.
  ghost predicate Wanted(s: Slice, plan: seq<MergeSession>, n: nat, callsign: string)
    requires n <= |plan| == |s.instances|
  {
    exists i :: 0 <= i < n && Adds(plan[i]) && InLog(CheckInsOf(s.checkIns, s.instances[i].id), callsign)
  }

  predicate InLog(log: seq<CheckIn>, callsign: string) {
    exists k :: 0 <= k < |log| && Upper(log[k].callsign) == callsign
  }

  ghost predicate AreWanted(s: Slice, plan: seq<MergeSession>, n: nat, callsigns: set<string>)
    requires n <= |plan| == |s.instances|
  {
    forall c :: c in callsigns <==> Wanted(s, plan, n, c)
  }

  function CallsignsIn(log: seq<CheckIn>): set<string> {
    set k | 0 <= k < |log| :: Upper(log[k].callsign)
  }

  lemma OneMoreWanted(s: Slice, plan: seq<MergeSession>, n: nat, callsigns: set<string>)
    requires n < |plan| == |s.instances| && AreWanted(s, plan, n, callsigns)
    ensures AreWanted(s, plan, n + 1,
                      if Adds(plan[n]) then callsigns + CallsignsIn(CheckInsOf(s.checkIns, s.instances[n].id)) else callsigns)
  {
    var log := CheckInsOf(s.checkIns, s.instances[n].id);
    forall c ensures Wanted(s, plan, n + 1, c) <==> Wanted(s, plan, n, c) || (Adds(plan[n]) && c in CallsignsIn(log)) {
      assert InLog(log, c) <==> c in CallsignsIn(log);
    }
  }

  // A record of the file that counts for a call sign: a saved one, or one of a
  // station wanted.
  predicate Tells(all: seq<Station>, sure: nat, wanted: set<string>, i: nat, callsign: string)
    requires i < |all|
  {
    Upper(all[i].callsign) == callsign && (i < sure || callsign in wanted)
  }

  // The first that is not blank, of a detail that the first `n` records tell;
  // blank if all of them are.
  predicate IsFirstTold(all: seq<Station>, n: nat, sure: nat, wanted: set<string>, callsign: string, k: nat, value: string)
    requires n <= |all| && k < DETAIL_COUNT
  {
    if value == "" then forall i :: 0 <= i < n && Tells(all, sure, wanted, i, callsign) ==> all[i].details[k] == ""
    else exists i :: 0 <= i < n && FirstTells(all, sure, wanted, callsign, k, value, i)
  }

  predicate FirstTells(all: seq<Station>, sure: nat, wanted: set<string>, callsign: string, k: nat, value: string, i: nat)
    requires i < |all| && k < DETAIL_COUNT
  {
    && Tells(all, sure, wanted, i, callsign) && all[i].details[k] == value
    && forall j :: 0 <= j < i && Tells(all, sure, wanted, j, callsign) ==> all[j].details[k] == ""
  }

  function Detail(stations: map<string, Details>, callsign: string, k: nat): string
    requires k < DETAIL_COUNT
  {
    if callsign in stations then stations[callsign][k] else ""
  }

  // What was known stays; what was blank is what the file tells first.
  predicate KnowsOf(before: map<string, Details>, all: seq<Station>, n: nat, sure: nat, wanted: set<string>, callsign: string,
                    details: Details)
    requires n <= |all|
  {
    forall k :: 0 <= k < DETAIL_COUNT ==>
      if Detail(before, callsign, k) != "" then details[k] == Detail(before, callsign, k)
      else IsFirstTold(all, n, sure, wanted, callsign, k, details[k])
  }

  // No station is known but those known before, those told and those wanted.
  predicate NoneElse(before: map<string, Details>, all: seq<Station>, n: nat, sure: nat, wanted: set<string>,
                     after: map<string, Details>)
    requires n <= |all|
  {
    forall c :: c in after ==> c in before || c in wanted || IsTold(all, n, sure, wanted, c)
  }

  predicate HasAll(all: seq<Station>, n: nat, sure: nat, wanted: set<string>, after: map<string, Details>)
    requires n <= |all|
  {
    forall i :: 0 <= i < n && Tells(all, sure, wanted, i, Upper(all[i].callsign)) ==> Upper(all[i].callsign) in after
  }

  predicate Knows(before: map<string, Details>, all: seq<Station>, n: nat, sure: nat, wanted: set<string>,
                  after: map<string, Details>)
    requires n <= |all|
  {
    && before.Keys <= after.Keys && NoneElse(before, all, n, sure, wanted, after) && HasAll(all, n, sure, wanted, after)
    && forall c :: c in after ==> KnowsOf(before, all, n, sure, wanted, c, after[c])
  }

  predicate IsTold(all: seq<Station>, n: nat, sure: nat, wanted: set<string>, callsign: string)
    requires n <= |all|
  {
    exists i :: 0 <= i < n && Tells(all, sure, wanted, i, callsign)
  }

  // What the file tells of stations, and what was known before.
  datatype Telling = Telling(before: map<string, Details>, all: seq<Station>, sure: nat, wanted: set<string>)

  predicate KnowsAll(t: Telling, stations: map<string, Details>) {
    Knows(t.before, t.all, |t.all|, t.sure, t.wanted, stations)
  }

  lemma NothingTold(t: Telling)
    ensures Knows(t.before, t.all, 0, t.sure, t.wanted, t.before)
  {
  }

  lemma FirstToldMore(all: seq<Station>, n: nat, sure: nat, wanted: set<string>, callsign: string, k: nat, value: string)
    requires n < |all| && k < DETAIL_COUNT && IsFirstTold(all, n, sure, wanted, callsign, k, value)
    ensures IsFirstTold(all, n + 1, sure, wanted, callsign, k,
                        if value == "" && Tells(all, sure, wanted, n, callsign) then all[n].details[k] else value)
  {
    if value != "" {
      var i :| 0 <= i < n && FirstTells(all, sure, wanted, callsign, k, value, i);
      assert FirstTells(all, sure, wanted, callsign, k, value, i);
    } else if Tells(all, sure, wanted, n, callsign) && all[n].details[k] != "" {
      assert FirstTells(all, sure, wanted, callsign, k, all[n].details[k], n);
    }
  }

  lemma KnowsMoreOf(before: map<string, Details>, all: seq<Station>, n: nat, sure: nat, wanted: set<string>, callsign: string,
                    details: Details)
    requires n < |all| && KnowsOf(before, all, n, sure, wanted, callsign, details)
    ensures KnowsOf(before, all, n + 1, sure, wanted, callsign,
                    if Tells(all, sure, wanted, n, callsign) then Filled(details, all[n].details) else details)
  {
    forall k | 0 <= k < DETAIL_COUNT && Detail(before, callsign, k) == ""
      ensures IsFirstTold(all, n + 1, sure, wanted, callsign, k,
                          (if Tells(all, sure, wanted, n, callsign) then Filled(details, all[n].details) else details)[k])
    {
      FirstToldMore(all, n, sure, wanted, callsign, k, details[k]);
    }
  }

  // Not known yet, so no record has told of it.
  lemma NoneTold(before: map<string, Details>, all: seq<Station>, n: nat, sure: nat, wanted: set<string>,
                 after: map<string, Details>, callsign: string)
    requires n <= |all| && Knows(before, all, n, sure, wanted, after) && callsign !in after
    ensures KnowsOf(before, all, n, sure, wanted, callsign, NO_DETAILS)
  {
    assert forall i :: 0 <= i < n ==> !Tells(all, sure, wanted, i, callsign);
  }

  // One more record read, whether it counts or not.
  lemma KnowsMore(before: map<string, Details>, all: seq<Station>, n: nat, sure: nat, wanted: set<string>,
                  mid: map<string, Details>)
    requires n < |all| && Knows(before, all, n, sure, wanted, mid)
    ensures var c := Upper(all[n].callsign);
            var known := if c in mid then mid[c] else NO_DETAILS;
            Knows(before, all, n + 1, sure, wanted,
                  if Tells(all, sure, wanted, n, c) then mid[c := Filled(known, all[n].details)] else mid)
  {
    var callsign := Upper(all[n].callsign);
    var known := if callsign in mid then mid[callsign] else NO_DETAILS;
    var after := if Tells(all, sure, wanted, n, callsign) then mid[callsign := Filled(known, all[n].details)] else mid;
    NoneElseMore(before, all, n, sure, wanted, mid, after);
    if callsign !in mid {
      NoneTold(before, all, n, sure, wanted, mid, callsign);
    }
    forall c | c in after ensures KnowsOf(before, all, n + 1, sure, wanted, c, after[c]) {
      KnowsMoreOf(before, all, n, sure, wanted, c, if c in mid then mid[c] else NO_DETAILS);
    }
  }

  lemma NoneElseMore(before: map<string, Details>, all: seq<Station>, n: nat, sure: nat, wanted: set<string>,
                     mid: map<string, Details>, after: map<string, Details>)
    requires n < |all| && NoneElse(before, all, n, sure, wanted, mid)
    requires after.Keys == mid.Keys
          || (Tells(all, sure, wanted, n, Upper(all[n].callsign)) && after.Keys == mid.Keys + {Upper(all[n].callsign)})
    ensures NoneElse(before, all, n + 1, sure, wanted, after)
  {
    forall c | c in after ensures c in before || c in wanted || IsTold(all, n + 1, sure, wanted, c) {
      assert IsTold(all, n, sure, wanted, c) ==> IsTold(all, n + 1, sure, wanted, c);
    }
  }

  // A station only its call sign is known of.
  lemma KnowsBare(t: Telling, mid: map<string, Details>, callsign: string)
    requires KnowsAll(t, mid) && callsign in t.wanted
    ensures var known := if callsign in mid then mid[callsign] else NO_DETAILS;
            KnowsAll(t, mid[callsign := Filled(known, NO_DETAILS)])
  {
    var known := if callsign in mid then mid[callsign] else NO_DETAILS;
    assert Filled(known, NO_DETAILS) == known;
    if callsign !in mid {
      NoneTold(t.before, t.all, |t.all|, t.sure, t.wanted, mid, callsign);
    }
  }

  // ---- Afterwards ----

  // Who checked in to the sessions being added.
  ghost function WantedIn(s: Slice, plan: seq<MergeSession>): (wanted: set<string>)
    requires |plan| == |s.instances|
    ensures AreWanted(s, plan, |plan|, wanted)
  {
    var wanted := set i, c | 0 <= i < |plan| && Adds(plan[i]) && c in CallsignsIn(CheckInsOf(s.checkIns, s.instances[i].id)) :: c;
    assert AreWanted(s, plan, |plan|, wanted) by {
      forall c ensures c in wanted <==> Wanted(s, plan, |plan|, c) {
        forall i | 0 <= i < |plan|
          ensures c in CallsignsIn(CheckInsOf(s.checkIns, s.instances[i].id)) <==> InLog(CheckInsOf(s.checkIns, s.instances[i].id), c)
        {
        }
      }
    }
    wanted
  }

  // Every station the file tells of that is saved or wanted is known, as are
  // all that are wanted; and whatever is known of any station is what was known
  // before, its blanks filled in with what the file tells first.
  ghost predicate StationsTold(s: Slice, plan: seq<MergeSession>, before: map<string, Details>, after: map<string, Details>)
    requires |plan| == |s.instances|
  {
    var all, wanted := StationsOf(s), WantedIn(s, plan);
    && wanted <= after.Keys && HasAll(all, |all|, |s.saved|, wanted, after)
    && NoneElse(before, all, |all|, |s.saved|, wanted, after)
    && forall c :: c in after ==> KnowsOf(before, all, |all|, |s.saved|, wanted, c, after[c])
  }

  ghost predicate HasWanted(s: Slice, plan: seq<MergeSession>, n: nat, callsigns: set<string>)
    requires n <= |plan| == |s.instances|
  {
    forall c :: Wanted(s, plan, n, c) ==> c in callsigns
  }

  lemma HasMoreWanted(s: Slice, plan: seq<MergeSession>, n: nat, callsigns: set<string>, more: set<string>)
    requires n < |plan| == |s.instances| && HasWanted(s, plan, n, callsigns) && callsigns <= more
    requires Adds(plan[n]) ==> CallsignsIn(CheckInsOf(s.checkIns, s.instances[n].id)) <= more
    ensures HasWanted(s, plan, n + 1, more)
  {
    var log := CheckInsOf(s.checkIns, s.instances[n].id);
    forall c | Wanted(s, plan, n + 1, c) ensures c in more {
      assert InLog(log, c) <==> c in CallsignsIn(log);
    }
  }

  lemma ToldAll(s: Slice, plan: seq<MergeSession>, t: Telling, stations: map<string, Details>)
    requires |plan| == |s.instances| && t == Telling(t.before, StationsOf(s), |s.saved|, WantedIn(s, plan))
    requires KnowsAll(t, stations) && HasWanted(s, plan, |plan|, stations.Keys)
    ensures StationsTold(s, plan, t.before, stations)
  {
    assert t.wanted <= stations.Keys;
  }

  // Clearing up afterwards leaves alone whatever is told or wanted.
  lemma ToldWithoutUnused(s: Slice, plan: seq<MergeSession>, before: map<string, Details>, all: map<string, Details>,
                          left: map<string, Details>)
    requires |plan| == |s.instances| && StationsTold(s, plan, before, all)
    requires left.Keys <= all.Keys && forall c :: c in left ==> left[c] == all[c]
    requires WantedIn(s, plan) <= left.Keys
    requires forall i :: 0 <= i < |s.saved| ==> Upper(s.saved[i].station.callsign) in left
    ensures StationsTold(s, plan, before, left)
  {
  }

  // The check-ins of a session that was added are in it.
  lemma WantedIsLogged(s: Slice, plan: seq<MergeSession>, from: map<int, nat>, sessions: seq<Instance>,
                       logs: map<int, seq<CheckIn>>, now: int, callsign: string) returns (id: int, k: nat)
    requires |plan| == |s.instances| && AllNew(s, plan, |plan|, from, sessions, logs, now) && callsign in WantedIn(s, plan)
    ensures id in logs && k < |logs[id]| && logs[id][k].callsign == callsign
  {
    assert Wanted(s, plan, |plan|, callsign);
    var i :| 0 <= i < |plan| && Adds(plan[i]) && InLog(CheckInsOf(s.checkIns, s.instances[i].id), callsign);
    var log := CheckInsOf(s.checkIns, s.instances[i].id);
    k :| 0 <= k < |log| && Upper(log[k].callsign) == callsign;
    id :| id in from && from[id] == i;
    assert IsIn(s, i, id, sessions, logs, now);
  }

  // ---- Nothing vanishes ----

  // With nothing replaced, every log here stays, and so does whatever was known
  // of a station.
  lemma NothingIsLost(s: Slice, plan: seq<MergeSession>, sessions: seq<Instance>, logs: map<int, seq<CheckIn>>,
                      from: map<int, nat>, after: seq<Instance>, logsAfter: map<int, seq<CheckIn>>, now: int,
                      before: map<string, Details>, stations: map<string, Details>)
    requires |plan| == |s.instances| && IsMerged(s, plan, sessions, logs, from, after, logsAfter, now) && NoReplace(plan)
    requires StationsTold(s, plan, before, stations) && before.Keys <= stations.Keys
    ensures CheckInsKept(logs, logsAfter) && StationsKept(before, stations)
  {
    forall id | id in logs ensures id in logsAfter && logsAfter[id] == logs[id] {
      assert !Gone(plan, |plan|, id);
    }
    forall c, k | c in before && 0 <= k < DETAIL_COUNT && before[c][k] != "" ensures stations[c][k] == before[c][k] {
      assert KnowsOf(before, StationsOf(s), |StationsOf(s)|, |s.saved|, WantedIn(s, plan), c, stations[c]);
      assert Detail(before, c, k) == before[c][k];
    }
  }

  // Every session here stays as it was, with its check-ins, or has made way for
  // the file's session that replaces it, which is there.
  lemma NothingVanishes(s: Slice, plan: seq<MergeSession>, sessions: seq<Instance>, logs: map<int, seq<CheckIn>>,
                        from: map<int, nat>, after: seq<Instance>, logsAfter: map<int, seq<CheckIn>>, now: int, x: Instance)
    requires |plan| == |s.instances| && IsMerged(s, plan, sessions, logs, from, after, logsAfter, now)
    requires x in sessions && x.id in logs
    ensures || (x in after && x.id in logsAfter && logsAfter[x.id] == logs[x.id])
            || exists i, id :: 0 <= i < |plan| && plan[i].localId == x.id && IsIn(s, i, id, after, logsAfter, now)
  {
    if Gone(plan, |plan|, x.id) {
      var i :| 0 <= i < |plan| && Replaces(plan[i]) && plan[i].localId == x.id;
      assert Adds(plan[i]);
      var id :| id in from && from[id] == i;
      assert IsIn(s, i, id, after, logsAfter, now);
    }
  }
}
