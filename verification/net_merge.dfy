// Merging a file of a net's sessions into the net here: which of the file's
// sessions are already here, and what adding the rest does.
module NetMatching {
  datatype Instance = Instance(id: int, date: string, startedAt: int, closedAt: int, open: bool, notes: string)

  // A session with its check-ins: their keys, sorted, and when the last was.
  datatype Logged = Logged(instance: Instance, keys: seq<string>, last: int)

  const SAME_START_SECONDS: int := 1800

  predicate HasEnd(i: Instance) {
    !i.open && i.closedAt > 0
  }

  predicate BothHaveStartTimes(a: Instance, b: Instance) {
    a.startedAt > 0 && b.startedAt > 0
  }

  predicate TimesMatch(a: Instance, b: Instance) {
    if HasEnd(a) && HasEnd(b) then a.startedAt <= b.closedAt && b.startedAt <= a.closedAt
    else -SAME_START_SECONDS <= a.startedAt - b.startedAt <= SAME_START_SECONDS
  }

  predicate SameSession(a: Logged, b: Logged) {
    if BothHaveStartTimes(a.instance, b.instance) then TimesMatch(a.instance, b.instance)
    else a.instance.date == b.instance.date && a.keys == b.keys
  }

  lemma SameSessionIsSymmetric(a: Logged, b: Logged)
    ensures SameSession(a, b) == SameSession(b, a)
  {
  }

  // ---- Matching ----

  datatype Match = Found(id: int) | None

  // The first session of `list` not taken that is the same as `f`.
  function First(list: seq<Logged>, f: Logged, taken: set<int>): Match {
    if list == [] then None
    else if Fits(list[0], f, taken) then Found(list[0].instance.id)
    else First(list[1..], f, taken)
  }

  // The first is the one before which none fits.
  lemma {:induction false} FirstIs(list: seq<Logged>, k: nat, f: Logged, taken: set<int>)
    requires k <= |list| && forall j :: 0 <= j < k ==> !Fits(list[j], f, taken)
    requires k < |list| ==> Fits(list[k], f, taken)
    ensures First(list, f, taken) == if k < |list| then Found(list[k].instance.id) else None
  {
    if k > 0 {
      assert forall j :: 0 <= j < k - 1 ==> list[1..][j] == list[j + 1];
      FirstIs(list[1..], k - 1, f, taken);
    }
  }

  // It is one that fits, and there is none only when nothing does.
  lemma {:induction false} FirstFits(list: seq<Logged>, f: Logged, taken: set<int>)
    ensures var m := First(list, f, taken);
            if m.Found? then exists k :: 0 <= k < |list| && Fits(list[k], f, taken) && list[k].instance.id == m.id
            else forall k :: 0 <= k < |list| ==> !Fits(list[k], f, taken)
  {
    if list != [] && !Fits(list[0], f, taken) {
      FirstFits(list[1..], f, taken);
      assert forall k :: 1 <= k < |list| ==> list[k] == list[1..][k - 1];
    }
  }

  predicate Fits(here: Logged, f: Logged, taken: set<int>) {
    here.instance.id !in taken && SameSession(f, here)
  }

  function IdsOf(m: Match): set<int> {
    if m.Found? then {m.id} else {}
  }

  // What the first `i` of the file's sessions take.
  function Taken(files: seq<Logged>, list: seq<Logged>, i: nat): set<int>
    requires i <= |files|
    decreases i, 0
  {
    if i == 0 then {} else Taken(files, list, i - 1) + IdsOf(MatchOf(files, list, i - 1))
  }

  function MatchOf(files: seq<Logged>, list: seq<Logged>, i: nat): Match
    requires i < |files|
    decreases i, 1
  {
    First(list, files[i], Taken(files, list, i))
  }

  // No session here is matched with two of the file's.
  lemma {:induction false} MatchesOnce(files: seq<Logged>, list: seq<Logged>, i: nat, j: nat)
    requires i < j < |files| && MatchOf(files, list, i).Found? && MatchOf(files, list, j).Found?
    ensures MatchOf(files, list, i).id != MatchOf(files, list, j).id
  {
    StaysTaken(files, list, i, j);
    FirstFits(list, files[j], Taken(files, list, j));
  }

  lemma {:induction false} StaysTaken(files: seq<Logged>, list: seq<Logged>, i: nat, j: nat)
    requires i < j <= |files|
    ensures IdsOf(MatchOf(files, list, i)) <= Taken(files, list, j)
  {
    if j > i + 1 {
      StaysTaken(files, list, i, j - 1);
    }
  }

  // ---- Adding what is not here ----

  // The session as it is added: closed, at its last check-in if it was open.
  function AsAdded(f: Logged, now: int): Instance {
    if f.instance.open then
      var last := if f.last > f.instance.startedAt then f.last else f.instance.startedAt;
      f.instance.(open := false, closedAt := if last > 0 then last else now)
    else f.instance
  }

  predicate IsCopy(copy: Logged, f: Logged, now: int) {
    copy.instance == AsAdded(f, now).(id := copy.instance.id) && copy.keys == f.keys
  }

  // A session that does not end before it starts.
  predicate EndsAfterStart(i: Instance) {
    HasEnd(i) && i.startedAt > 0 ==> i.startedAt <= i.closedAt
  }

  // A session is the same as what was added for it exactly when it does not
  // end before it starts.
  lemma CopyIsSameIff(f: Logged, copy: Logged, now: int)
    requires IsCopy(copy, f, now)
    ensures SameSession(f, copy) <==> EndsAfterStart(f.instance)
  {
  }

  // Each session of the file stands apart from what would be added for any
  // other.
  ghost predicate Apart(files: seq<Logged>, now: int) {
    forall i, j, copy {:trigger SameSession(files[i], copy), IsCopy(copy, files[j], now)} ::
      0 <= i < |files| && 0 <= j < |files| && i != j && IsCopy(copy, files[j], now) ==> !SameSession(files[i], copy)
  }

  // For closed sessions that is standing apart from each other.
  lemma ClosedApart(files: seq<Logged>, now: int)
    requires forall i :: 0 <= i < |files| ==> !files[i].instance.open
    requires forall i, j :: 0 <= i < |files| && 0 <= j < |files| && i != j ==> !SameSession(files[i], files[j])
    ensures Apart(files, now)
  {
    forall i, j, copy | 0 <= i < |files| && 0 <= j < |files| && i != j && IsCopy(copy, files[j], now)
      ensures !SameSession(files[i], copy)
    {
      assert !SameSession(files[i], files[j]);
    }
  }

  // ---- The net afterwards ----

  // The sessions of `list` whose ids are in `ids`, in order.
  function Only(list: seq<Logged>, ids: set<int>): seq<Logged> {
    if list == [] then []
    else if list[0].instance.id in ids then [list[0]] + Only(list[1..], ids)
    else Only(list[1..], ids)
  }

  predicate DistinctIds(list: seq<Logged>) {
    forall i, j :: 0 <= i < j < |list| ==> list[i].instance.id != list[j].instance.id
  }

  // `after` is `list`, in its order, with a copy of each session of the file
  // not found there, among the first `upTo`, put in anywhere; `from` says
  // which session a new id is the copy of.
  predicate MergedUpTo(files: seq<Logged>, list: seq<Logged>, known: set<int>, after: seq<Logged>, from: map<int, nat>,
                       now: int, upTo: nat)
    requires upTo <= |files|
  {
    && DistinctIds(after) && AllIn(list, known) && Only(after, known) == list
    && CopiesOnly(files, list, known, after, from, now, upTo)
    && forall i :: 0 <= i < upTo && MatchOf(files, list, i).None? ==> HasCopy(after, known, from, i)
  }

  predicate CopiesOnly(files: seq<Logged>, list: seq<Logged>, known: set<int>, after: seq<Logged>, from: map<int, nat>,
                       now: int, upTo: nat)
    requires upTo <= |files|
  {
    && (forall id :: id in from ==> id !in known && from[id] < upTo && MatchOf(files, list, from[id]).None?)
    && (forall x :: x in after && x.instance.id !in known ==>
          x.instance.id in from && IsCopy(x, files[from[x.instance.id]], now))
    && (forall i, j :: i in from && j in from && from[i] == from[j] ==> i == j)
  }

  predicate Merged(files: seq<Logged>, list: seq<Logged>, known: set<int>, after: seq<Logged>, from: map<int, nat>,
                   now: int)
  {
    MergedUpTo(files, list, known, after, from, now, |files|)
  }

  lemma {:induction false} OnlyAppends(a: seq<Logged>, b: seq<Logged>, ids: set<int>)
    ensures Only(a + b, ids) == Only(a, ids) + Only(b, ids)
  {
    if a == [] {
      assert a + b == b;
    } else {
      assert (a + b)[1..] == a[1..] + b;
      OnlyAppends(a[1..], b, ids);
    }
  }

  lemma {:induction false} OnlyAll(list: seq<Logged>, ids: set<int>)
    requires AllIn(list, ids)
    ensures Only(list, ids) == list
  {
    if list != [] {
      OnlyAll(list[1..], ids);
    }
  }

  // Before anything is added.
  lemma NothingMerged(files: seq<Logged>, list: seq<Logged>, known: set<int>, now: int)
    requires DistinctIds(list) && AllIn(list, known)
    ensures MergedUpTo(files, list, known, list, map[], now, 0)
  {
    OnlyAll(list, known);
  }

  // One more copy put in.
  lemma CopyMerged(files: seq<Logged>, list: seq<Logged>, known: set<int>, after: seq<Logged>, from: map<int, nat>,
                   now: int, i: nat, x: Logged, k: nat)
    requires i < |files| && MergedUpTo(files, list, known, after, from, now, i) && k <= |after|
    requires MatchOf(files, list, i).None? && IsCopy(x, files[i], now)
    requires x.instance.id !in known && x.instance.id !in from
    requires forall j :: 0 <= j < |after| ==> after[j].instance.id != x.instance.id
    ensures MergedUpTo(files, list, known, Put(after, k, x), from[x.instance.id := i], now, i + 1)
  {
    var more, names := Put(after, k, x), from[x.instance.id := i];
    PutKeepsOld(known, after, k, x);
    PutIsDistinct(after, k, x);
    CopiesStay(files, list, known, after, from, now, i, x, k);
    forall j | 0 <= j < i + 1 && MatchOf(files, list, j).None? ensures HasCopy(more, known, names, j) {
      if j < i {
        assert HasCopy(after, known, from, j);
        var y :| y in after && y.instance.id !in known && y.instance.id in from && from[y.instance.id] == j;
        PutHolds(after, k, x, y);
      } else {
        PutHolds(after, k, x, x);
      }
    }
  }

  function Put(list: seq<Logged>, k: nat, x: Logged): seq<Logged>
    requires k <= |list|
  {
    list[..k] + [x] + list[k..]
  }

  lemma PutHolds(list: seq<Logged>, k: nat, x: Logged, y: Logged)
    requires k <= |list|
    ensures y in Put(list, k, x) <==> y in list || y == x
  {
    assert list == list[..k] + list[k..];
  }

  lemma PutIsDistinct(list: seq<Logged>, k: nat, x: Logged)
    requires DistinctIds(list) && k <= |list|
    requires forall j :: 0 <= j < |list| ==> list[j].instance.id != x.instance.id
    ensures DistinctIds(Put(list, k, x))
  {
  }

  lemma PutKeepsOld(known: set<int>, after: seq<Logged>, k: nat, x: Logged)
    requires k <= |after| && x.instance.id !in known
    ensures Only(Put(after, k, x), known) == Only(after, known)
  {
    OnlyPassesOver(known, after[..k], after[k..], x);
    assert after[..k] + after[k..] == after;
  }

  lemma OnlyPassesOver(known: set<int>, a: seq<Logged>, b: seq<Logged>, x: Logged)
    requires x.instance.id !in known
    ensures Only(a + [x] + b, known) == Only(a + b, known)
  {
    OnlyAppends(a, b, known);
    OnlyAppends(a, [x], known);
    OnlyAppends(a + [x], b, known);
    OnlyNew(known, x);
  }

  lemma OnlyNew(known: set<int>, x: Logged)
    requires x.instance.id !in known
    ensures Only([x], known) == []
  {
    assert Only([x][1..], known) == [];
  }

  lemma CopiesStay(files: seq<Logged>, list: seq<Logged>, known: set<int>, after: seq<Logged>, from: map<int, nat>,
                   now: int, i: nat, x: Logged, k: nat)
    requires i < |files| && CopiesOnly(files, list, known, after, from, now, i) && k <= |after|
    requires MatchOf(files, list, i).None? && IsCopy(x, files[i], now)
    requires x.instance.id !in known && x.instance.id !in from
    ensures CopiesOnly(files, list, known, Put(after, k, x), from[x.instance.id := i], now, i + 1)
  {
    var more, names := Put(after, k, x), from[x.instance.id := i];
    forall y | y in more && y.instance.id !in known
      ensures y.instance.id in names && IsCopy(y, files[names[y.instance.id]], now)
    {
      PutHolds(after, k, x, y);
    }
  }

  // A session found needs no copy.
  lemma NoCopyMerged(files: seq<Logged>, list: seq<Logged>, known: set<int>, after: seq<Logged>, from: map<int, nat>,
                     now: int, i: nat)
    requires i < |files| && MergedUpTo(files, list, known, after, from, now, i) && MatchOf(files, list, i).Found?
    ensures MergedUpTo(files, list, known, after, from, now, i + 1)
  {
  }

  predicate AllIn(list: seq<Logged>, ids: set<int>) {
    forall k :: 0 <= k < |list| ==> list[k].instance.id in ids
  }

  predicate HasCopy(after: seq<Logged>, known: set<int>, from: map<int, nat>, i: nat) {
    exists x :: x in after && x.instance.id !in known && x.instance.id in from && from[x.instance.id] == i
  }

  // The copies of the first `i` sessions that are the same session still.
  function CopiesBefore(files: seq<Logged>, from: map<int, nat>, i: nat): set<int>
    requires i <= |files|
  {
    set id | id in from && from[id] < i && EndsAfterStart(files[from[id]].instance)
  }

  // What is not known and does not fit is passed over.
  lemma {:induction false} FirstAmongOld(after: seq<Logged>, known: set<int>, f: Logged, taken: set<int>, more: set<int>)
    requires more !! known
    requires forall x :: x in after && x.instance.id !in known ==> !Fits(x, f, taken + more)
    ensures First(after, f, taken + more) == First(Only(after, known), f, taken)
  {
    if after != [] {
      assert after[0] in after;
      assert forall x :: x in after[1..] ==> x in after;
      FirstAmongOld(after[1..], known, f, taken, more);
      if after[0].instance.id in known {
        assert Only(after, known)[1..] == Only(after[1..], known);
      }
    }
  }

  lemma {:induction false} OnlyOld(after: seq<Logged>, known: set<int>, x: Logged)
    requires x in after && x.instance.id in known
    ensures x in Only(after, known)
  {
    if x != after[0] {
      OnlyOld(after[1..], known, x);
    }
  }

  lemma {:induction false} TakenAreHere(files: seq<Logged>, list: seq<Logged>, known: set<int>, i: nat)
    requires i <= |files| && AllIn(list, known)
    ensures Taken(files, list, i) <= known
  {
    if i > 0 {
      TakenAreHere(files, list, known, i - 1);
      var m := MatchOf(files, list, i - 1);
      FirstFits(list, files[i - 1], Taken(files, list, i - 1));
      if m.Found? {
        var k :| 0 <= k < |list| && list[k].instance.id == m.id;
      }
    }
  }

  // Second time round, a session found before is found again, and one added is
  // found to be its own copy, unless it ends before it starts.
  lemma {:induction false} SecondTime(files: seq<Logged>, list: seq<Logged>, known: set<int>, after: seq<Logged>, from: map<int, nat>,
                                      now: int, i: nat)
    requires Merged(files, list, known, after, from, now) && Apart(files, now) && i <= |files|
    ensures Taken(files, after, i) == Taken(files, list, i) + CopiesBefore(files, from, i)
  {
    if i > 0 {
      SecondTime(files, list, known, after, from, now, i - 1);
      OneMore(files, list, known, after, from, now, i - 1);
    } else {
      assert CopiesBefore(files, from, 0) == {};
    }
  }

  lemma OneMore(files: seq<Logged>, list: seq<Logged>, known: set<int>, after: seq<Logged>, from: map<int, nat>, now: int, i: nat)
    requires Merged(files, list, known, after, from, now) && Apart(files, now) && i < |files|
    requires Taken(files, after, i) == Taken(files, list, i) + CopiesBefore(files, from, i)
    ensures MatchOf(files, after, i).Found? <==> MatchOf(files, list, i).Found? || EndsAfterStart(files[i].instance)
    ensures Taken(files, after, i + 1) == Taken(files, list, i + 1) + CopiesBefore(files, from, i + 1)
  {
    if MatchOf(files, list, i).Found? {
      FoundAgain(files, list, known, after, from, now, i);
      TakenAgain(files, list, after, from, i + 1);
    } else if EndsAfterStart(files[i].instance) {
      CopyIsFound(files, list, known, after, from, now, i);
      TakenCopy(files, list, after, from, i + 1);
    } else {
      CopyIsLost(files, list, known, after, from, now, i);
      TakenNone(files, list, after, from, i + 1);
    }
  }

  lemma TakenAgain(files: seq<Logged>, list: seq<Logged>, after: seq<Logged>, from: map<int, nat>, i: nat)
    requires 0 < i <= |files| && forall id :: id in from ==> from[id] != i - 1
    requires Taken(files, after, i - 1) == Taken(files, list, i - 1) + CopiesBefore(files, from, i - 1)
    requires MatchOf(files, after, i - 1) == MatchOf(files, list, i - 1)
    ensures Taken(files, after, i) == Taken(files, list, i) + CopiesBefore(files, from, i)
  {
    forall id ensures id in CopiesBefore(files, from, i) <==> id in CopiesBefore(files, from, i - 1) {
      if id in from {
        assert from[id] != i - 1;
      }
    }
  }

  lemma TakenNone(files: seq<Logged>, list: seq<Logged>, after: seq<Logged>, from: map<int, nat>, i: nat)
    requires 0 < i <= |files| && !EndsAfterStart(files[i - 1].instance)
    requires Taken(files, after, i - 1) == Taken(files, list, i - 1) + CopiesBefore(files, from, i - 1)
    requires MatchOf(files, after, i - 1).None? && MatchOf(files, list, i - 1).None?
    ensures Taken(files, after, i) == Taken(files, list, i) + CopiesBefore(files, from, i)
  {
    forall id ensures id in CopiesBefore(files, from, i) <==> id in CopiesBefore(files, from, i - 1) {
      if id in from {
        assert from[id] == i - 1 ==> files[from[id]] == files[i - 1];
      }
    }
  }

  lemma TakenCopy(files: seq<Logged>, list: seq<Logged>, after: seq<Logged>, from: map<int, nat>, i: nat)
    requires 0 < i <= |files| && EndsAfterStart(files[i - 1].instance)
    requires forall a, b :: a in from && b in from && from[a] == from[b] ==> a == b
    requires Taken(files, after, i - 1) == Taken(files, list, i - 1) + CopiesBefore(files, from, i - 1)
    requires MatchOf(files, list, i - 1).None?
    requires var m := MatchOf(files, after, i - 1); m.Found? && m.id in from && from[m.id] == i - 1
    ensures Taken(files, after, i) == Taken(files, list, i) + CopiesBefore(files, from, i)
  {
    var m := MatchOf(files, after, i - 1);
    forall id ensures id in CopiesBefore(files, from, i) <==> id in CopiesBefore(files, from, i - 1) || id == m.id {
      if id in from && from[id] == i - 1 {
        assert from[id] == from[m.id];
      }
    }
    assert CopiesBefore(files, from, i) == CopiesBefore(files, from, i - 1) + {m.id};
  }

  lemma CopyFitsOnlyItsOwn(files: seq<Logged>, list: seq<Logged>, known: set<int>, after: seq<Logged>, from: map<int, nat>, now: int,
                           x: Logged, i: nat)
    requires Merged(files, list, known, after, from, now) && Apart(files, now) && i < |files|
    requires x in after && x.instance.id !in known
    ensures SameSession(files[i], x) ==> from[x.instance.id] == i
  {
    assert IsCopy(x, files[from[x.instance.id]], now);
  }

  lemma FoundAgain(files: seq<Logged>, list: seq<Logged>, known: set<int>, after: seq<Logged>, from: map<int, nat>, now: int, i: nat)
    requires Merged(files, list, known, after, from, now) && Apart(files, now) && i < |files|
    requires Taken(files, after, i) == Taken(files, list, i) + CopiesBefore(files, from, i)
    requires MatchOf(files, list, i).Found?
    ensures MatchOf(files, after, i) == MatchOf(files, list, i)
    ensures forall id :: id in from ==> from[id] != i
  {
    var taken, more := Taken(files, list, i), CopiesBefore(files, from, i);
    forall x | x in after && x.instance.id !in known ensures !Fits(x, files[i], taken + more) {
      CopyFitsOnlyItsOwn(files, list, known, after, from, now, x, i);
    }
    forall id | id in more ensures id !in known {
      assert id in from;
    }
    FirstAmongOld(after, known, files[i], taken, more);
  }

  lemma KnownDoesNotFit(files: seq<Logged>, list: seq<Logged>, known: set<int>, after: seq<Logged>, i: nat, x: Logged)
    requires Only(after, known) == list && i < |files| && MatchOf(files, list, i).None? && x in after
    ensures x.instance.id in known ==> !Fits(x, files[i], Taken(files, list, i))
  {
    if x.instance.id in known {
      OnlyOld(after, known, x);
      FirstFits(list, files[i], Taken(files, list, i));
      var h :| 0 <= h < |list| && list[h] == x;
      assert !Fits(list[h], files[i], Taken(files, list, i));
    }
  }

  lemma CopyIsFound(files: seq<Logged>, list: seq<Logged>, known: set<int>, after: seq<Logged>, from: map<int, nat>, now: int, i: nat)
    requires Merged(files, list, known, after, from, now) && Apart(files, now) && i < |files|
    requires EndsAfterStart(files[i].instance)
    requires Taken(files, after, i) == Taken(files, list, i) + CopiesBefore(files, from, i)
    requires MatchOf(files, list, i).None?
    ensures MatchOf(files, after, i).Found? && MatchOf(files, after, i).id in from && from[MatchOf(files, after, i).id] == i
  {
    var taken, more := Taken(files, list, i), CopiesBefore(files, from, i);
    TakenAreHere(files, list, known, i);
    assert HasCopy(after, known, from, i);
    var x :| x in after && x.instance.id !in known && x.instance.id in from && from[x.instance.id] == i;
    CopyIsSameIff(files[i], x, now);
    assert x.instance.id !in taken && x.instance.id !in more;
    var k :| 0 <= k < |after| && after[k] == x;
    assert Fits(after[k], files[i], taken + more);
    FirstFits(after, files[i], taken + more);
    var m := MatchOf(files, after, i);
    assert m.Found?;
    var j :| 0 <= j < |after| && Fits(after[j], files[i], taken + more) && after[j].instance.id == m.id;
    assert after[j] in after;
    KnownDoesNotFit(files, list, known, after, i, after[j]);
    CopyFitsOnlyItsOwn(files, list, known, after, from, now, after[j], i);
  }

  // Nothing fits a session that ends before it starts, not even its copy.
  lemma CopyIsLost(files: seq<Logged>, list: seq<Logged>, known: set<int>, after: seq<Logged>, from: map<int, nat>, now: int, i: nat)
    requires Merged(files, list, known, after, from, now) && Apart(files, now) && i < |files|
    requires !EndsAfterStart(files[i].instance)
    requires Taken(files, after, i) == Taken(files, list, i) + CopiesBefore(files, from, i)
    requires MatchOf(files, list, i).None?
    ensures MatchOf(files, after, i).None?
  {
    var taken, more := Taken(files, list, i), CopiesBefore(files, from, i);
    forall x | x in after ensures !Fits(x, files[i], taken + more) {
      KnownDoesNotFit(files, list, known, after, i, x);
      if x.instance.id !in known && SameSession(files[i], x) {
        CopyFitsOnlyItsOwn(files, list, known, after, from, now, x, i);
        CopyIsSameIff(files[i], x, now);
      }
    }
    FirstFits(after, files[i], taken + more);
  }

  // Merging twice adds nothing the second time exactly if no session added the
  // first time ends before it starts.
  lemma MergingIsIdempotent(files: seq<Logged>, list: seq<Logged>, known: set<int>, after: seq<Logged>, from: map<int, nat>, now: int)
    requires Merged(files, list, known, after, from, now) && Apart(files, now)
    ensures forall i :: 0 <= i < |files| ==>
              (MatchOf(files, after, i).Found? <==> MatchOf(files, list, i).Found? || EndsAfterStart(files[i].instance))
    ensures (forall i :: 0 <= i < |files| ==> MatchOf(files, after, i).Found?)
            <==> (forall i :: 0 <= i < |files| && MatchOf(files, list, i).None? ==> EndsAfterStart(files[i].instance))
  {
    forall i | 0 <= i < |files|
      ensures MatchOf(files, after, i).Found? <==> MatchOf(files, list, i).Found? || EndsAfterStart(files[i].instance)
    {
      SecondTime(files, list, known, after, from, now, i);
      OneMore(files, list, known, after, from, now, i);
    }
  }

  // It happens with one session, merged into a net that has nothing.
  lemma OneSessionIff(f: Logged, copy: Logged, now: int)
    requires IsCopy(copy, f, now)
    ensures MatchOf([f], [], 0).None?
    ensures MatchOf([f], [copy], 0).Found? <==> EndsAfterStart(f.instance)
  {
    CopyIsSameIff(f, copy, now);
    assert Taken([f], [copy], 0) == {};
    FirstFits([copy], f, {});
    assert Fits([copy][0], f, {}) <==> EndsAfterStart(f.instance);
  }
}
