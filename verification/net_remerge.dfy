// Merging the same file again: what is found of it the second time, told from
// the file and what was here, since both are listed in one order.
module NetRemerging {
  import opened CheckInKeys
  import opened NetListing
  import opened NetMatching

  predicate NoneReversed(files: seq<Logged>) {
    forall i :: 0 <= i < |files| ==> EndsAfterStart(files[i].instance)
  }

  // ---- Into a net that has nothing ----

  predicate SamePlace(a: Instance, b: Instance) {
    a.date == b.date && a.startedAt == b.startedAt
  }

  // A session and a copy with its date and start are the same, if neither ends
  // before it starts.
  lemma PlaceTells(f: Logged, copy: Logged, other: Logged, now: int)
    requires IsCopy(copy, other, now) && EndsAfterStart(f.instance) && EndsAfterStart(other.instance)
    requires SamePlace(f.instance, copy.instance) && (f.instance.startedAt > 0 || f.keys == copy.keys)
    ensures SameSession(f, copy)
  {
  }

  // Where the copy of each session is.
  predicate AreCopies(files: seq<Logged>, after: seq<Logged>, from: map<int, nat>, to: seq<nat>) {
    |to| <= |files| && forall i :: 0 <= i < |to| ==>
      to[i] < |after| && after[to[i]].instance.id in from && from[after[to[i]].instance.id] == i
  }

  lemma NothingMatches(files: seq<Logged>, i: nat)
    requires i < |files|
    ensures MatchOf(files, [], i).None?
  {
    assert First([], files[i], Taken(files, [], i)) == None;
  }

  lemma CopiesAre(files: seq<Logged>, after: seq<Logged>, from: map<int, nat>, now: int) returns (to: seq<nat>)
    requires Merged(files, [], {}, after, from, now)
    ensures |to| == |files| == |after| && OneToOne(to) && AreCopies(files, after, from, to)
  {
    to := [];
    while |to| < |files|
      invariant AreCopies(files, after, from, to)
    {
      var i := |to|;
      NothingMatches(files, i);
      assert HasCopy(after, {}, from, i);
      var x :| x in after && x.instance.id in from && from[x.instance.id] == i;
      var k: nat :| k < |after| && after[k] == x;
      to := to + [k];
    }
    var count := Count(to, |after|);
    AsManyAs(files, after, from, now);
  }

  // Each one here is the copy of another.
  lemma AsManyAs(files: seq<Logged>, after: seq<Logged>, from: map<int, nat>, now: int)
    requires Merged(files, [], {}, after, from, now)
    ensures |after| <= |files|
  {
    var back: seq<nat> := seq(|after|, x requires 0 <= x < |after| =>
      if after[x].instance.id in from then from[after[x].instance.id] else 0);
    forall x | 0 <= x < |after| ensures after[x].instance.id in from && back[x] == from[after[x].instance.id] < |files| {
      assert after[x] in after;
    }
    forall x, y | 0 <= x < y < |back| ensures back[x] != back[y] {
      assert after[x].instance.id != after[y].instance.id;
    }
    var count := Count(back, |files|);
  }

  // What is listed between two of one date and start has them too.
  lemma BetweenIsSame(a: Instance, b: Instance, c: Instance, d: Instance)
    requires SamePlace(a, b) && SamePlace(c, d) && Newer(a, c) && (d == b || Newer(d, b))
    ensures SamePlace(a, c)
  {
    DatesTell(a.date, c.date);
  }

  // Copies of the same date and start can stand in for each other.
  lemma StandIn(f: Logged, later: Logged, first: Logged, copy: Logged, other: Logged, now: int)
    requires Newer(f.instance, later.instance) && (first == copy || Newer(first.instance, copy.instance))
    requires SamePlace(f.instance, copy.instance) && SamePlace(later.instance, first.instance)
    requires SameSession(f, copy) && SameSession(later, first) && SameSession(f, first)
    requires IsCopy(copy, other, now) && EndsAfterStart(later.instance) && EndsAfterStart(other.instance)
    ensures SamePlace(f.instance, first.instance) && SamePlace(later.instance, copy.instance) && SameSession(later, copy)
  {
    BetweenIsSame(f.instance, copy.instance, later.instance, first.instance);
    PlaceTells(later, copy, other, now);
  }

  predicate SameAndPlaced(files: seq<Logged>, after: seq<Logged>, i: int, x: int) {
    0 <= i < |files| && 0 <= x < |after| && SameSession(files[i], after[x]) && SamePlace(files[i].instance, after[x].instance)
  }

  // Each one here is a copy of some session of the file.
  predicate AllCopies(files: seq<Logged>, after: seq<Logged>, from: map<int, nat>, now: int) {
    forall x :: 0 <= x < |after| ==> IsCopyOfOne(files, after[x], from, now)
  }

  predicate IsCopyOfOne(files: seq<Logged>, x: Logged, from: map<int, nat>, now: int) {
    x.instance.id in from && from[x.instance.id] < |files| && IsCopy(x, files[from[x.instance.id]], now)
  }

  lemma PlacedExchange(files: seq<Logged>, after: seq<Logged>, from: map<int, nat>, now: int, k: nat, j: nat, g: nat, c: nat)
    requires AllCopies(files, after, from, now) && Listed(files) && Listed(after) && NoneReversed(files)
    requires k < j && g <= c && SameAndPlaced(files, after, k, c) && SameAndPlaced(files, after, j, g)
    requires SameSession(files[k], after[g])
    ensures SameAndPlaced(files, after, k, g) && SameAndPlaced(files, after, j, c)
  {
    assert IsCopyOfOne(files, after[c], from, now);
    StandIn(files[k], files[j], after[g], after[c], files[from[after[c].instance.id]], now);
  }

  lemma PlacesExchange(files: seq<Logged>, after: seq<Logged>, from: map<int, nat>, now: int, rel: (int, int) -> bool)
    requires AllCopies(files, after, from, now) && Listed(files) && Listed(after) && NoneReversed(files)
    requires forall i, x :: rel(i, x) <==> SameAndPlaced(files, after, i, x)
    ensures Exchanges(files, after, rel)
  {
    forall k, j, g, c | 0 <= k < j < |files| && 0 <= g <= c < |after| && rel(k, c) && rel(j, g) && SameSession(files[k], after[g])
      ensures rel(k, g) && rel(j, c)
    {
      PlacedExchange(files, after, from, now, k, j, g, c);
    }
  }

  // With no session that ends before it starts, all are found again, open
  // ones, ones that overlap and ones without times included.
  lemma EmptyFindsAll(files: seq<Logged>, after: seq<Logged>, from: map<int, nat>, now: int)
    requires Merged(files, [], {}, after, from, now) && Listed(files) && Listed(after) && NoneReversed(files)
    ensures AllFound(files, after)
  {
    var to := CopiesAre(files, after, from, now);
    var rel := (i: int, x: int) => SameAndPlaced(files, after, i, x);
    CopiesOfOne(files, after, from, now);
    forall i | 0 <= i < |to| ensures SameAndPlaced(files, after, i, to[i]) {
      assert IsCopyOfOne(files, after[to[i]], from, now);
      CopyIsSameIff(files[i], after[to[i]], now);
    }
    PlacesExchange(files, after, from, now, rel);
    var end := FirstFitsFind(files, after, to, 0, rel);
  }

  lemma CopiesOfOne(files: seq<Logged>, after: seq<Logged>, from: map<int, nat>, now: int)
    requires Merged(files, [], {}, after, from, now)
    ensures AllCopies(files, after, from, now)
  {
    forall x | 0 <= x < |after| ensures IsCopyOfOne(files, after[x], from, now) {
      assert after[x] in after;
    }
  }

  // One that ends before it starts stands apart from what is added for the
  // others.
  ghost predicate ReversedApart(files: seq<Logged>, now: int) {
    forall i, j, copy {:trigger SameSession(files[i], copy), IsCopy(copy, files[j], now)} ::
      0 <= i < |files| && 0 <= j < |files| && i != j && IsCopy(copy, files[j], now) ==>
        EndsAfterStart(files[i].instance) || !SameSession(files[i], copy)
  }

  // Into an empty net, a file whose reversed sessions overlap no other comes
  // back whole exactly if it has none.
  lemma EmptyIff(files: seq<Logged>, after: seq<Logged>, from: map<int, nat>, now: int)
    requires Merged(files, [], {}, after, from, now) && Listed(files) && Listed(after) && ReversedApart(files, now)
    ensures AllFound(files, after) <==> NoneReversed(files)
  {
    if NoneReversed(files) {
      EmptyFindsAll(files, after, from, now);
    }
    if AllFound(files, after) {
      CopiesOfOne(files, after, from, now);
      forall i | 0 <= i < |files| ensures EndsAfterStart(files[i].instance) {
        var x := FoundAt(files, after, i);
        assert IsCopyOfOne(files, after[x], from, now);
        FoundIsNotReversed(files, after[x], from[after[x].instance.id], i, now);
      }
    }
  }

  lemma FoundIsNotReversed(files: seq<Logged>, copy: Logged, j: nat, i: nat, now: int)
    requires ReversedApart(files, now) && i < |files| && j < |files|
    requires IsCopy(copy, files[j], now) && SameSession(files[i], copy)
    ensures EndsAfterStart(files[i].instance)
  {
    if i == j {
      CopyIsSameIff(files[i], copy, now);
    }
  }

  // ---- Into a net that has sessions, all with their times ----

  // A later date does not start earlier.
  predicate Follows(a: Instance, b: Instance) {
    a.date != b.date && AtMost(b.date, a.date) ==> a.startedAt >= b.startedAt
  }

  predicate DatesFollow(list: seq<Logged>) {
    forall i, j :: 0 <= i < |list| && 0 <= j < |list| ==> Follows(list[i].instance, list[j].instance)
  }

  lemma ListedByStart(list: seq<Logged>)
    requires Listed(list) && DatesFollow(list)
    ensures ByStart(list)
  {
    forall i, j | 0 <= i < j < |list| ensures list[i].instance.startedAt >= list[j].instance.startedAt {
      assert Newer(list[i].instance, list[j].instance) && Follows(list[i].instance, list[j].instance);
    }
  }

  lemma {:induction false} OnlyHolds(after: seq<Logged>, known: set<int>, x: Logged)
    ensures x in Only(after, known) <==> x in after && x.instance.id in known
  {
    if after != [] {
      OnlyHolds(after[1..], known, x);
      assert x in after <==> x == after[0] || x in after[1..];
    }
  }

  // What is here afterwards was here or is a copy of a session of the file.
  lemma SourceOf(files: seq<Logged>, list: seq<Logged>, known: set<int>, after: seq<Logged>, from: map<int, nat>, now: int, x: nat)
    returns (source: nat)
    requires Merged(files, list, known, after, from, now) && x < |after| && AllTimed(files + list)
    ensures source < |files + list| && SamePlace((files + list)[source].instance, after[x].instance)
    ensures Timed(after[x].instance)
  {
    assert after[x] in after;
    if after[x].instance.id in known {
      OnlyHolds(after, known, after[x]);
      var y: nat :| y < |list| && list[y] == after[x];
      source := |files| + y;
    } else {
      source := from[after[x].instance.id];
      assert IsCopy(after[x], files[source], now);
    }
    assert Timed((files + list)[source].instance);
  }

  lemma AfterFollows(files: seq<Logged>, list: seq<Logged>, known: set<int>, after: seq<Logged>, from: map<int, nat>, now: int)
    requires Merged(files, list, known, after, from, now) && AllTimed(files + list) && DatesFollow(files + list)
    ensures AllTimed(after) && DatesFollow(after)
  {
    forall i | 0 <= i < |after| ensures Timed(after[i].instance) {
      var a := SourceOf(files, list, known, after, from, now, i);
    }
    forall i, j | 0 <= i < |after| && 0 <= j < |after| ensures Follows(after[i].instance, after[j].instance) {
      var a := SourceOf(files, list, known, after, from, now, i);
      var b := SourceOf(files, list, known, after, from, now, j);
      assert Follows((files + list)[a].instance, (files + list)[b].instance);
    }
  }

  lemma AllByStart(files: seq<Logged>, list: seq<Logged>, known: set<int>, after: seq<Logged>, from: map<int, nat>, now: int)
    requires Merged(files, list, known, after, from, now) && Listed(files) && Listed(after)
    requires AllTimed(files + list) && DatesFollow(files + list)
    ensures AllTimed(files) && AllTimed(after) && ByStart(files) && ByStart(after)
  {
    AfterFollows(files, list, known, after, from, now);
    ListedByStart(after);
    forall i | 0 <= i < |files| ensures Timed(files[i].instance) {
      assert Timed((files + list)[i].instance);
    }
    forall i, j | 0 <= i < |files| && 0 <= j < |files| ensures Follows(files[i].instance, files[j].instance) {
      assert Follows((files + list)[i].instance, (files + list)[j].instance);
    }
    ListedByStart(files);
  }

  // Of timed sessions all are found again exactly if each can be given one
  // here that is the same.
  lemma TimedMergeIff(files: seq<Logged>, list: seq<Logged>, known: set<int>, after: seq<Logged>, from: map<int, nat>, now: int)
    requires Merged(files, list, known, after, from, now) && Listed(files) && Listed(after)
    requires AllTimed(files + list) && DatesFollow(files + list)
    ensures AllFound(files, after) <==> Assignable(files, after)
  {
    AllByStart(files, list, known, after, from, now);
    TimedIff(files, after);
  }

  predicate AddedNotReversed(files: seq<Logged>, list: seq<Logged>) {
    forall i :: 0 <= i < |files| && MatchOf(files, list, i).None? ==> EndsAfterStart(files[i].instance)
  }

  // Where a session is: where it was found, or its copy.
  predicate IsAt(files: seq<Logged>, list: seq<Logged>, known: set<int>, after: seq<Logged>, from: map<int, nat>, i: nat, x: nat)
    requires i < |files|
  {
    && x < |after| && SameSession(files[i], after[x])
    && var m, id := MatchOf(files, list, i), after[x].instance.id;
       if m.Found? then id == m.id && id in known else id !in known && id in from && from[id] == i
  }

  lemma PlaceOf(files: seq<Logged>, list: seq<Logged>, known: set<int>, after: seq<Logged>, from: map<int, nat>, now: int, i: nat)
    returns (x: nat)
    requires Merged(files, list, known, after, from, now) && AddedNotReversed(files, list) && i < |files|
    ensures IsAt(files, list, known, after, from, i, x)
  {
    if MatchOf(files, list, i).Found? {
      var y := FoundAt(files, list, i);
      OnlyHolds(after, known, list[y]);
      x :| x < |after| && after[x] == list[y];
    } else {
      assert HasCopy(after, known, from, i);
      var copy :| copy in after && copy.instance.id !in known && copy.instance.id in from && from[copy.instance.id] == i;
      CopyIsSameIff(files[i], copy, now);
      x :| x < |after| && after[x] == copy;
    }
  }

  lemma PlacesDiffer(files: seq<Logged>, list: seq<Logged>, known: set<int>, after: seq<Logged>, from: map<int, nat>, i: nat, j: nat, x: nat)
    requires i < j < |files|
    requires IsAt(files, list, known, after, from, i, x)
    ensures !IsAt(files, list, known, after, from, j, x)
  {
    if MatchOf(files, list, i).Found? && MatchOf(files, list, j).Found? {
      MatchesOnce(files, list, i, j);
    }
  }

  // With no session added that ends before it starts, each can.
  lemma AllHaveAPlace(files: seq<Logged>, list: seq<Logged>, known: set<int>, after: seq<Logged>, from: map<int, nat>, now: int)
    requires Merged(files, list, known, after, from, now) && AddedNotReversed(files, list)
    ensures Assignable(files, after)
  {
    var to: seq<nat> := [];
    while |to| < |files|
      invariant |to| <= |files| && forall i :: 0 <= i < |to| ==> IsAt(files, list, known, after, from, i, to[i])
    {
      var x := PlaceOf(files, list, known, after, from, now, |to|);
      to := to + [x];
    }
    forall i, j | 0 <= i < j < |to| ensures to[i] != to[j] {
      PlacesDiffer(files, list, known, after, from, i, j, to[i]);
    }
    assert Assigns(files, after, to);
  }

  // Then timed sessions are all found again, whatever else is here and however
  // they overlap.
  lemma TimedFindsAll(files: seq<Logged>, list: seq<Logged>, known: set<int>, after: seq<Logged>, from: map<int, nat>, now: int)
    requires Merged(files, list, known, after, from, now) && Listed(files) && Listed(after)
    requires AllTimed(files + list) && DatesFollow(files + list) && AddedNotReversed(files, list)
    ensures AllFound(files, after)
  {
    AllHaveAPlace(files, list, known, after, from, now);
    TimedMergeIff(files, list, known, after, from, now);
  }

  // ---- All of it ----

  // What merging the file again finds: into a net that had nothing, all of it,
  // if no session ends before it starts; of timed sessions all exactly if they
  // can be assigned, as they can if none was added that ends before it starts;
  // and of sessions that stand apart each one that was found before or does not
  // end before it starts.
  ghost predicate Remerged(files: seq<Logged>, list: seq<Logged>, after: seq<Logged>, now: int) {
    && (list == [] && NoneReversed(files) ==> AllFound(files, after))
    && (list == [] && ReversedApart(files, now) ==> (AllFound(files, after) <==> NoneReversed(files)))
    && (AllTimed(files + list) && DatesFollow(files + list) ==> (AllFound(files, after) <==> Assignable(files, after)))
    && (AllTimed(files + list) && DatesFollow(files + list) && AddedNotReversed(files, list) ==> AllFound(files, after))
    && (Apart(files, now) ==> forall i :: 0 <= i < |files| ==>
          (MatchOf(files, after, i).Found? <==> MatchOf(files, list, i).Found? || EndsAfterStart(files[i].instance)))
  }

  lemma RemergingFinds(files: seq<Logged>, list: seq<Logged>, known: set<int>, after: seq<Logged>, from: map<int, nat>, now: int)
    requires Merged(files, list, known, after, from, now) && Listed(files) && Listed(after)
    requires list == [] ==> known == {}
    ensures Remerged(files, list, after, now)
  {
    if list == [] {
      IntoEmpty(files, after, from, now);
    }
    if AllTimed(files + list) && DatesFollow(files + list) {
      TimedMergeIff(files, list, known, after, from, now);
      if AddedNotReversed(files, list) {
        TimedFindsAll(files, list, known, after, from, now);
      }
    }
    if Apart(files, now) {
      MergingIsIdempotent(files, list, known, after, from, now);
    }
  }

  lemma IntoEmpty(files: seq<Logged>, after: seq<Logged>, from: map<int, nat>, now: int)
    requires Merged(files, [], {}, after, from, now) && Listed(files) && Listed(after)
    ensures NoneReversed(files) ==> AllFound(files, after)
    ensures ReversedApart(files, now) ==> (AllFound(files, after) <==> NoneReversed(files))
  {
    if NoneReversed(files) {
      EmptyFindsAll(files, after, from, now);
    }
    if ReversedApart(files, now) {
      EmptyIff(files, after, from, now);
    }
  }
}
