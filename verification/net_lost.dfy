// Files of which a session is added again by a second merge, though none of
// them ends before it starts.
module NetLost {
  import opened CheckInKeys
  import opened NetListing
  import opened NetMatching
  import opened NetRemerging

  const DAY: string := "2000-01-01"
  const DAY_BEFORE: string := "1999-12-31"

  function Session(id: int, date: string, start: int, end: int, keys: seq<string>): Logged {
    Logged(Instance(id, date, start, end, false, ""), keys, 0)
  }

  // The next session's match, at `k` in the listing or nowhere.
  lemma MatchIs(files: seq<Logged>, list: seq<Logged>, i: nat, taken: set<int>, k: nat)
    requires i < |files| && k <= |list| && Taken(files, list, i) == taken
    requires forall j :: 0 <= j < k ==> !Fits(list[j], files[i], taken)
    requires k < |list| ==> Fits(list[k], files[i], taken)
    ensures MatchOf(files, list, i) == if k < |list| then Found(list[k].instance.id) else None
    ensures Taken(files, list, i + 1) == taken + if k < |list| then {list[k].instance.id} else {}
  {
    FirstIs(list, k, files[i], taken);
  }

  // ---- A session without times ----

  // The one here has no start. The first of the file, which has no end, is it
  // by its check-ins.
  function OneUntimed(): seq<Logged> {
    [Session(100, DAY, 0, 0, ["a"])]
  }

  function NoEndFirst(): seq<Logged> {
    [Session(4, DAY, 3410, 0, ["a"]), Session(3, DAY, 2964, 3797, ["b"]), Session(2, DAY, 1710, 3599, ["c"]),
     Session(1, DAY, 1429, 1430, ["d"])]
  }

  function AfterNoEnd(): seq<Logged> {
    [Session(101, DAY, 2964, 3797, ["b"]), Session(102, DAY, 1710, 3599, ["c"]), Session(103, DAY, 1429, 1430, ["d"]),
     Session(100, DAY, 0, 0, ["a"])]
  }

  lemma FirstPlan()
    ensures MatchOf(NoEndFirst(), OneUntimed(), 0) == Found(100)
    ensures forall i :: 1 <= i < 4 ==> MatchOf(NoEndFirst(), OneUntimed(), i).None?
  {
    var files, list := NoEndFirst(), OneUntimed();
    MatchIs(files, list, 0, {}, 0);
    MatchIs(files, list, 1, {100}, 1);
    MatchIs(files, list, 2, {100}, 1);
    MatchIs(files, list, 3, {100}, 1);
  }

  lemma SecondPlan()
    ensures MatchOf(NoEndFirst(), AfterNoEnd(), 0) == Found(101)
    ensures MatchOf(NoEndFirst(), AfterNoEnd(), 1) == Found(102)
    ensures MatchOf(NoEndFirst(), AfterNoEnd(), 2).None?
    ensures MatchOf(NoEndFirst(), AfterNoEnd(), 3) == Found(103)
  {
    var files, list := NoEndFirst(), AfterNoEnd();
    MatchIs(files, list, 0, {}, 0);
    MatchIs(files, list, 1, {101}, 1);
    MatchIs(files, list, 2, {101, 102}, 4);
    MatchIs(files, list, 3, {101, 102}, 2);
  }

  lemma NoEndCopies(now: int)
    ensures CopiesOnly(NoEndFirst(), OneUntimed(), {100}, AfterNoEnd(), map[101 := 1, 102 := 2, 103 := 3], now, 4)
  {
    var files, after := NoEndFirst(), AfterNoEnd();
    FirstPlan();
    assert IsCopy(after[0], files[1], now) && IsCopy(after[1], files[2], now) && IsCopy(after[2], files[3], now);
  }

  lemma HasCopyAt(after: seq<Logged>, known: set<int>, from: map<int, nat>, k: nat, i: nat)
    requires k < |after| && after[k].instance.id !in known
    requires after[k].instance.id in from && from[after[k].instance.id] == i
    ensures HasCopy(after, known, from, i)
  {
    assert after[k] in after;
  }

  lemma NoEndMerged(now: int)
    ensures Merged(NoEndFirst(), OneUntimed(), {100}, AfterNoEnd(), map[101 := 1, 102 := 2, 103 := 3], now)
  {
    var after, from := AfterNoEnd(), map[101 := 1, 102 := 2, 103 := 3];
    FirstPlan();
    NoEndCopies(now);
    OnlyLast(after, 3, {100});
    HasCopyAt(after, {100}, from, 0, 1);
    HasCopyAt(after, {100}, from, 1, 2);
    HasCopyAt(after, {100}, from, 2, 3);
    NoEndDistinct();
  }

  lemma NoEndDistinct()
    ensures DistinctIds(AfterNoEnd())
  {
  }

  // Sessions of one day are listed by their starts.
  lemma OneDayListed(list: seq<Logged>)
    requires forall i :: 0 <= i < |list| ==> list[i].instance.date == DAY
    requires forall i, j :: 0 <= i < j < |list| ==> list[i].instance.startedAt > list[j].instance.startedAt
    ensures Listed(list)
  {
  }

  lemma {:induction false} OnlyLast(after: seq<Logged>, k: nat, known: set<int>)
    requires |after| == k + 1 && after[k].instance.id in known
    requires forall j :: 0 <= j < k ==> after[j].instance.id !in known
    ensures Only(after, known) == [after[k]]
  {
    if k > 0 {
      OnlyLast(after[1..], k - 1, known);
    } else {
      assert Only(after[1..], known) == [];
    }
  }

  lemma NoEndListed()
    ensures Listed(NoEndFirst()) && Listed(AfterNoEnd()) && NoneReversed(NoEndFirst())
  {
    OneDayListed(NoEndFirst());
    OneDayListed(AfterNoEnd());
  }

  // The first takes what was added for the second, and so on: the third is
  // added again.
  lemma UntimedIsLost(now: int)
    ensures Listed(NoEndFirst()) && Listed(AfterNoEnd()) && NoneReversed(NoEndFirst())
    ensures Merged(NoEndFirst(), OneUntimed(), {100}, AfterNoEnd(), map[101 := 1, 102 := 2, 103 := 3], now)
    ensures !AllFound(NoEndFirst(), AfterNoEnd())
  {
    NoEndMerged(now);
    SecondPlan();
    NoEndListed();
  }

  // ---- A date later than the start tells ----

  function OneEarly(): seq<Logged> {
    [Session(100, DAY_BEFORE, 5, 9, [])]
  }

  function LateFirst(): seq<Logged> {
    [Session(2, DAY, 9, 15, []), Session(1, DAY_BEFORE, 12, 12, [])]
  }

  function AfterLate(): seq<Logged> {
    [Session(101, DAY_BEFORE, 12, 12, []), Session(100, DAY_BEFORE, 5, 9, [])]
  }

  lemma LateMerged(now: int)
    ensures Merged(LateFirst(), OneEarly(), {100}, AfterLate(), map[101 := 1], now)
  {
    var files, list, after := LateFirst(), OneEarly(), AfterLate();
    MatchIs(files, list, 0, {}, 0);
    MatchIs(files, list, 1, {100}, 1);
    OnlyLast(after, 1, {100});
    HasCopyAt(after, {100}, map[101 := 1], 0, 1);
  }

  // Two timed sessions, of which the one with the later date starts first.
  lemma WrongDateIsLost(now: int)
    ensures Listed(LateFirst()) && Listed(AfterLate()) && AllTimed(LateFirst() + OneEarly()) && NoneReversed(LateFirst())
    ensures Merged(LateFirst(), OneEarly(), {100}, AfterLate(), map[101 := 1], now)
    ensures !AllFound(LateFirst(), AfterLate())
  {
    var files, after := LateFirst(), AfterLate();
    LateMerged(now);
    MatchIs(files, after, 0, {}, 0);
    MatchIs(files, after, 1, {101}, 2);
  }

  // ---- One that ends before it starts and is found all the same ----

  function ReversedFirst(): seq<Logged> {
    [Session(2, DAY, 10, 5, []), Session(1, DAY, 1, 20, [])]
  }

  function AfterReversed(): seq<Logged> {
    [Session(101, DAY, 10, 5, []), Session(102, DAY, 1, 20, [])]
  }

  lemma ReversedMerged(now: int)
    ensures Merged(ReversedFirst(), [], {}, AfterReversed(), map[101 := 0, 102 := 1], now)
  {
    var files, after, from := ReversedFirst(), AfterReversed(), map[101 := 0, 102 := 1];
    NothingMatches(files, 0);
    NothingMatches(files, 1);
    OnlyNone(after);
    HasCopyAt(after, {}, from, 0, 0);
    HasCopyAt(after, {}, from, 1, 1);
  }

  lemma {:induction false} OnlyNone(after: seq<Logged>)
    ensures Only(after, {}) == []
  {
    if after != [] {
      OnlyNone(after[1..]);
    }
  }

  // Each is found in what was added for the other.
  lemma ReversedIsFound(now: int)
    ensures Listed(ReversedFirst()) && Listed(AfterReversed()) && !NoneReversed(ReversedFirst())
    ensures Merged(ReversedFirst(), [], {}, AfterReversed(), map[101 := 0, 102 := 1], now)
    ensures AllFound(ReversedFirst(), AfterReversed())
  {
    var files, after := ReversedFirst(), AfterReversed();
    ReversedMerged(now);
    MatchIs(files, after, 0, {}, 1);
    MatchIs(files, after, 1, {102}, 0);
  }
}
