// The one order in which a net's sessions are listed, in a file and here, and
// what it does for matching: the first session that fits is always one that
// can be spared.
module NetListing {
  import opened CheckInKeys
  import opened NetMatching

  // ---- The order ----

  // Listed first: the later date, then the later start, then the greater id.
  predicate Newer(a: Instance, b: Instance) {
    if a.date != b.date then AtMost(b.date, a.date)
    else if a.startedAt != b.startedAt then a.startedAt > b.startedAt
    else a.id > b.id
  }

  predicate InOrder(sessions: seq<Instance>) {
    forall i, j :: 0 <= i < j < |sessions| ==> Newer(sessions[i], sessions[j])
  }

  lemma NewerTotal(a: Instance, b: Instance)
    requires a.id != b.id
    ensures Newer(a, b) != Newer(b, a)
  {
    AtMostTotal(a.date, b.date);
  }

  lemma NewerTransitive(a: Instance, b: Instance, c: Instance)
    requires Newer(a, b) && Newer(b, c)
    ensures Newer(a, c)
  {
    if a.date != b.date && b.date != c.date {
      AtMostTransitive(c.date, b.date, a.date);
      AtMostTotal(a.date, b.date);
    }
  }

  lemma DatesTell(a: string, b: string)
    ensures AtMost(a, b) && AtMost(b, a) ==> a == b
  {
    AtMostTotal(a, b);
  }

  // There is a place for one more.
  lemma PlaceFor(sessions: seq<Instance>, x: Instance) returns (at: nat)
    requires InOrder(sessions) && forall k :: 0 <= k < |sessions| ==> sessions[k].id != x.id
    ensures at <= |sessions| && InOrder(sessions[..at] + [x] + sessions[at..])
  {
    at := 0;
    while at < |sessions| && !Newer(x, sessions[at])
      invariant at <= |sessions| && forall j :: 0 <= j < at ==> Newer(sessions[j], x)
    {
      NewerTotal(x, sessions[at]);
      at := at + 1;
    }
    forall j | at <= j < |sessions| ensures Newer(x, sessions[j]) {
      if j > at {
        NewerTransitive(x, sessions[at], sessions[j]);
      }
    }
  }

  lemma NotBoth(a: Instance, b: Instance)
    ensures !(Newer(a, b) && Newer(b, a))
  {
    AtMostTotal(a.date, b.date);
  }

  // The same sessions are listed in one way only.
  lemma {:induction false} OneListing(a: seq<Instance>, b: seq<Instance>)
    requires InOrder(a) && InOrder(b) && multiset(a) == multiset(b)
    ensures a == b
  {
    if a == [] {
      assert |b| == |multiset(b)| == 0;
    } else {
      assert a[0] in multiset(b) && b[0] in multiset(a);
      if a[0] != b[0] {
        var i :| 0 <= i < |b| && b[i] == a[0];
        var j :| 0 <= j < |a| && a[j] == b[0];
        NotBoth(a[0], b[0]);
      }
      assert a == [a[0]] + a[1..] && b == [b[0]] + b[1..];
      assert multiset(a[1..]) == multiset(a) - multiset{a[0]} == multiset(b[1..]);
      OneListing(a[1..], b[1..]);
    }
  }

  predicate Listed(list: seq<Logged>) {
    forall i, j :: 0 <= i < j < |list| ==> Newer(list[i].instance, list[j].instance)
  }

  // ---- Taking the first that fits ----

  // Each of the file's sessions with one here that is the same, no two with
  // one.
  predicate Assigns(files: seq<Logged>, list: seq<Logged>, to: seq<nat>) {
    && |to| == |files| && OneToOne(to)
    && forall i :: 0 <= i < |to| ==> to[i] < |list| && SameSession(files[i], list[to[i]])
  }

  predicate OneToOne(to: seq<nat>) {
    forall i, j :: 0 <= i < j < |to| ==> to[i] != to[j]
  }

  ghost predicate Assignable(files: seq<Logged>, list: seq<Logged>) {
    exists to :: Assigns(files, list, to)
  }

  // An assignment within `rel`.
  ghost predicate Within(to: seq<nat>, rel: (int, int) -> bool) {
    forall i :: 0 <= i < |to| ==> rel(i, to[i])
  }

  // Of those two sessions are related to, the earlier one here can go to the
  // earlier of them.
  ghost predicate Exchanges(files: seq<Logged>, list: seq<Logged>, rel: (int, int) -> bool) {
    forall k, j, g, c {:trigger rel(k, c), rel(j, g)} ::
      0 <= k < j < |files| && 0 <= g <= c < |list| && rel(k, c) && rel(j, g) && SameSession(files[k], list[g]) ==>
        rel(k, g) && rel(j, c)
  }

  // One that nobody needs can be had, or there is none.
  ghost predicate Spares(files: seq<Logged>, list: seq<Logged>, rel: (int, int) -> bool) {
    |files| == |list|
    || forall k, g {:trigger rel(k, g)} :: 0 <= k < |files| && 0 <= g < |list| && SameSession(files[k], list[g]) ==> rel(k, g)
  }

  // The first `k` are matched as the assignment says.
  predicate Agrees(files: seq<Logged>, list: seq<Logged>, to: seq<nat>, k: nat) {
    && k <= |files| == |to| && (forall i :: 0 <= i < |to| ==> to[i] < |list|)
    && forall i :: 0 <= i < k ==> MatchOf(files, list, i) == Found(list[to[i]].instance.id)
  }

  lemma {:induction false} TakenAre(files: seq<Logged>, list: seq<Logged>, to: seq<nat>, k: nat, x: nat)
    requires DistinctIds(list) && Agrees(files, list, to, k) && x < |list|
    ensures list[x].instance.id in Taken(files, list, k) <==> exists i :: 0 <= i < k && to[i] == x
  {
    if k > 0 {
      TakenAre(files, list, to, k - 1, x);
      assert MatchOf(files, list, k - 1) == Found(list[to[k - 1]].instance.id);
    }
  }

  lemma {:induction false} FirstAt(list: seq<Logged>, f: Logged, taken: set<int>, c: nat) returns (g: nat)
    requires c < |list| && Fits(list[c], f, taken)
    ensures g <= c && Fits(list[g], f, taken) && First(list, f, taken) == Found(list[g].instance.id)
  {
    g := 0;
    while !Fits(list[g], f, taken)
      invariant g <= c && forall j :: 0 <= j < g ==> !Fits(list[j], f, taken)
      decreases c - g
    {
      g := g + 1;
    }
    FirstIs(list, g, f, taken);
  }

  // The relation holds only for sessions that are the same, and allows what
  // taking the first that fits needs.
  ghost predicate Suits(files: seq<Logged>, list: seq<Logged>, rel: (int, int) -> bool) {
    && Exchanges(files, list, rel) && Spares(files, list, rel)
    && forall i, x :: rel(i, x) ==> 0 <= i < |files| && 0 <= x < |list| && SameSession(files[i], list[x])
  }

  // One more matched: what it takes is had from the one it was meant for.
  lemma OneMoreAgrees(files: seq<Logged>, list: seq<Logged>, to: seq<nat>, k: nat, rel: (int, int) -> bool) returns (next: seq<nat>)
    requires DistinctIds(list) && Agrees(files, list, to, k) && k < |files|
    requires Assigns(files, list, to) && Within(to, rel) && Suits(files, list, rel)
    ensures Agrees(files, list, next, k + 1) && Assigns(files, list, next) && Within(next, rel)
  {
    var c := to[k];
    TakenAre(files, list, to, k, c);
    var g := FirstAt(list, files[k], Taken(files, list, k), c);
    TakenAre(files, list, to, k, g);
    assert MatchOf(files, list, k) == Found(list[g].instance.id);
    if j: nat :| j < |to| && to[j] == g {
      next := to[k := g][j := c];
      Swapped(files, list, to, k, j, rel);
    } else {
      next := to[k := g];
      Spared(files, list, to, k, g, rel);
    }
  }

  lemma Swapped(files: seq<Logged>, list: seq<Logged>, to: seq<nat>, k: nat, j: nat, rel: (int, int) -> bool)
    requires Assigns(files, list, to) && Within(to, rel) && Suits(files, list, rel)
    requires k <= j < |to| && to[j] <= to[k] && SameSession(files[k], list[to[j]])
    ensures var next := to[k := to[j]][j := to[k]]; Assigns(files, list, next) && Within(next, rel)
  {
    var c, g := to[k], to[j];
    var next := to[k := g][j := c];
    assert rel(k, c) && rel(j, g);
    assert rel(k, g) && rel(j, c);
    forall i | 0 <= i < |next| ensures rel(i, next[i]) {
      assert rel(i, to[i]);
    }
  }

  lemma Spared(files: seq<Logged>, list: seq<Logged>, to: seq<nat>, k: nat, g: nat, rel: (int, int) -> bool)
    requires Assigns(files, list, to) && Within(to, rel) && Suits(files, list, rel)
    requires k < |to| && g < |list| && g !in to && SameSession(files[k], list[g])
    ensures var next := to[k := g]; Assigns(files, list, next) && Within(next, rel)
  {
    if |files| == |list| {
      Covers(to, |list|, g);
    }
  }

  lemma {:induction false} Count(to: seq<nat>, n: nat) returns (s: set<nat>)
    requires OneToOne(to) && forall i :: 0 <= i < |to| ==> to[i] < n
    ensures |s| == |to| <= n && forall x :: x in s <==> x in to
  {
    if to == [] {
      s := {};
    } else {
      var before, last := to[..|to| - 1], to[|to| - 1];
      s := Count(before, n);
      assert to == before + [last];
      s := s + {last};
      Below(n);
      Smaller(s, UpTo(n));
    }
  }

  function UpTo(n: nat): set<nat> {
    if n == 0 then {} else UpTo(n - 1) + {n - 1}
  }

  lemma {:induction false} Below(n: nat)
    ensures |UpTo(n)| == n && forall x: nat :: x in UpTo(n) <==> x < n
  {
    if n > 0 {
      Below(n - 1);
    }
  }

  lemma Smaller(a: set<nat>, b: set<nat>)
    requires a <= b
    ensures |a| <= |b| && (|a| == |b| ==> a == b)
  {
    assert b == a + (b - a);
  }

  // As many as there are leave none out.
  lemma Covers(to: seq<nat>, n: nat, x: nat)
    requires OneToOne(to) && |to| == n && (forall i :: 0 <= i < |to| ==> to[i] < n) && x < n
    ensures x in to
  {
    var s := Count(to, n);
    Below(n);
    Smaller(s, UpTo(n));
  }

  // Taking the first that fits finds one for each, if that can be done at all.
  lemma {:induction false} FirstFitsFind(files: seq<Logged>, list: seq<Logged>, to: seq<nat>, k: nat, rel: (int, int) -> bool)
    returns (end: seq<nat>)
    requires DistinctIds(list) && Agrees(files, list, to, k)
    requires Assigns(files, list, to) && Within(to, rel) && Suits(files, list, rel)
    ensures Agrees(files, list, end, |files|)
    decreases |files| - k
  {
    if k == |files| {
      end := to;
    } else {
      var next := OneMoreAgrees(files, list, to, k, rel);
      end := FirstFitsFind(files, list, next, k + 1, rel);
    }
  }

  predicate AllFound(files: seq<Logged>, list: seq<Logged>) {
    forall i :: 0 <= i < |files| ==> MatchOf(files, list, i).Found?
  }

  lemma FoundAt(files: seq<Logged>, list: seq<Logged>, i: nat) returns (x: nat)
    requires i < |files| && MatchOf(files, list, i).Found?
    ensures x < |list| && SameSession(files[i], list[x]) && MatchOf(files, list, i) == Found(list[x].instance.id)
  {
    FirstFits(list, files[i], Taken(files, list, i));
    x :| 0 <= x < |list| && Fits(list[x], files[i], Taken(files, list, i)) && list[x].instance.id == MatchOf(files, list, i).id;
  }

  // What is found is an assignment.
  lemma FoundAssigns(files: seq<Logged>, list: seq<Logged>)
    requires AllFound(files, list)
    ensures Assignable(files, list)
  {
    var to: seq<nat> := [];
    while |to| < |files|
      invariant |to| <= |files| && forall i :: 0 <= i < |to| ==>
                  to[i] < |list| && SameSession(files[i], list[to[i]]) && MatchOf(files, list, i) == Found(list[to[i]].instance.id)
    {
      var i := |to|;
      var x := FoundAt(files, list, i);
      to := to + [x];
    }
    forall i, j | 0 <= i < j < |to| ensures to[i] != to[j] {
      MatchesOnce(files, list, i, j);
    }
    assert Assigns(files, list, to);
  }

  // ---- Sessions with their times ----

  // Closed, with its start and its end recorded.
  predicate Timed(i: Instance) {
    HasEnd(i) && i.startedAt > 0
  }

  predicate AllTimed(list: seq<Logged>) {
    forall i :: 0 <= i < |list| ==> Timed(list[i].instance)
  }

  predicate ByStart(list: seq<Logged>) {
    forall i, j :: 0 <= i < j < |list| ==> list[i].instance.startedAt >= list[j].instance.startedAt
  }

  // Of timed sessions listed by their start all are found exactly if each can
  // be given one here that is the same.
  lemma TimedIff(files: seq<Logged>, list: seq<Logged>)
    requires DistinctIds(list) && ByStart(files) && ByStart(list) && AllTimed(files) && AllTimed(list)
    ensures AllFound(files, list) <==> Assignable(files, list)
  {
    if Assignable(files, list) {
      var to :| Assigns(files, list, to);
      var rel := (i: int, x: int) => 0 <= i < |files| && 0 <= x < |list| && SameSession(files[i], list[x]);
      TimedExchange(files, list, rel);
      var end := FirstFitsFind(files, list, to, 0, rel);
    }
    if AllFound(files, list) {
      FoundAssigns(files, list);
    }
  }

  lemma TimedExchange(files: seq<Logged>, list: seq<Logged>, rel: (int, int) -> bool)
    requires ByStart(files) && ByStart(list) && AllTimed(files) && AllTimed(list)
    requires forall i, x :: rel(i, x) <==> 0 <= i < |files| && 0 <= x < |list| && SameSession(files[i], list[x])
    ensures Exchanges(files, list, rel)
  {
    forall k, j, g, c | 0 <= k < j < |files| && 0 <= g <= c < |list| && rel(k, c) && rel(j, g) && SameSession(files[k], list[g])
      ensures rel(k, g) && rel(j, c)
    {
      assert list[g].instance.startedAt >= list[c].instance.startedAt;
      assert Timed(files[k].instance) && Timed(files[j].instance) && Timed(list[g].instance) && Timed(list[c].instance);
    }
  }
}
