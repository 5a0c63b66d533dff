// In which order columns are added and grown, told from the layout that comes
// of it.
module ListOrder {
  import opened ListColumns

  // ---- What is asked of a layout ----

  // Lower priorities come first, and of one priority columns further left.
  predicate Earlier(p: int, i: nat, q: int, j: nat) {
    p < q || (p == q && i < j)
  }

  // Neither always shown nor brought by the column before it.
  predicate IsAdded(columns: seq<Column>, i: nat) {
    i < |columns| && columns[i].addPriority > 0 && !AddedByPrevious(columns, i)
  }

  predicate AddedBefore(columns: seq<Column>, i: nat, j: nat)
    requires i < |columns| && j < |columns|
  {
    Earlier(columns[i].addPriority, i, columns[j].addPriority, j)
  }

  // No column is added before one that comes earlier.
  ghost predicate AddedInOrder(columns: seq<Column>, widths: seq<nat>)
    requires |widths| == |columns|
  {
    forall i: nat, j: nat :: IsAdded(columns, i) && IsAdded(columns, j) && AddedBefore(columns, i, j) && widths[j] > 0 ==> widths[i] > 0
  }

  // The first column left out.
  ghost predicate FirstLeftOut(columns: seq<Column>, widths: seq<nat>, i: nat)
    requires |widths| == |columns|
  {
    && IsAdded(columns, i) && widths[i] == 0
    && forall j: nat :: IsAdded(columns, j) && AddedBefore(columns, j, i) ==> widths[j] > 0
  }

  // What a column and its partner take.
  function Needed(columns: seq<Column>, gap: nat, i: nat): nat
    requires i < |columns|
  {
    if InPair(columns, i) then columns[i].width + columns[i + 1].width + 2 * gap else columns[i].width + gap
  }

  predicate NoRoom(columns: seq<Column>, available: int, layout: Layout, i: nat)
    requires i < |columns| == |layout.widths|
  {
    || available - Used(layout) < Needed(columns, layout.gap, i) || columns[i].width == 0
    || (InPair(columns, i) && layout.widths[i + 1] > 0)
  }

  predicate GrowsBefore(columns: seq<Column>, k: nat, i: nat)
    requires k < |columns| && i < |columns|
  {
    Earlier(columns[k].growPriority, k, columns[i].addPriority, i)
  }

  // The list as it was when a column's turn came: of the others that are added
  // just the earlier ones are shown, nothing is wider than it came to be, and
  // only what grows earlier is wider than when it was added.
  ghost predicate WhenItsTurnCame(columns: seq<Column>, baseGap: nat, widths: seq<nat>, i: nat, at: Layout)
    requires i < |columns| == |widths|
  {
    && |at.widths| == |columns| && at.gap == baseGap && at.widths[i] == 0
    && (forall j: nat :: IsAdded(columns, j) && columns[j].width > 0 ==> (at.widths[j] > 0 <==> AddedBefore(columns, j, i)))
    && (forall k :: 0 <= k < |columns| && columns[k].addPriority == 0 ==> at.widths[k] >= columns[k].width)
    && forall k :: 0 <= k < |columns| ==>
         at.widths[k] <= widths[k] && (at.widths[k] > columns[k].width ==> GrowsBefore(columns, k, i) || k == i)
  }

  ghost predicate DidNotFit(columns: seq<Column>, available: int, baseGap: nat, widths: seq<nat>, i: nat)
    requires i < |columns| == |widths|
  {
    exists at :: WhenItsTurnCame(columns, baseGap, widths, i, at) && NoRoom(columns, available, at, i)
  }

  // There to grow, if shown at all, when its turn to grow comes.
  predicate Grows(columns: seq<Column>, k: nat) {
    && k < |columns| && columns[k].maxWidth > columns[k].width > 0
    && (columns[k].addPriority == 0 || (IsAdded(columns, k) && columns[k].addPriority < columns[k].growPriority))
  }

  // A column shown that could have grown more, so that there was no room left
  // when it had grown.
  predicate Held(columns: seq<Column>, widths: seq<nat>, k: nat)
    requires |widths| == |columns|
  {
    Grows(columns, k) && 0 < widths[k] < columns[k].maxWidth
  }

  // Then nothing grows or is added later, and nothing is left over in the end.
  ghost predicate GrownInOrder(columns: seq<Column>, available: int, layout: Layout)
    requires |layout.widths| == |columns|
  {
    forall k: nat :: Held(columns, layout.widths, k) ==> Used(layout) >= available && NoneLater(columns, layout.widths, k)
  }

  predicate NoneLater(columns: seq<Column>, widths: seq<nat>, k: nat)
    requires k < |columns| == |widths|
  {
    forall m :: 0 <= m < |columns| ==>
      && (Earlier(columns[k].growPriority, k, columns[m].growPriority, m) ==> widths[m] <= columns[m].width)
      && (IsAdded(columns, m) && Earlier(columns[k].growPriority, k, columns[m].addPriority, m) ==> widths[m] == 0)
  }

  // ---- The steps ----

  predicate InStepOrder(steps: seq<Step>) {
    forall a, b :: 0 <= a < b < |steps| ==> NotAfter(steps[a], steps[b])
  }

  predicate NotAfter(a: Step, b: Step) {
    a.priority < b.priority || (a.priority == b.priority && a.column <= b.column)
  }

  lemma {:induction false} InsertOrders(step: Step, sorted: seq<Step>)
    requires InStepOrder(sorted)
    ensures InStepOrder(Insert(step, sorted))
  {
    if sorted != [] && !ComesFirst(step, sorted[0]) {
      var rest := sorted[1..];
      InsertOrders(step, rest);
      var inserted := Insert(step, rest);
      forall i | 0 <= i < |inserted| ensures NotAfter(sorted[0], inserted[i]) {
        assert inserted[i] in multiset(inserted);
        assert inserted[i] == step || inserted[i] in rest;
      }
    } else if sorted != [] {
      forall i | 0 <= i < |sorted| ensures NotAfter(step, sorted[i]) {
        assert i > 0 ==> NotAfter(sorted[0], sorted[i]);
      }
    }
  }

  lemma {:induction false} SortedIsInOrder(steps: seq<Step>)
    ensures InStepOrder(Sorted(steps))
  {
    if steps != [] {
      SortedIsInOrder(steps[..|steps| - 1]);
      InsertOrders(steps[|steps| - 1], Sorted(steps[..|steps| - 1]));
    }
  }

  predicate IsStepOf(columns: seq<Column>, s: Step) {
    && s.column < |columns|
    && if s.add then s.priority == columns[s.column].addPriority > 0
       else s.priority == columns[s.column].growPriority && columns[s.column].maxWidth > columns[s.column].width
  }

  lemma {:induction false} StepsAre(columns: seq<Column>, s: Step)
    ensures multiset(StepsOf(columns))[s] == if IsStepOf(columns, s) then 1 else 0
  {
    if columns != [] {
      var i := |columns| - 1;
      var before, c := columns[..i], columns[i];
      StepsAre(before, s);
      var add := if c.addPriority > 0 then [Step(c.addPriority, i, true)] else [];
      var grow := if c.maxWidth > c.width then [Step(c.growPriority, i, false)] else [];
      assert StepsOf(columns) == StepsOf(before) + add + grow;
      assert multiset(StepsOf(columns)) == multiset(StepsOf(before)) + multiset(add) + multiset(grow);
      assert s.column != i ==> (IsStepOf(columns, s) <==> IsStepOf(before, s));
    }
  }

  // All of them, each once, in order.
  ghost predicate AreAll(columns: seq<Column>, steps: seq<Step>) {
    && AreSteps(steps, columns) && InStepOrder(steps)
    && (forall s :: s in steps <==> IsStepOf(columns, s))
    && forall a, b :: 0 <= a < b < |steps| ==> steps[a] != steps[b]
  }

  lemma AllSorted(columns: seq<Column>)
    ensures AreAll(columns, Sorted(StepsOf(columns)))
  {
    var steps := Sorted(StepsOf(columns));
    SortedAreSteps(columns);
    SortedIsInOrder(StepsOf(columns));
    forall s ensures s in steps <==> IsStepOf(columns, s) {
      StepsAre(columns, s);
      assert s in steps <==> s in multiset(steps);
    }
    forall a, b | 0 <= a < b < |steps| ensures steps[a] != steps[b] {
      StepsAre(columns, steps[a]);
      if steps[a] == steps[b] {
        Twice(steps, a, b);
      }
    }
  }

  lemma Twice(steps: seq<Step>, a: nat, b: nat)
    requires a < b < |steps| && steps[a] == steps[b]
    ensures multiset(steps)[steps[a]] >= 2
  {
    assert steps == steps[..b] + steps[b..];
    assert steps[a] in multiset(steps[..b]) && steps[b] in multiset(steps[b..]);
  }

  // ---- The run of the steps ----

  // After the first `n`.
  function After(columns: seq<Column>, available: int, baseGap: nat, steps: seq<Step>, n: nat): (s: State)
    requires AreSteps(steps, columns) && n <= |steps|
    ensures |s.layout.widths| == |columns|
  {
    TakeAll(columns, available, State(Start(columns, baseGap), false), steps[..n])
  }

  lemma NextIs(columns: seq<Column>, available: int, baseGap: nat, steps: seq<Step>, n: nat)
    requires AreSteps(steps, columns) && n < |steps|
    ensures After(columns, available, baseGap, steps, n + 1)
         == Take(columns, available, After(columns, available, baseGap, steps, n), steps[n])
  {
    assert steps[..n + 1][..n] == steps[..n];
  }

  // Nothing narrows, and a failure stays.
  predicate Onward(a: State, b: State) {
    && |a.layout.widths| == |b.layout.widths| && a.layout.gap == b.layout.gap && (a.failed ==> b.failed)
    && (forall k :: 0 <= k < |a.layout.widths| ==> a.layout.widths[k] <= b.layout.widths[k])
    && (a.failed ==> ShowsAll(b.layout, a.layout))
  }

  lemma TakeGoesOnward(columns: seq<Column>, available: int, s: State, step: Step)
    requires step.column < |columns| == |s.layout.widths|
    ensures Onward(s, Take(columns, available, s, step))
  {
    if !step.add {
      GrowthIs(columns, available - Used(s.layout), s.layout, step.column);
    }
  }

  lemma OnwardOn(a: State, b: State, c: State)
    requires Onward(a, b) && Onward(b, c)
    ensures Onward(a, c)
  {
  }

  lemma {:induction false} AllOnward(columns: seq<Column>, available: int, baseGap: nat, steps: seq<Step>, n: nat, m: nat)
    requires AreSteps(steps, columns) && n <= m <= |steps|
    ensures Onward(After(columns, available, baseGap, steps, n), After(columns, available, baseGap, steps, m))
    decreases m - n
  {
    if n < m {
      AllOnward(columns, available, baseGap, steps, n, m - 1);
      NextIs(columns, available, baseGap, steps, m - 1);
      TakeGoesOnward(columns, available, After(columns, available, baseGap, steps, m - 1), steps[m - 1]);
      OnwardOn(After(columns, available, baseGap, steps, n), After(columns, available, baseGap, steps, m - 1),
               After(columns, available, baseGap, steps, m));
    }
  }

  // A column with a step of its own is shown only by it.
  lemma {:induction false} ShownByItsStep(columns: seq<Column>, available: int, baseGap: nat, steps: seq<Step>, n: nat, i: nat)
    returns (q: nat)
    requires AreSteps(steps, columns) && n <= |steps| && IsAdded(columns, i)
    requires After(columns, available, baseGap, steps, n).layout.widths[i] > 0
    ensures q < n && steps[q].add && steps[q].column == i
  {
    var s := After(columns, available, baseGap, steps, n - 1);
    NextIs(columns, available, baseGap, steps, n - 1);
    if s.layout.widths[i] > 0 {
      q := ShownByItsStep(columns, available, baseGap, steps, n - 1, i);
    } else {
      q := n - 1;
      OnlyItsStepShows(columns, available, s, steps[n - 1], i);
    }
  }

  lemma OnlyItsStepShows(columns: seq<Column>, available: int, s: State, step: Step, i: nat)
    requires step.column < |columns| == |s.layout.widths| && IsAdded(columns, i) && s.layout.widths[i] == 0
    ensures Take(columns, available, s, step).layout.widths[i] > 0 ==> step.add && step.column == i
  {
    if !step.add {
      GrowthIs(columns, available - Used(s.layout), s.layout, step.column);
    }
  }

  // And its step shows it, or fails.
  lemma ShownOrFailed(columns: seq<Column>, available: int, s: State, step: Step)
    requires step.column < |columns| == |s.layout.widths| && IsAdded(columns, step.column) && step.add
    ensures var next := Take(columns, available, s, step); next.failed || next.layout.widths[step.column] > 0
    ensures var next := Take(columns, available, s, step);
            !s.failed && s.layout.widths[step.column] == 0 && next.layout.widths[step.column] == 0 ==>
              NoRoom(columns, available, s.layout, step.column)
  {
  }

  // Failing is that of a column that is added, and stays out.
  lemma {:induction false} FailedAt(columns: seq<Column>, available: int, baseGap: nat, steps: seq<Step>, n: nat) returns (q: nat)
    requires AreSteps(steps, columns) && n <= |steps| && (forall a :: 0 <= a < |steps| ==> IsStepOf(columns, steps[a]))
    requires After(columns, available, baseGap, steps, n).failed
    ensures q < n && steps[q].add && IsAdded(columns, steps[q].column)
    ensures var s := After(columns, available, baseGap, steps, q + 1); s.failed && s.layout.widths[steps[q].column] == 0
  {
    NextIs(columns, available, baseGap, steps, n - 1);
    if After(columns, available, baseGap, steps, n - 1).failed {
      q := FailedAt(columns, available, baseGap, steps, n - 1);
    } else {
      q := n - 1;
      assert IsStepOf(columns, steps[q]);
    }
  }

  // ---- In order ----

  lemma StepOf(columns: seq<Column>, steps: seq<Step>, i: nat) returns (p: nat)
    requires AreAll(columns, steps) && i < |columns| && columns[i].addPriority > 0
    ensures p < |steps| && steps[p] == Step(columns[i].addPriority, i, true)
  {
    var s := Step(columns[i].addPriority, i, true);
    assert IsStepOf(columns, s);
    p :| p < |steps| && steps[p] == s;
  }

  lemma StepsComeInOrder(columns: seq<Column>, steps: seq<Step>, i: nat, p: nat, j: nat, q: nat)
    requires AreAll(columns, steps) && i < |columns| && j < |columns| && p < |steps| && q < |steps|
    requires steps[p].add && steps[p].column == i && steps[q].add && steps[q].column == j && i != j
    ensures p < q <==> AddedBefore(columns, i, j)
  {
    assert IsStepOf(columns, steps[p]) && IsStepOf(columns, steps[q]);
    assert p < q ==> NotAfter(steps[p], steps[q]);
    assert q < p ==> NotAfter(steps[q], steps[p]);
  }

  lemma EarlierIsShown(columns: seq<Column>, available: int, baseGap: nat, steps: seq<Step>, i: nat, j: nat)
    requires AreAll(columns, steps) && IsAdded(columns, i) && IsAdded(columns, j) && AddedBefore(columns, i, j)
    requires After(columns, available, baseGap, steps, |steps|).layout.widths[j] > 0
    ensures After(columns, available, baseGap, steps, |steps|).layout.widths[i] > 0
  {
    var p := StepOf(columns, steps, i);
    var q := ShownByItsStep(columns, available, baseGap, steps, |steps|, j);
    StepsComeInOrder(columns, steps, i, p, j, q);
    NextIs(columns, available, baseGap, steps, p);
    ShownOrFailed(columns, available, After(columns, available, baseGap, steps, p), steps[p]);
    AllOnward(columns, available, baseGap, steps, p + 1, |steps|);
    if After(columns, available, baseGap, steps, p + 1).failed {
      assert After(columns, available, baseGap, steps, p + 1).layout.widths[j] > 0;
      var r := ShownByItsStep(columns, available, baseGap, steps, p + 1, j);
      StepsComeInOrder(columns, steps, i, p, j, r);
    }
  }

  lemma AddsInOrder(columns: seq<Column>, available: int, baseGap: nat, steps: seq<Step>)
    requires AreAll(columns, steps)
    ensures AddedInOrder(columns, After(columns, available, baseGap, steps, |steps|).layout.widths)
  {
    var widths := After(columns, available, baseGap, steps, |steps|).layout.widths;
    forall i: nat, j: nat | IsAdded(columns, i) && IsAdded(columns, j) && AddedBefore(columns, i, j) && widths[j] > 0
      ensures widths[i] > 0
    {
      EarlierIsShown(columns, available, baseGap, steps, i, j);
    }
  }

  // ---- The first that is left out ----

  // Until its turn no column has failed.
  lemma NoneFailedYet(columns: seq<Column>, available: int, baseGap: nat, steps: seq<Step>, i: nat, p: nat)
    requires AreAll(columns, steps) && p < |steps| && steps[p].add && steps[p].column == i
    requires FirstLeftOut(columns, After(columns, available, baseGap, steps, |steps|).layout.widths, i)
    ensures !After(columns, available, baseGap, steps, p).failed
  {
    if After(columns, available, baseGap, steps, p).failed {
      var q := FailedAt(columns, available, baseGap, steps, p);
      var j := steps[q].column;
      AllOnward(columns, available, baseGap, steps, q + 1, |steps|);
      assert IsStepOf(columns, steps[q]) && IsStepOf(columns, steps[p]) && steps[p] != steps[q];
      StepsComeInOrder(columns, steps, j, q, i, p);
    }
  }

  lemma ShownByThen(columns: seq<Column>, available: int, baseGap: nat, steps: seq<Step>, i: nat, p: nat, j: nat)
    requires AreAll(columns, steps) && p < |steps| && steps[p].add && steps[p].column == i && IsAdded(columns, i)
    requires !After(columns, available, baseGap, steps, p).failed && After(columns, available, baseGap, steps, p).layout.widths[i] == 0
    requires IsAdded(columns, j) && columns[j].width > 0
    ensures After(columns, available, baseGap, steps, p).layout.widths[j] > 0 <==> AddedBefore(columns, j, i)
  {
    if After(columns, available, baseGap, steps, p).layout.widths[j] > 0 {
      var q := ShownByItsStep(columns, available, baseGap, steps, p, j);
      StepsComeInOrder(columns, steps, j, q, i, p);
    }
    if AddedBefore(columns, j, i) {
      var q := StepOf(columns, steps, j);
      StepsComeInOrder(columns, steps, j, q, i, p);
      NextIs(columns, available, baseGap, steps, q);
      ShownOrFailed(columns, available, After(columns, available, baseGap, steps, q), steps[q]);
      AllOnward(columns, available, baseGap, steps, q + 1, p);
    }
  }

  lemma StartsNarrow(columns: seq<Column>, available: int, baseGap: nat, steps: seq<Step>, k: nat)
    requires AreSteps(steps, columns) && k < |columns|
    ensures After(columns, available, baseGap, steps, 0).layout.widths[k] <= columns[k].width
  {
    assert steps[..0] == [];
  }

  // What is wider than when it was added has taken its step to grow.
  lemma WiderHasGrown(columns: seq<Column>, available: int, baseGap: nat, steps: seq<Step>, n: nat, k: nat)
    returns (q: nat)
    requires AreSteps(steps, columns) && n <= |steps| && k < |columns|
    requires After(columns, available, baseGap, steps, n).layout.widths[k] > columns[k].width
    ensures q < n && !steps[q].add && steps[q].column == k
  {
    StartsNarrow(columns, available, baseGap, steps, k);
    q := 0;
    while After(columns, available, baseGap, steps, q + 1).layout.widths[k] <= columns[k].width
      invariant q < n && After(columns, available, baseGap, steps, q).layout.widths[k] <= columns[k].width
      decreases n - q
    {
      q := q + 1;
    }
    NextIs(columns, available, baseGap, steps, q);
    OnlyGrowingWidens(columns, available, After(columns, available, baseGap, steps, q), steps[q], k);
  }

  lemma OnlyGrowingWidens(columns: seq<Column>, available: int, s: State, step: Step, k: nat)
    requires step.column < |columns| == |s.layout.widths| && k < |columns| && s.layout.widths[k] <= columns[k].width
    ensures Take(columns, available, s, step).layout.widths[k] > columns[k].width ==> !step.add && step.column == k
  {
    if !step.add {
      GrowthIs(columns, available - Used(s.layout), s.layout, step.column);
    }
  }

  lemma GrownBefore(columns: seq<Column>, available: int, baseGap: nat, steps: seq<Step>, i: nat, p: nat, k: nat)
    requires AreAll(columns, steps) && p < |steps| && steps[p].add && steps[p].column == i && i < |columns| && k < |columns|
    requires After(columns, available, baseGap, steps, p).layout.widths[k] > columns[k].width
    ensures GrowsBefore(columns, k, i) || k == i
  {
    var q := WiderHasGrown(columns, available, baseGap, steps, p, k);
    assert NotAfter(steps[q], steps[p]) && IsStepOf(columns, steps[q]) && IsStepOf(columns, steps[p]);
  }

  lemma AlwaysThere(columns: seq<Column>, available: int, baseGap: nat, steps: seq<Step>, n: nat, k: nat)
    requires AreSteps(steps, columns) && n <= |steps| && k < |columns| && columns[k].addPriority == 0
    ensures After(columns, available, baseGap, steps, n).layout.widths[k] >= columns[k].width
  {
    AllOnward(columns, available, baseGap, steps, 0, n);
    assert steps[..0] == [];
  }

  lemma GapStays(columns: seq<Column>, available: int, baseGap: nat, steps: seq<Step>, n: nat)
    requires AreSteps(steps, columns) && n <= |steps|
    ensures After(columns, available, baseGap, steps, n).layout.gap == baseGap
  {
    AllOnward(columns, available, baseGap, steps, 0, n);
    assert steps[..0] == [];
  }

  lemma LeftOutDidNotFit(columns: seq<Column>, available: int, baseGap: nat, steps: seq<Step>, i: nat)
    requires AreAll(columns, steps)
    requires FirstLeftOut(columns, After(columns, available, baseGap, steps, |steps|).layout.widths, i)
    ensures DidNotFit(columns, available, baseGap, After(columns, available, baseGap, steps, |steps|).layout.widths, i)
  {
    var end := After(columns, available, baseGap, steps, |steps|);
    var p := StepOf(columns, steps, i);
    var s := After(columns, available, baseGap, steps, p);
    NoneFailedYet(columns, available, baseGap, steps, i, p);
    AllOnward(columns, available, baseGap, steps, p, |steps|);
    AllOnward(columns, available, baseGap, steps, p + 1, |steps|);
    NextIs(columns, available, baseGap, steps, p);
    ShownOrFailed(columns, available, s, steps[p]);
    GapStays(columns, available, baseGap, steps, p);
    ItWasLikeThis(columns, available, baseGap, steps, i, p);
    assert WhenItsTurnCame(columns, baseGap, end.layout.widths, i, s.layout);
  }

  lemma ItWasLikeThis(columns: seq<Column>, available: int, baseGap: nat, steps: seq<Step>, i: nat, p: nat)
    requires AreAll(columns, steps) && p < |steps| && steps[p].add && steps[p].column == i && IsAdded(columns, i)
    requires !After(columns, available, baseGap, steps, p).failed && After(columns, available, baseGap, steps, p).layout.widths[i] == 0
    ensures WhenItsTurnCame(columns, baseGap, After(columns, available, baseGap, steps, |steps|).layout.widths, i,
                            After(columns, available, baseGap, steps, p).layout)
  {
    var at := After(columns, available, baseGap, steps, p).layout;
    GapStays(columns, available, baseGap, steps, p);
    AllOnward(columns, available, baseGap, steps, p, |steps|);
    forall j: nat | IsAdded(columns, j) && columns[j].width > 0 ensures at.widths[j] > 0 <==> AddedBefore(columns, j, i) {
      ShownByThen(columns, available, baseGap, steps, i, p, j);
    }
    forall k | 0 <= k < |columns| && columns[k].addPriority == 0 ensures at.widths[k] >= columns[k].width {
      AlwaysThere(columns, available, baseGap, steps, p, k);
    }
    forall k | 0 <= k < |columns| && at.widths[k] > columns[k].width ensures GrowsBefore(columns, k, i) || k == i {
      GrownBefore(columns, available, baseGap, steps, i, p, k);
    }
  }

  // ---- Growing ----

  lemma {:induction false} WiderUses(a: seq<nat>, b: seq<nat>)
    requires |a| == |b| && forall k :: 0 <= k < |a| ==> a[k] <= b[k]
    ensures Sum(a) <= Sum(b) && Shown(a) <= Shown(b)
  {
    if a != [] {
      WiderUses(a[..|a| - 1], b[..|b| - 1]);
    }
  }

  lemma {:induction false} MoreGaps(gap: nat, n: nat, m: nat)
    requires n <= m
    ensures Gaps(gap, n) <= Gaps(gap, m)
    decreases m - n
  {
    if n < m {
      MoreGaps(gap, n, m - 1);
    }
  }

  lemma OnwardUses(a: State, b: State)
    requires Onward(a, b)
    ensures Used(a.layout) <= Used(b.layout)
  {
    WiderUses(a.layout.widths, b.layout.widths);
    MoreGaps(a.layout.gap, Shown(a.layout.widths), Shown(b.layout.widths));
  }

  // A column held up when it grows has taken all the room.
  lemma HeldTakesAll(columns: seq<Column>, available: int, s: State, step: Step)
    requires step.column < |columns| == |s.layout.widths| && !step.add
    requires 0 < s.layout.widths[step.column]
    requires Take(columns, available, s, step).layout.widths[step.column] < columns[step.column].maxWidth
    ensures Used(Take(columns, available, s, step).layout) >= available
  {
    GrowthIs(columns, available - Used(s.layout), s.layout, step.column);
  }

  lemma FullAddsNothing(columns: seq<Column>, available: int, s: State, step: Step)
    requires step.column < |columns| == |s.layout.widths| && Used(s.layout) >= available
    ensures Take(columns, available, s, step).layout == s.layout
  {
    if !step.add {
      GrowthIs(columns, available - Used(s.layout), s.layout, step.column);
      assert s.layout.widths[step.column := s.layout.widths[step.column]] == s.layout.widths;
    } else if s.layout.widths[step.column] == 0 {
      NoRoomNoColumn(columns, available - Used(s.layout), s.layout, step.column);
    }
  }

  lemma {:induction false} FullStays(columns: seq<Column>, available: int, baseGap: nat, steps: seq<Step>, n: nat, m: nat)
    requires AreSteps(steps, columns) && n <= m <= |steps|
    requires Used(After(columns, available, baseGap, steps, n).layout) >= available
    ensures After(columns, available, baseGap, steps, m).layout == After(columns, available, baseGap, steps, n).layout
    decreases m - n
  {
    if n < m {
      FullStays(columns, available, baseGap, steps, n, m - 1);
      NextIs(columns, available, baseGap, steps, m - 1);
      FullAddsNothing(columns, available, After(columns, available, baseGap, steps, m - 1), steps[m - 1]);
    }
  }

  lemma ThereToGrow(columns: seq<Column>, available: int, baseGap: nat, steps: seq<Step>, k: nat, p: nat)
    requires AreAll(columns, steps) && k < |columns| && Held(columns, After(columns, available, baseGap, steps, |steps|).layout.widths, k)
    requires p < |steps| && steps[p] == Step(columns[k].growPriority, k, false)
    ensures After(columns, available, baseGap, steps, p).layout.widths[k] > 0
  {
    if columns[k].addPriority == 0 {
      AlwaysThere(columns, available, baseGap, steps, p, k);
    } else {
      var q := ShownByItsStep(columns, available, baseGap, steps, |steps|, k);
      assert IsStepOf(columns, steps[q]) && !NotAfter(steps[p], steps[q]);
      NextIs(columns, available, baseGap, steps, q);
      ShownOrFailed(columns, available, After(columns, available, baseGap, steps, q), steps[q]);
      AllOnward(columns, available, baseGap, steps, q + 1, |steps|);
      AllOnward(columns, available, baseGap, steps, q + 1, p);
    }
  }

  lemma HeldUp(columns: seq<Column>, available: int, baseGap: nat, steps: seq<Step>, k: nat) returns (p: nat)
    requires AreAll(columns, steps) && k < |columns|
    requires Held(columns, After(columns, available, baseGap, steps, |steps|).layout.widths, k)
    ensures p < |steps| && steps[p] == Step(columns[k].growPriority, k, false)
    ensures After(columns, available, baseGap, steps, |steps|).layout == After(columns, available, baseGap, steps, p + 1).layout
    ensures Used(After(columns, available, baseGap, steps, |steps|).layout) >= available
  {
    var s := Step(columns[k].growPriority, k, false);
    assert IsStepOf(columns, s);
    p :| p < |steps| && steps[p] == s;
    NextIs(columns, available, baseGap, steps, p);
    ThereToGrow(columns, available, baseGap, steps, k, p);
    AllOnward(columns, available, baseGap, steps, p + 1, |steps|);
    HeldTakesAll(columns, available, After(columns, available, baseGap, steps, p), steps[p]);
    FullStays(columns, available, baseGap, steps, p + 1, |steps|);
  }

  // What is wider, or added, by then took its step no later.
  lemma NoLaterThan(columns: seq<Column>, available: int, baseGap: nat, steps: seq<Step>, k: nat, p: nat, m: nat)
    requires AreAll(columns, steps) && k < |columns| && m < |columns|
    requires p < |steps| && steps[p] == Step(columns[k].growPriority, k, false)
    ensures var widths := After(columns, available, baseGap, steps, p + 1).layout.widths;
            && (widths[m] > columns[m].width ==> !Earlier(columns[k].growPriority, k, columns[m].growPriority, m))
            && (IsAdded(columns, m) && widths[m] > 0 ==> !Earlier(columns[k].growPriority, k, columns[m].addPriority, m))
  {
    var widths := After(columns, available, baseGap, steps, p + 1).layout.widths;
    if widths[m] > columns[m].width {
      var q := WiderHasGrown(columns, available, baseGap, steps, p + 1, m);
      assert IsStepOf(columns, steps[q]) && (q < p ==> NotAfter(steps[q], steps[p]));
    }
    if IsAdded(columns, m) && widths[m] > 0 {
      var q := ShownByItsStep(columns, available, baseGap, steps, p + 1, m);
      assert IsStepOf(columns, steps[q]) && (q < p ==> NotAfter(steps[q], steps[p]));
    }
  }

  lemma NothingLater(columns: seq<Column>, available: int, baseGap: nat, steps: seq<Step>, k: nat)
    requires AreAll(columns, steps) && k < |columns|
    requires Held(columns, After(columns, available, baseGap, steps, |steps|).layout.widths, k)
    ensures NoneLater(columns, After(columns, available, baseGap, steps, |steps|).layout.widths, k)
  {
    var p := HeldUp(columns, available, baseGap, steps, k);
    forall m | 0 <= m < |columns| {
      NoLaterThan(columns, available, baseGap, steps, k, p, m);
    }
  }

  lemma GrowsInOrder(columns: seq<Column>, available: int, baseGap: nat, steps: seq<Step>)
    requires AreAll(columns, steps)
    ensures GrownInOrder(columns, available, After(columns, available, baseGap, steps, |steps|).layout)
  {
    var layout := After(columns, available, baseGap, steps, |steps|).layout;
    forall k: nat | Held(columns, layout.widths, k) ensures Used(layout) >= available && NoneLater(columns, layout.widths, k) {
      var p := HeldUp(columns, available, baseGap, steps, k);
      NothingLater(columns, available, baseGap, steps, k);
    }
  }

  // ---- The gap ----

  lemma {:induction false} AllShown(widths: seq<nat>)
    ensures Shown(widths) == |widths| <==> forall k :: 0 <= k < |widths| ==> widths[k] > 0
  {
    if widths != [] {
      var before := widths[..|widths| - 1];
      AllShown(before);
      assert forall k :: 0 <= k < |before| ==> widths[k] == before[k];
    }
  }

  predicate Everything(widths: seq<nat>) {
    |widths| > 1 && forall k :: 0 <= k < |widths| ==> widths[k] > 0
  }

  // Gaps are wider only when all columns are shown, and then as wide as there is
  // room for.
  predicate GapIs(layout: Layout, baseGap: nat, available: int, widest: int) {
    && layout.gap >= baseGap
    && (layout.gap > baseGap ==> Everything(layout.widths) && layout.gap <= widest && Used(layout) <= available)
    && (Everything(layout.widths) ==> layout.gap >= widest || available - Used(layout) < |layout.widths| - 1)
  }

  lemma {:induction false} WidenedIs(layout: Layout, available: int, widest: int)
    ensures var w := Widened(layout, available, widest); w.widths == layout.widths && GapIs(w, layout.gap, available, widest)
    decreases widest - layout.gap
  {
    AllShown(layout.widths);
    if Everything(layout.widths) && layout.gap < widest && available - Used(layout) >= |layout.widths| - 1 {
      WiderGaps(layout.gap, Shown(layout.widths));
      WidenedIs(layout.(gap := layout.gap + 1), available, widest);
    }
  }

  // ---- All of it ----

  // What is asked of a layout wider than at 80 columns: added in order, the first
  // left out for want of room, grown in order, and the gaps.
  ghost predicate WellLaidOut(columns: seq<Column>, available: int, baseGap: nat, widest: int, layout: Layout) {
    && |layout.widths| == |columns| && AddedInOrder(columns, layout.widths)
    && (forall i: nat :: FirstLeftOut(columns, layout.widths, i) ==> DidNotFit(columns, available, baseGap, layout.widths, i))
    && GrownInOrder(columns, available, layout) && GapIs(layout, baseGap, available, widest)
  }

  lemma LaidOutWell(columns: seq<Column>, available: int, availableAt80: int, baseGap: nat, maxGap: int)
    requires available > availableAt80 && AreSteps(Sorted(StepsOf(columns)), columns)
    ensures WellLaidOut(columns, available, baseGap, WidestGap(baseGap, maxGap),
                        LayOut(columns, Sorted(StepsOf(columns)), available, availableAt80, baseGap, maxGap))
  {
    var steps := Sorted(StepsOf(columns));
    var end := After(columns, available, baseGap, steps, |steps|).layout;
    assert steps[..|steps|] == steps;
    AllSorted(columns);
    AddsInOrder(columns, available, baseGap, steps);
    forall i: nat | FirstLeftOut(columns, end.widths, i) ensures DidNotFit(columns, available, baseGap, end.widths, i) {
      LeftOutDidNotFit(columns, available, baseGap, steps, i);
    }
    GrowsInOrder(columns, available, baseGap, steps);
    GapStays(columns, available, baseGap, steps, |steps|);
    WidenedIs(end, available, WidestGap(baseGap, maxGap));
    WiderUsesMore(end, Widened(end, available, WidestGap(baseGap, maxGap)));
  }

  lemma WiderUsesMore(a: Layout, b: Layout)
    requires a.widths == b.widths && a.gap <= b.gap
    ensures Used(a) <= Used(b)
  {
    GapsGrow(a.gap, b.gap, Shown(a.widths));
  }

  lemma {:induction false} GapsGrow(a: nat, b: nat, n: nat)
    requires a <= b
    ensures Gaps(a, n) <= Gaps(b, n)
  {
    if n > 1 {
      GapsGrow(a, b, n - 1);
    }
  }
}
