// Which columns of a list are shown in the width there is, and how wide.
module ListColumns {
  // Columns with priority 0 are always shown, the others once there is room,
  // in this order; `withNext` is shown only together with the one after it.
  datatype Column = Column(width: nat, maxWidth: nat, addPriority: nat, growPriority: int, withNext: bool)

  datatype Layout = Layout(widths: seq<nat>, gap: nat)

  // One step of widening a list: showing a column, or growing one.
  datatype Step = Step(priority: int, column: nat, add: bool)

  function ComesFirst(a: Step, b: Step): bool {
    if a.priority != b.priority then a.priority < b.priority else a.column < b.column
  }

  // ---- The width a layout takes ----

  function Sum(widths: seq<nat>): nat {
    if widths == [] then 0 else Sum(widths[..|widths| - 1]) + widths[|widths| - 1]
  }

  function Shown(widths: seq<nat>): (n: nat)
    ensures n <= |widths|
  {
    if widths == [] then 0 else Shown(widths[..|widths| - 1]) + if widths[|widths| - 1] > 0 then 1 else 0
  }

  // The gaps between so many columns.
  function Gaps(gap: nat, shown: nat): nat {
    if shown <= 1 then 0 else gap + Gaps(gap, shown - 1)
  }

  function Used(layout: Layout): nat {
    Sum(layout.widths) + Gaps(layout.gap, Shown(layout.widths))
  }

  lemma {:induction false} GapsMultiply(gap: nat, shown: nat)
    ensures Gaps(gap, shown) == if shown > 1 then gap * (shown - 1) else 0
  {
    if shown > 1 {
      GapsMultiply(gap, shown - 1);
      assert shown > 2 ==> gap * (shown - 1) == gap + gap * (shown - 2);
    }
  }

  lemma {:induction false} WiderGaps(gap: nat, shown: nat)
    requires shown > 0
    ensures Gaps(gap + 1, shown) == Gaps(gap, shown) + shown - 1
  {
    if shown > 1 {
      WiderGaps(gap, shown - 1);
    }
  }

  lemma {:induction false} SumOfUpdate(widths: seq<nat>, i: nat, w: nat)
    requires i < |widths|
    ensures Sum(widths[i := w]) == Sum(widths) - widths[i] + w
    ensures Shown(widths[i := w]) == Shown(widths) - (if widths[i] > 0 then 1 else 0) + (if w > 0 then 1 else 0)
  {
    var before, last := widths[..|widths| - 1], |widths| - 1;
    if i < last {
      SumOfUpdate(before, i, w);
      assert widths[i := w][..last] == before[i := w];
    } else {
      assert widths[i := w][..last] == before;
    }
  }

  // A column just shown takes its width, and a gap unless it is the first.
  lemma UsedByOne(layout: Layout, i: nat, w: nat)
    requires i < |layout.widths|
    ensures
      var after := layout.(widths := layout.widths[i := w]);
      if layout.widths[i] == 0 then Used(after) <= Used(layout) + w + layout.gap
      else w >= layout.widths[i] ==> Used(after) == Used(layout) + w - layout.widths[i]
  {
    SumOfUpdate(layout.widths, i, w);
  }

  // ---- One step ----

  // The layout so far, and whether a column didn't fit.
  datatype State = State(layout: Layout, failed: bool)

  predicate AddedByPrevious(columns: seq<Column>, i: nat)
    requires i < |columns|
  {
    i > 0 && columns[i - 1].withNext
  }

  predicate InPair(columns: seq<Column>, i: nat)
    requires i < |columns|
  {
    columns[i].withNext && i + 1 < |columns|
  }

  // The layout with column `i`, and its partner, if there is room for it.
  function Added(columns: seq<Column>, room: int, layout: Layout, i: nat): Layout
    requires i < |columns| == |layout.widths|
  {
    if InPair(columns, i) then
      if layout.widths[i + 1] == 0 && room >= columns[i].width + columns[i + 1].width + 2 * layout.gap
      then layout.(widths := layout.widths[i := columns[i].width][i + 1 := columns[i + 1].width])
      else layout
    else if room >= columns[i].width + layout.gap then layout.(widths := layout.widths[i := columns[i].width])
    else layout
  }

  function Grown(columns: seq<Column>, room: int, layout: Layout, i: nat): Layout
    requires i < |columns| == |layout.widths|
  {
    var w := layout.widths[i];
    if w == 0 || room <= 0 then layout
    else if w + room <= columns[i].maxWidth then layout.(widths := layout.widths[i := w + room])
    else if w < columns[i].maxWidth then layout.(widths := layout.widths[i := columns[i].maxWidth])
    else layout
  }

  // Once a column doesn't fit no other is added.
  function Take(columns: seq<Column>, available: int, s: State, step: Step): (next: State)
    requires step.column < |columns| == |s.layout.widths|
    ensures |next.layout.widths| == |columns|
  {
    var room, i := available - Used(s.layout), step.column;
    if !step.add then s.(layout := Grown(columns, room, s.layout, i))
    else if s.failed || s.layout.widths[i] != 0 || AddedByPrevious(columns, i) then s
    else
      var layout := Added(columns, room, s.layout, i);
      State(layout, layout.widths[i] == s.layout.widths[i])
  }

  predicate AreSteps(steps: seq<Step>, columns: seq<Column>) {
    forall k :: 0 <= k < |steps| ==> steps[k].column < |columns|
  }

  function TakeAll(columns: seq<Column>, available: int, s: State, steps: seq<Step>): (next: State)
    requires |columns| == |s.layout.widths| && AreSteps(steps, columns)
    ensures |next.layout.widths| == |columns|
    decreases |steps|
  {
    if steps == [] then s
    else Take(columns, available, TakeAll(columns, available, s, steps[..|steps| - 1]), steps[|steps| - 1])
  }

  // What is always shown.
  function Start(columns: seq<Column>, baseGap: nat): Layout {
    Layout(seq(|columns|, i requires 0 <= i < |columns| => if columns[i].addPriority == 0 then columns[i].width else 0), baseGap)
  }

  // ---- The layout ----

  // Both steps of each column that is added or grows, in order of priority.
  function StepsOf(columns: seq<Column>): (steps: seq<Step>)
    ensures forall k :: 0 <= k < |steps| ==> steps[k].column < |columns|
  {
    if columns == [] then []
    else
      var i := |columns| - 1;
      var c := columns[i];
      StepsOf(columns[..i])
      + (if c.addPriority > 0 then [Step(c.addPriority, i, true)] else [])
      + (if c.maxWidth > c.width then [Step(c.growPriority, i, false)] else [])
  }

  function Insert(step: Step, sorted: seq<Step>): (r: seq<Step>)
    ensures multiset(r) == multiset(sorted) + multiset{step}
  {
    if sorted == [] then [step]
    else if ComesFirst(step, sorted[0]) then [step] + sorted
    else
      assert sorted == [sorted[0]] + sorted[1..];
      [sorted[0]] + Insert(step, sorted[1..])
  }

  function Sorted(steps: seq<Step>): (sorted: seq<Step>)
    ensures multiset(sorted) == multiset(steps)
  {
    if steps == [] then []
    else
      assert steps == steps[..|steps| - 1] + [steps[|steps| - 1]];
      Insert(steps[|steps| - 1], Sorted(steps[..|steps| - 1]))
  }

  lemma SortedAreSteps(columns: seq<Column>)
    ensures AreSteps(Sorted(StepsOf(columns)), columns)
  {
    var sorted := Sorted(StepsOf(columns));
    forall k | 0 <= k < |sorted|
      ensures sorted[k].column < |columns|
    {
      assert sorted[k] in multiset(sorted);
      assert sorted[k] in StepsOf(columns);
    }
  }

  // The widest gaps there is room for, up to `widest`.
  function Widened(layout: Layout, available: int, widest: int): Layout
    decreases widest - layout.gap
  {
    if Shown(layout.widths) == |layout.widths| && |layout.widths| > 1 && layout.gap < widest
       && available - Used(layout) >= |layout.widths| - 1
    then Widened(layout.(gap := layout.gap + 1), available, widest)
    else layout
  }

  // All of it, with the steps taken in this order.
  function LayOut(columns: seq<Column>, steps: seq<Step>, available: int, availableAt80: int, baseGap: nat, maxGap: int): Layout
    requires AreSteps(steps, columns)
  {
    if available <= availableAt80 then Start(columns, baseGap)
    else
      Widened(TakeAll(columns, available, State(Start(columns, baseGap), false), steps).layout, available,
              WidestGap(baseGap, maxGap))
  }

  function WidestGap(baseGap: nat, maxGap: int): int {
    if maxGap > baseGap + 1 then maxGap else baseGap + 1
  }

  // ---- It fits ----

  function Most(a: int, b: int): int {
    if a < b then b else a
  }

  lemma TakeFits(columns: seq<Column>, available: int, s: State, step: Step)
    requires step.column < |columns| == |s.layout.widths|
    ensures Used(Take(columns, available, s, step).layout) <= Most(available, Used(s.layout))
  {
    var room, i, layout := available - Used(s.layout), step.column, s.layout;
    if !step.add {
      var w := Grown(columns, room, layout, i).widths[i];
      UsedByOne(layout, i, w);
      assert layout.widths[i := layout.widths[i]] == layout.widths;
    } else if InPair(columns, i) {
      var one := layout.(widths := layout.widths[i := columns[i].width]);
      UsedByOne(layout, i, columns[i].width);
      UsedByOne(one, i + 1, columns[i + 1].width);
    } else {
      UsedByOne(layout, i, columns[i].width);
    }
  }

  lemma {:induction false} AllFit(columns: seq<Column>, available: int, s: State, steps: seq<Step>)
    requires |columns| == |s.layout.widths| && AreSteps(steps, columns)
    ensures Used(TakeAll(columns, available, s, steps).layout) <= Most(available, Used(s.layout))
    decreases |steps|
  {
    if steps != [] {
      AllFit(columns, available, s, steps[..|steps| - 1]);
      TakeFits(columns, available, TakeAll(columns, available, s, steps[..|steps| - 1]), steps[|steps| - 1]);
    }
  }

  lemma {:induction false} WidenedFits(layout: Layout, available: int, widest: int)
    ensures Used(Widened(layout, available, widest)) <= Most(available, Used(layout))
    ensures Widened(layout, available, widest).widths == layout.widths
    decreases widest - layout.gap
  {
    if Widened(layout, available, widest) != layout {
      WiderGaps(layout.gap, Shown(layout.widths));
      WidenedFits(layout.(gap := layout.gap + 1), available, widest);
    }
  }

  // A list is never wider than there is room for, gaps and all, unless what is
  // always shown is.
  lemma ListFits(columns: seq<Column>, steps: seq<Step>, available: int, availableAt80: int, baseGap: nat, maxGap: int)
    requires AreSteps(steps, columns)
    ensures Used(LayOut(columns, steps, available, availableAt80, baseGap, maxGap)) <= Most(available, Used(Start(columns, baseGap)))
  {
    var start := State(Start(columns, baseGap), false);
    AllFit(columns, available, start, steps);
    WidenedFits(TakeAll(columns, available, start, steps).layout, available, WidestGap(baseGap, maxGap));
  }

  // ---- More room never costs a column ----

  predicate ShowsAll(a: Layout, b: Layout) {
    |a.widths| == |b.widths| && forall i :: 0 <= i < |a.widths| ==> a.widths[i] > 0 ==> b.widths[i] > 0
  }

  // Until a column fails to fit in the narrower one, both show the same; and
  // are the same, as long as there is room left in it.
  predicate Ahead(a: State, availableA: int, b: State, availableB: int) {
    && ShowsAll(a.layout, b.layout)
    && (!a.failed ==>
          && !b.failed && ShowsAll(b.layout, a.layout) && a.layout.gap == b.layout.gap
          && availableA - Used(a.layout) <= availableB - Used(b.layout)
          && (availableA > Used(a.layout) ==> a.layout == b.layout))
  }

  lemma GrowStaysAhead(columns: seq<Column>, a: State, availableA: int, b: State, availableB: int, step: Step)
    requires step.column < |columns| == |a.layout.widths| && Ahead(a, availableA, b, availableB) && !step.add
    ensures Ahead(Take(columns, availableA, a, step), availableA, Take(columns, availableB, b, step), availableB)
  {
    var i := step.column;
    var nextA, growthA := GrowthOf(columns, availableA - Used(a.layout), a.layout, i);
    var nextB, growthB := GrowthOf(columns, availableB - Used(b.layout), b.layout, i);
    if !a.failed {
      MoreRoomLeavesMore(columns[i], availableA - Used(a.layout), availableB - Used(b.layout), a.layout.widths[i], b.layout.widths[i]);
      Through(b.layout, a.layout, nextB, nextA);
      StillTheSame(a, b, i, nextA, nextB, availableA, availableB, growthA, growthB);
    }
    Through(a.layout, b.layout, nextA, nextB);
    assert Take(columns, availableA, a, step) == a.(layout := nextA);
    assert Take(columns, availableB, b, step) == b.(layout := nextB);
  }

  lemma GrowthOf(columns: seq<Column>, room: int, layout: Layout, i: nat) returns (next: Layout, growth: nat)
    requires i < |columns| == |layout.widths|
    ensures next == Grown(columns, room, layout, i) && growth == Growth(columns[i], room, layout.widths[i])
    ensures next == layout.(widths := layout.widths[i := layout.widths[i] + growth])
    ensures ShowsAll(layout, next) && ShowsAll(next, layout) && Used(next) == Used(layout) + growth
  {
    next, growth := Grown(columns, room, layout, i), Growth(columns[i], room, layout.widths[i]);
    GrowthIs(columns, room, layout, i);
  }

  lemma Through(a: Layout, b: Layout, nextA: Layout, nextB: Layout)
    requires ShowsAll(nextA, a) && ShowsAll(a, b) && ShowsAll(b, nextB)
    ensures ShowsAll(nextA, nextB)
  {
  }

  lemma StillTheSame(a: State, b: State, i: nat, nextA: Layout, nextB: Layout, availableA: int, availableB: int, growthA: nat, growthB: nat)
    requires availableA > Used(a.layout) ==> a.layout == b.layout
    requires i < |a.layout.widths| == |b.layout.widths|
    requires nextA == a.layout.(widths := a.layout.widths[i := a.layout.widths[i] + growthA])
    requires nextB == b.layout.(widths := b.layout.widths[i := b.layout.widths[i] + growthB])
    requires Used(nextA) == Used(a.layout) + growthA && Used(nextB) == Used(b.layout) + growthB
    requires availableA - Used(a.layout) - growthA > 0 ==> growthA == growthB
    ensures availableA > Used(nextA) ==> nextA == nextB
  {
  }

  lemma MoreRoomLeavesMore(column: Column, roomA: int, roomB: int, wA: nat, wB: nat)
    requires roomA <= roomB && (roomA > 0 ==> wA == wB)
    ensures
      var growthA, growthB := Growth(column, roomA, wA), Growth(column, roomB, wB);
      roomA - growthA <= roomB - growthB && (roomA - growthA > 0 ==> growthA == growthB)
  {
  }

  // How much of the room growing a column takes: all of it, if need be.
  function Growth(column: Column, room: int, w: nat): nat {
    if w == 0 || room <= 0 || column.maxWidth <= w then 0
    else if room <= column.maxWidth - w then room
    else column.maxWidth - w
  }

  lemma GrowthIs(columns: seq<Column>, room: int, layout: Layout, i: nat)
    requires i < |columns| == |layout.widths|
    ensures
      var next, growth := Grown(columns, room, layout, i), Growth(columns[i], room, layout.widths[i]);
      && next == layout.(widths := layout.widths[i := layout.widths[i] + growth])
      && ShowsAll(layout, next) && ShowsAll(next, layout) && Used(next) == Used(layout) + growth
  {
    var w := layout.widths[i];
    assert layout.widths[i := w] == layout.widths;
    UsedByOne(layout, i, w + Growth(columns[i], room, w));
  }

  // Nothing more is added without room.
  lemma NoRoomNoColumn(columns: seq<Column>, room: int, layout: Layout, i: nat)
    requires i < |columns| == |layout.widths| && room <= 0 && layout.widths[i] == 0
    ensures Added(columns, room, layout, i) == layout
  {
    var widths := layout.widths;
    assert widths[i := 0] == widths;
    assert i + 1 < |widths| && widths[i + 1] == 0 ==> widths[i + 1 := 0] == widths;
  }

  lemma AddedShows(columns: seq<Column>, room: int, layout: Layout, i: nat)
    requires i < |columns| == |layout.widths| && layout.widths[i] == 0
    ensures ShowsAll(layout, Added(columns, room, layout, i)) && Added(columns, room, layout, i).gap == layout.gap
  {
  }

  lemma AddStaysAhead(columns: seq<Column>, a: State, availableA: int, b: State, availableB: int, step: Step)
    requires step.column < |columns| == |a.layout.widths| && Ahead(a, availableA, b, availableB) && step.add
    ensures Ahead(Take(columns, availableA, a, step), availableA, Take(columns, availableB, b, step), availableB)
  {
    var i := step.column;
    var roomA, roomB := availableA - Used(a.layout), availableB - Used(b.layout);
    if a.failed {
      if b.layout.widths[i] == 0 {
        AddedShows(columns, roomB, b.layout, i);
      }
    } else if a.layout.widths[i] == 0 && !AddedByPrevious(columns, i) {
      AddedShows(columns, roomB, b.layout, i);
      if roomA <= 0 {
        NoRoomNoColumn(columns, roomA, a.layout, i);
      } else {
        assert a.layout == b.layout;
        AddedShows(columns, roomA, a.layout, i);
        FailureAddsNothing(columns, roomA, a.layout, i);
      }
    }
  }

  // A column that doesn't fit adds no partner either; and one that fits does
  // so with more room.
  lemma FailureAddsNothing(columns: seq<Column>, room: int, layout: Layout, i: nat)
    requires i < |columns| == |layout.widths| && layout.widths[i] == 0
    ensures forall more | more >= room ::
              Added(columns, room, layout, i).widths[i] > 0 ==> Added(columns, more, layout, i) == Added(columns, room, layout, i)
  {
  }

  lemma {:induction false} AllStayAhead(columns: seq<Column>, a: State, availableA: int, b: State, availableB: int, steps: seq<Step>)
    requires |columns| == |a.layout.widths| == |b.layout.widths| && AreSteps(steps, columns) && Ahead(a, availableA, b, availableB)
    ensures Ahead(TakeAll(columns, availableA, a, steps), availableA, TakeAll(columns, availableB, b, steps), availableB)
    decreases |steps|
  {
    if steps != [] {
      var before, step := steps[..|steps| - 1], steps[|steps| - 1];
      AllStayAhead(columns, a, availableA, b, availableB, before);
      var nextA, nextB := TakeAll(columns, availableA, a, before), TakeAll(columns, availableB, b, before);
      if step.add {
        AddStaysAhead(columns, nextA, availableA, nextB, availableB, step);
      } else {
        GrowStaysAhead(columns, nextA, availableA, nextB, availableB, step);
      }
    }
  }

  // A wider terminal shows every column a narrower one does.
  lemma MoreRoomShowsMore(columns: seq<Column>, steps: seq<Step>, narrow: int, wide: int, availableAt80: int, baseGap: nat, maxGap: int)
    requires AreSteps(steps, columns) && narrow <= wide
    ensures ShowsAll(LayOut(columns, steps, narrow, availableAt80, baseGap, maxGap), LayOut(columns, steps, wide, availableAt80, baseGap, maxGap))
  {
    var start := State(Start(columns, baseGap), false);
    var a, b := TakeAll(columns, narrow, start, steps), TakeAll(columns, wide, start, steps);
    WidenedFits(a.layout, narrow, WidestGap(baseGap, maxGap));
    WidenedFits(b.layout, wide, WidestGap(baseGap, maxGap));
    if narrow > availableAt80 {
      AllStayAhead(columns, start, narrow, start, wide, steps);
    } else {
      AlwaysShown(columns, wide, start, steps);
    }
  }

  // No step hides a column.
  lemma {:induction false} AlwaysShown(columns: seq<Column>, available: int, s: State, steps: seq<Step>)
    requires |columns| == |s.layout.widths| && AreSteps(steps, columns)
    ensures ShowsAll(s.layout, TakeAll(columns, available, s, steps).layout)
    decreases |steps|
  {
    if steps != [] {
      AlwaysShown(columns, available, s, steps[..|steps| - 1]);
      var before, step := TakeAll(columns, available, s, steps[..|steps| - 1]), steps[|steps| - 1];
      var room := available - Used(before.layout);
      if !step.add {
        GrowthIs(columns, room, before.layout, step.column);
      } else if before.layout.widths[step.column] == 0 {
        AddedShows(columns, room, before.layout, step.column);
      }
    }
  }

  // ---- Pairs ----

  predicate Together(layout: Layout, i: nat)
    requires i + 1 < |layout.widths|
  {
    layout.widths[i] > 0 <==> layout.widths[i + 1] > 0
  }

  // Of a pair the second is always shown, or added only by the first. So they
  // are shown together or not at all, exactly if both or neither are always
  // shown; unless the first is itself the second of a pair, and then the second
  // is never added.
  predicate PairIs(columns: seq<Column>, layout: Layout, i: nat)
    requires i + 1 < |columns| == |layout.widths|
  {
    var first, second := columns[i].addPriority == 0, columns[i + 1].addPriority == 0;
    && (second ==> layout.widths[i + 1] > 0)
    && if AddedByPrevious(columns, i) then layout.widths[i + 1] > 0 <==> second
       else (first ==> layout.widths[i] > 0) && (Together(layout, i) <==> (first <==> second))
  }

  lemma PairStays(columns: seq<Column>, available: int, s: State, step: Step, i: nat)
    requires step.column < |columns| == |s.layout.widths| && i + 1 < |columns| && columns[i].withNext
    requires columns[i].width > 0 && columns[i + 1].width > 0 && PairIs(columns, s.layout, i)
    ensures PairIs(columns, Take(columns, available, s, step).layout, i)
  {
    if !step.add {
      GrowthIs(columns, available - Used(s.layout), s.layout, step.column);
    }
  }

  lemma {:induction false} PairStaysInAll(columns: seq<Column>, available: int, s: State, steps: seq<Step>, i: nat)
    requires |columns| == |s.layout.widths| && AreSteps(steps, columns) && i + 1 < |columns| && columns[i].withNext
    requires columns[i].width > 0 && columns[i + 1].width > 0 && PairIs(columns, s.layout, i)
    ensures PairIs(columns, TakeAll(columns, available, s, steps).layout, i)
    decreases |steps|
  {
    if steps != [] {
      var before := steps[..|steps| - 1];
      PairStaysInAll(columns, available, s, before, i);
      PairStays(columns, available, TakeAll(columns, available, s, before), steps[|steps| - 1], i);
    }
  }

  lemma PairsAreTogether(columns: seq<Column>, steps: seq<Step>, available: int, availableAt80: int, baseGap: nat, maxGap: int, i: nat)
    requires AreSteps(steps, columns) && i + 1 < |columns| && columns[i].withNext
    requires columns[i].width > 0 && columns[i + 1].width > 0
    ensures
      var layout := LayOut(columns, steps, available, availableAt80, baseGap, maxGap);
      |layout.widths| == |columns| && PairIs(columns, layout, i)
  {
    var start := State(Start(columns, baseGap), false);
    PairStaysInAll(columns, available, start, steps, i);
    WidenedFits(TakeAll(columns, available, start, steps).layout, available, WidestGap(baseGap, maxGap));
  }
}
