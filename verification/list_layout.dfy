// The layout of a list as it is worked out, a step at a time.
module ListLayout {
  import opened ListColumns
  import opened ListOrder

  method UsedWidth(layout: Layout) returns (used: nat)
    ensures used == Used(layout)
  {
    used := 0;
    var shown := 0;
    for i := 0 to |layout.widths|
      invariant used == Sum(layout.widths[..i]) && shown == Shown(layout.widths[..i])
    {
      assert layout.widths[..i + 1][..i] == layout.widths[..i];
      if layout.widths[i] > 0 {
        used := used + layout.widths[i];
        shown := shown + 1;
      }
    }
    assert layout.widths[..|layout.widths|] == layout.widths;
    GapsMultiply(layout.gap, shown);
    used := if shown > 1 then used + layout.gap * (shown - 1) else used;
  }

  // What is always shown, as narrow as it is, and nothing else.
  predicate OnlyAlwaysShown(columns: seq<Column>, baseGap: nat, layout: Layout) {
    && layout.gap == baseGap && |layout.widths| == |columns|
    && forall k :: 0 <= k < |columns| ==> layout.widths[k] == if columns[k].addPriority == 0 then columns[k].width else 0
  }

  method LayOutList(columns: seq<Column>, available: int, availableAt80: int, baseGap: nat, maxGap: int) returns (layout: Layout)
    ensures AreSteps(Sorted(StepsOf(columns)), columns)
    ensures layout == LayOut(columns, Sorted(StepsOf(columns)), available, availableAt80, baseGap, maxGap)
    ensures available <= availableAt80 ==> OnlyAlwaysShown(columns, baseGap, layout)
    ensures available > availableAt80 ==> WellLaidOut(columns, available, baseGap, WidestGap(baseGap, maxGap), layout)
  {
    SortedAreSteps(columns);
    var steps;
    layout, steps := Begin(columns, baseGap);
    if available <= availableAt80 {
      return;
    }
    LaidOutWell(columns, available, availableAt80, baseGap, maxGap);
    layout := TakeSteps(columns, available, layout, steps);
    layout := WidenGaps(layout, available, WidestGap(baseGap, maxGap));
  }

  // The columns always shown, and the steps for all of them.
  method Begin(columns: seq<Column>, baseGap: nat) returns (layout: Layout, steps: seq<Step>)
    ensures layout == Start(columns, baseGap) && steps == Sorted(StepsOf(columns))
  {
    var widths: seq<nat> := [];
    steps := [];
    for i := 0 to |columns|
      invariant widths == Start(columns, baseGap).widths[..i] && steps == StepsOf(columns[..i])
    {
      assert columns[..i + 1][..i] == columns[..i];
      widths := widths + [if columns[i].addPriority == 0 then columns[i].width else 0];
      if columns[i].addPriority > 0 {
        steps := steps + [Step(columns[i].addPriority, i, true)];
      }
      if columns[i].maxWidth > columns[i].width {
        steps := steps + [Step(columns[i].growPriority, i, false)];
      }
    }
    assert columns[..|columns|] == columns;
    steps := Sorted(steps);
    layout := Layout(widths, baseGap);
  }

  method TakeSteps(columns: seq<Column>, available: int, start: Layout, steps: seq<Step>) returns (layout: Layout)
    requires |columns| == |start.widths| && AreSteps(steps, columns)
    ensures layout == TakeAll(columns, available, State(start, false), steps).layout
  {
    layout := start;
    var addFailed := false;
    for k := 0 to |steps|
      invariant |layout.widths| == |columns|
      invariant State(layout, addFailed) == TakeAll(columns, available, State(start, false), steps[..k])
    {
      assert steps[..k + 1][..k] == steps[..k];
      layout, addFailed := TakeStep(columns, available, layout, addFailed, steps[k]);
    }
    assert steps[..|steps|] == steps;
  }

  method TakeStep(columns: seq<Column>, available: int, start: Layout, failed: bool, step: Step) returns (layout: Layout, addFailed: bool)
    requires step.column < |columns| == |start.widths|
    ensures State(layout, addFailed) == Take(columns, available, State(start, failed), step)
  {
    layout, addFailed := start, failed;
    var used := UsedWidth(layout);
    var room := available - used;
    var i := step.column;
    var column := columns[i];
    if step.add && addFailed {
      return;
    }
    if step.add {
      var before := layout.widths[i];
      if before != 0 || (i > 0 && columns[i - 1].withNext) {
        return;
      }
      if column.withNext && i + 1 < |columns| {
        var next := columns[i + 1];
        if layout.widths[i + 1] == 0 && room >= column.width + next.width + 2 * layout.gap {
          layout := layout.(widths := layout.widths[i := column.width][i + 1 := next.width]);
        }
      } else if room >= column.width + layout.gap {
        layout := layout.(widths := layout.widths[i := column.width]);
      }
      addFailed := layout.widths[i] == before;
    } else if layout.widths[i] > 0 && room > 0 {
      var most := layout.widths[i] + room;
      var grown := if column.maxWidth < most then column.maxWidth else most;
      layout := layout.(widths := layout.widths[i := if layout.widths[i] < grown then grown else layout.widths[i]]);
      assert start.widths[i := start.widths[i]] == start.widths;
    }
  }

  method WidenGaps(start: Layout, available: int, widest: int) returns (layout: Layout)
    ensures layout == Widened(start, available, widest)
  {
    layout := start;
    var shown := 0;
    for i := 0 to |layout.widths|
      invariant shown == Shown(layout.widths[..i])
    {
      assert layout.widths[..i + 1][..i] == layout.widths[..i];
      shown := shown + if layout.widths[i] > 0 then 1 else 0;
    }
    assert layout.widths[..|layout.widths|] == layout.widths;
    while true
      invariant layout.widths == start.widths && Widened(layout, available, widest) == Widened(start, available, widest)
      decreases widest - layout.gap
    {
      if shown != |layout.widths| || shown <= 1 || layout.gap >= widest {
        break;
      }
      var used := UsedWidth(layout);
      if available - used < shown - 1 {
        break;
      }
      layout := layout.(gap := layout.gap + 1);
    }
  }
}
