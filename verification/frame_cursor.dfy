// Where the cursor is after any frames: right, unless a frame that hides it
// has written cells since it was last put in its place.
module FrameCursor {
  import opened FrameTerminal
  import opened FrameWriting
  import opened FrameSequences

  // The frame has the cursor elsewhere, or put back where it is.
  predicate Stirs(p: Past, s: Showing)
    requires PastFits(p) && FrameFits(s.frame)
  {
    if Shape(s.frame) != HIDDEN then Puts(p, s)
    else Suddenly(p, s.frame) || !NoneBy(MarksOf(p, s), s.frame.height)
  }

  // The last frame that did, or -1.
  ghost function LastStir(start: Terminal, showings: seq<Showing>): (j: int)
    requires AllFrames(showings)
    ensures -1 <= j < |showings|
  {
    if showings == [] then -1
    else
      var before := showings[..|showings| - 1];
      assert AllFrames(before);
      if Stirs(PastOf(start, before), showings[|showings| - 1]) then |before| else LastStir(start, before)
  }

  // Where a visible cursor was last wanted, if it ever was.
  function Wanted(p: Past): Place {
    if p.Past? && p.x >= 0 && p.y >= 0 then At(p.x, p.y) else Nowhere
  }

  ghost predicate Straightened(start: Terminal, showings: seq<Showing>, j: int)
    requires AllFrames(showings) && 0 <= j < |showings|
  {
    var s := showings[j];
    assert AllFrames(showings[..j]);
    Shape(s.frame) != HIDDEN || LeftAt(PastOf(start, showings[..j]), s) == Wanted(PastOf(start, showings))
  }

  // Once there has been a visible cursor, it is where it was last wanted
  // exactly if the last frame to stir it was one that shows it, or happened to
  // stop writing there.
  lemma {:induction false} RightIff(start: Terminal, showings: seq<Showing>)
    requires AllFrames(showings) && showings != []
    ensures var p := PastOf(start, showings);
            && (p.x == p.y == -1 || (p.x >= 0 && p.y >= 0))
            && (Wanted(p) != Nowhere ==>
                  var j := LastStir(start, showings);
                  j >= 0 && (p.cursor == Wanted(p) <==> Straightened(start, showings, j)))
    decreases |showings|
  {
    var last := |showings| - 1;
    var before, s := showings[..last], showings[last];
    assert AllFrames(before);
    var p := PastOf(start, before);
    if before != [] {
      RightIff(start, before);
    }
    StirredOrNot(p, s);
    if !Stirs(p, s) && Wanted(Next(p, s)) != Nowhere {
      StraightenedBefore(start, showings, LastStir(start, before));
    }
  }

  lemma StraightenedBefore(start: Terminal, showings: seq<Showing>, j: int)
    requires AllFrames(showings) && 0 <= j < |showings| - 1 && AllFrames(showings[..|showings| - 1])
    requires Wanted(PastOf(start, showings)) == Wanted(PastOf(start, showings[..|showings| - 1]))
    ensures Straightened(start, showings, j) <==> Straightened(start, showings[..|showings| - 1], j)
  {
    assert showings[..j] == showings[..|showings| - 1][..j];
  }

  // A frame that does not stir the cursor leaves it, and leaves it wanted where
  // it was.
  lemma StirredOrNot(p: Past, s: Showing)
    requires PastFits(p) && FrameFits(s.frame)
    ensures Stirs(p, s) && Shape(s.frame) != HIDDEN ==> Next(p, s).cursor == Wanted(Next(p, s))
    ensures Stirs(p, s) && Shape(s.frame) == HIDDEN ==> Next(p, s).cursor == LeftAt(p, s)
    ensures !Stirs(p, s) ==> Next(p, s).cursor == p.Cursor() && (Wanted(Next(p, s)) != Nowhere ==> Wanted(Next(p, s)) == Wanted(p))
  {
    if !Stirs(p, s) {
      if Shape(s.frame) != HIDDEN {
        RepeatsMarkNothing(p, s);
      }
      NothingLeft(MarksOf(p, s), s.frame.width, s.frame.height, p.Cursor());
    }
  }

  lemma RepeatsMarkNothing(p: Past, s: Showing)
    requires PastFits(p) && FrameFits(s.frame) && Repeats(p, s)
    ensures NoneBy(MarksOf(p, s), s.frame.height)
  {
    forall y | 0 <= y < s.frame.height ensures MarksOf(p, s)[y] < 0 {
      var now, was := s.frame.pixels[y], p.frame.pixels[y];
      assert SameRow(now, s.frame.links, was, p.frame.links);
      forall x | 0 <= x < |was| ensures !Changed(now, s.frame.links, was, p.frame.links, false, x) {
        assert Same(now[x], s.frame.links, was[x], p.frame.links);
      }
      NothingMarked(s.frame, y, was, p.frame.links, false);
    }
  }

  lemma {:induction false} NothingLeft(marks: seq<int>, width: nat, rows: nat, cursor: Place)
    requires NoneBy(marks, rows)
    ensures LeftBy(marks, width, rows, cursor) == cursor
  {
    if rows > 0 {
      NothingLeft(marks, width, rows - 1, cursor);
    }
  }

  // ---- A run that goes wrong ----

  const X_PIXEL: Pixel := BLANK_PIXEL.(glyph := Glyph("x", 1))

  // Three columns, the middle one blank or not, and a cursor in the first.
  function Three(middle: Pixel, shape: int): Frame {
    Frame(3, 1, [[BLANK_PIXEL, middle, BLANK_PIXEL]], [""], 0, 0, shape)
  }

  // A cursor is shown, a frame without one writes a cell, and the same cells
  // are then shown with the cursor where it was.
  const HIDDEN_BETWEEN: seq<Showing> := [
    Showing(Three(BLANK_PIXEL, 1), false, 0), Showing(Three(X_PIXEL, 0), false, 0), Showing(Three(X_PIXEL, 1), false, 0)]

  lemma LeftAstray(start: Terminal)
    requires HasSize(start, 3, 1)
    ensures AllFrames(HIDDEN_BETWEEN)
    ensures var p := PastOf(start, HIDDEN_BETWEEN); p.sure && p.cursor == At(2, 0) && Wanted(p) == At(0, 0)
  {
    ThreeAreFrames();
    var all := HIDDEN_BETWEEN;
    PastMore(start, all, 0);
    PastMore(start, all, 1);
    PastMore(start, all, 2);
    assert all[..0] == [] && all[..3] == all;
    var p1, p2 := PastOf(start, all[..1]), PastOf(start, all[..2]);
    FirstThree(PastOf(start, all[..0]));
    SecondThree(p1);
    StirredOrNot(p2, all[2]);
    SameThree(p2);
  }

  lemma ThreeAreFrames()
    ensures AllFrames(HIDDEN_BETWEEN)
  {
    ThreeFits(BLANK_PIXEL, 1);
    ThreeFits(X_PIXEL, 0);
    ThreeFits(X_PIXEL, 1);
  }

  lemma ThreeFits(middle: Pixel, shape: int)
    requires middle.glyph.width == 1
    ensures FrameFits(Three(middle, shape))
  {
    var f := Three(middle, shape);
    assert forall x :: 0 <= x < 3 ==> PixelFits(f.pixels[0], x);
  }

  lemma ThreeMet(middle: Pixel, shape: int)
    requires middle.link == 0
    ensures Met(Three(middle, shape)) + {""} == {""} && Room({""})
  {
    var f := Three(middle, shape);
    assert forall x :: 0 <= x < 3 ==> LinkNamed(f, 0, x) == "";
  }

  lemma FirstThree(p: Past)
    requires p.Fresh? && FrameFits(HIDDEN_BETWEEN[0].frame)
    ensures var q := Next(p, HIDDEN_BETWEEN[0]);
            q.frame == HIDDEN_BETWEEN[0].frame && q.met == {""} && q.x == q.y == 0 && q.sure && q.refreshed == 0
  {
    ThreeMet(BLANK_PIXEL, 1);
  }

  lemma SecondThree(p: Past)
    requires FrameFits(HIDDEN_BETWEEN[0].frame) && FrameFits(HIDDEN_BETWEEN[1].frame)
    requires p.Past? && p.frame == HIDDEN_BETWEEN[0].frame && p.met == {""} && p.x == p.y == 0 && p.sure && p.refreshed == 0
    ensures var q := Next(p, HIDDEN_BETWEEN[1]);
            q.frame == HIDDEN_BETWEEN[1].frame && q.met == {""} && q.x == q.y == 0 && q.sure && q.refreshed == 0 && q.cursor == At(2, 0)
  {
    ThreeMet(X_PIXEL, 0);
    assert Room({""});
    var s := HIDDEN_BETWEEN[1];
    var now, was := s.frame.pixels[0], p.frame.pixels[0];
    var marked := MarkedRow(now, [""], was, [""], false);
    assert marked[1] == Marked(now, [""], was, [""], false, 1) == true;
    assert marked[2] == Marked(now, [""], was, [""], false, 2) == false;
    assert LastTrue(marked, 3) == 1;
    assert MarksOf(p, s)[0] == LastMark(now, [""], was, [""], false) == 1;
    assert LeftBy(MarksOf(p, s), 3, 1, p.cursor) == At(2, 0);
  }

  lemma SameThree(p: Past)
    requires FrameFits(HIDDEN_BETWEEN[1].frame) && FrameFits(HIDDEN_BETWEEN[2].frame)
    requires p.Past? && p.frame == HIDDEN_BETWEEN[1].frame && p.met == {""} && p.x == p.y == 0 && p.sure && p.refreshed == 0
    ensures !Stirs(p, HIDDEN_BETWEEN[2]) && Next(p, HIDDEN_BETWEEN[2]).sure && Wanted(Next(p, HIDDEN_BETWEEN[2])) == At(0, 0)
  {
    var s := HIDDEN_BETWEEN[2];
    assert SameRow(s.frame.pixels[0], [""], p.frame.pixels[0], [""]);
    assert Repeats(p, s);
    assert Room({""});
  }

  // And this is what the writer does with them.
  method WriteAstray(ghost t: Terminal) returns (w: FrameWriter, outputs: seq<seq<Op>>, ghost end: Terminal)
    requires HasSize(t, 3, 1)
    ensures |outputs| == 3 && end == Played(t, HIDDEN_BETWEEN, [t.grid, t.grid, t.grid], outputs)
    ensures end.cursor == At(2, 0) && end.shape == 1
  {
    LeftAstray(t);
    w, outputs, end := WriteAll(HIDDEN_BETWEEN, t, [t.grid, t.grid, t.grid]);
  }
}
