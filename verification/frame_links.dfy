// What happens when there is no room for a link: what is kept says there is
// none, and a frame that takes the link away is taken for one that changes
// nothing.
module FrameLinks {
  import opened FrameTerminal
  import opened FrameWriting

  // The frame without the links that were turned away.
  function Dropped(f: Frame, cells: seq<seq<Pixel>>, links: seq<string>): Frame
    requires AllKept(f, cells, links, false)
  {
    f.(pixels := seq(|f.pixels|, y requires 0 <= y < |f.pixels| => DroppedRow(f, y, cells, links)))
  }

  function DroppedRow(f: Frame, y: nat, cells: seq<seq<Pixel>>, links: seq<string>): (row: seq<Pixel>)
    requires AllKept(f, cells, links, false) && y < |f.pixels|
    ensures |row| == |f.pixels[y]|
  {
    assert KeptAs(f, y, cells[y], links, false);
    seq(|f.pixels[y]|, x requires 0 <= x < |f.pixels[y]| =>
      if LinkOf(links, cells[y][x].link) == LinkNamed(f, y, x) then f.pixels[y][x] else f.pixels[y][x].(link := 0))
  }

  predicate PlainHalves(f: Frame) {
    forall y, x :: 0 <= y < |f.pixels| && 0 < x < |f.pixels[y]| && IsCovered(f.pixels[y], x) ==> LinkNamed(f, y, x) == ""
  }

  lemma DroppedIsKept(f: Frame, k: Shadow)
    requires FrameFits(f) && AllKept(f, k.cells, k.links, false)
    ensures var g := Dropped(f, k.cells, k.links);
            FrameFits(g) && SameCells(k, g) && CursorX(g) == CursorX(f) && CursorY(g) == CursorY(f) && Shape(g) == Shape(f)
  {
    var g := Dropped(f, k.cells, k.links);
    forall y | 0 <= y < g.height
      ensures |g.pixels[y]| == g.width && RowFits(g.pixels[y]) && SameRow(g.pixels[y], g.links, k.cells[y], k.links)
    {
      assert KeptAs(f, y, k.cells[y], k.links, false);
      forall x | 0 <= x < g.width ensures PixelFits(g.pixels[y], x) && Same(g.pixels[y][x], g.links, k.cells[y][x], k.links) {
        assert PixelFits(f.pixels[y], x);
        assert k.cells[y][x].glyph == f.pixels[y][x].glyph;
      }
    }
  }

  // Somewhere it still shows a link.
  lemma DroppedShows(f: Frame, k: Shadow, t: Terminal)
    requires FrameFits(f) && AllKept(f, k.cells, k.links, false) && !SameCells(k, f) && PlainHalves(f)
    requires Shows(t, f.pixels, f.links)
    ensures var g := Dropped(f, k.cells, k.links); !Shows(t, g.pixels, g.links)
  {
    var g := Dropped(f, k.cells, k.links);
    var y :| 0 <= y < |k.cells| && !SameRow(f.pixels[y], f.links, k.cells[y], k.links);
    assert KeptAs(f, y, k.cells[y], k.links, false);
    var x :| 0 <= x < |f.pixels[y]| && !Same(f.pixels[y][x], f.links, k.cells[y][x], k.links);
    assert k.cells[y][x].glyph == f.pixels[y][x].glyph;
    assert LinkNamed(f, y, x) != "" && LinkNamed(g, y, x) == "";
    assert !IsCovered(f.pixels[y], x);
    if x > 0 {
      assert k.cells[y][x - 1].glyph == f.pixels[y][x - 1].glyph;
      assert g.pixels[y][x - 1].glyph == f.pixels[y][x - 1].glyph;
    }
    assert CellOf(f.pixels[y], f.links, x) != CellOf(g.pixels[y], g.links, x);
    assert Image(f.pixels, f.links)[y][x] != Image(g.pixels, g.links)[y][x];
  }

  // The same frame, but that some pixels have no link.
  predicate FewerLinks(g: Frame, f: Frame) {
    && g == f.(pixels := g.pixels) && |g.pixels| == |f.pixels|
    && forall y :: 0 <= y < |f.pixels| ==> FewerInRow(g.pixels[y], f.pixels[y])
  }

  predicate FewerInRow(g: seq<Pixel>, f: seq<Pixel>) {
    |g| == |f| && forall x :: 0 <= x < |f| ==> g[x] == f[x] || g[x] == f[x].(link := 0)
  }

  // A frame written, and some of its links turned away.
  predicate Overflown(k: Shadow, f: Frame, later: int, t: Terminal) {
    && FrameFits(f) && Fit(k) && k.width == f.width && k.height == f.height && Shows(t, f.pixels, f.links)
    && NearlyShows(t, k.cells, k.links) && AllKept(f, k.cells, k.links, false) && !SameCells(k, f)
    && later - k.lastRefresh < REFRESH_INTERVAL && k.cursorShape == Shape(f)
    && (Shape(f) != HIDDEN ==> k.cursorX == CursorX(f) && k.cursorY == CursorY(f))
  }

  // When the cells last were written whole.
  function RefreshedAt(k: Shadow, f: Frame, full: bool, now: int): int {
    if Refreshes(k, f, full, now) then now else k.lastRefresh
  }

  // Whatever was written before: when a frame has more links than can be kept
  // with those met, the same frame without the links turned away sends nothing,
  // and the screen still has them.
  method LinksStay(w: FrameWriter, f: Frame, full: bool, now: int, later: int, ghost t: Terminal)
    returns (g: Frame, first: seq<Op>, second: seq<Op>)
    requires FrameFits(f) && PlainHalves(f) && Fit(w.Shadow()) && Suits(w.Shadow(), t, f, full, now)
    requires Refreshes(w.Shadow(), f, full, now) || Shows(t, w.cells, w.links)
    requires !Room(LinksMet(w.Shadow(), f, full)) && later - RefreshedAt(w.Shadow(), f, full, now) < REFRESH_INTERVAL
    modifies w
    ensures FrameFits(g) && FewerLinks(g, f) && second == []
    ensures var end := Run(Run(t, first), second); Shows(end, f.pixels, f.links) && !Shows(end, g.pixels, g.links)
  {
    ghost var k := w.Shadow();
    first := w.Write(f, full, now, t);
    WrittenOverflows(k, w.Shadow(), f, full, now, later, t, Run(t, first), Left(k, f, full, now, t.cursor));
    g, second := WriteFewer(w, f, later, Run(t, first));
  }

  lemma WrittenOverflows(k: Shadow, after: Shadow, f: Frame, full: bool, now: int, later: int, t: Terminal, end: Terminal, left: Place)
    requires FrameFits(f) && Fit(after) && Written(k, after, f, full, now, t, end) && Placed(k, after, f, full, now, t, end, left)
    requires Refreshes(k, f, full, now) || Shows(t, k.cells, k.links)
    requires !Room(LinksMet(k, f, full)) && later - RefreshedAt(k, f, full, now) < REFRESH_INTERVAL
    ensures Overflown(after, f, later, end)
  {
  }

  // So it is after the first frame of all, if it has too many.
  method LinksStayAtFirst(f: Frame, now: int, later: int, ghost t: Terminal) returns (g: Frame, first: seq<Op>, second: seq<Op>)
    requires FrameFits(f) && PlainHalves(f) && HasSize(t, f.width, f.height) && !Room(Met(f) + {""})
    requires later - now < REFRESH_INTERVAL
    ensures FrameFits(g) && FewerLinks(g, f) && second == []
    ensures var end := Run(Run(t, first), second); Shows(end, f.pixels, f.links) && !Shows(end, g.pixels, g.links)
  {
    var w := new FrameWriter();
    Overflows(f, w.Shadow());
    g, first, second := LinksStay(w, f, true, now, later, t);
  }

  method WriteFewer(w: FrameWriter, f: Frame, later: int, ghost t: Terminal) returns (g: Frame, ops: seq<Op>)
    requires Overflown(w.Shadow(), f, later, t) && PlainHalves(f)
    modifies w
    ensures FrameFits(g) && FewerLinks(g, f) && ops == [] && !Shows(t, g.pixels, g.links)
  {
    g := Dropped(f, w.cells, w.links);
    DroppedIsQuiet(w.Shadow(), f, g, later, t);
    ops := w.Write(g, false, later, t);
  }

  lemma DroppedIsQuiet(k: Shadow, f: Frame, g: Frame, later: int, t: Terminal)
    requires Overflown(k, f, later, t) && PlainHalves(f) && g == Dropped(f, k.cells, k.links)
    ensures FrameFits(g) && FewerLinks(g, f) && !Shows(t, g.pixels, g.links)
    ensures Suits(k, t, g, false, later) && Unchanged(k, g, false, later)
  {
    DroppedIsKept(f, k);
    DroppedShows(f, k, t);
    SuitsAgain(k, t, f);
  }

  lemma Overflows(f: Frame, k: Shadow)
    requires !Room(Met(f) + {""})
    ensures !Room(LinksMet(k, f, true))
  {
    assert Names([""]) == {""};
    assert LinksMet(k, f, true) == Met(f) + {""};
  }

  lemma SuitsAgain(k: Shadow, t: Terminal, f: Frame)
    requires FrameFits(f) && Fit(k) && k.width == f.width && k.height == f.height
    requires Shows(t, f.pixels, f.links) && NearlyShows(t, k.cells, k.links)
    ensures HasSize(t, f.width, f.height) && t.link == "" && GridPaired(t.grid)
  {
    forall y | 0 <= y < f.height ensures |t.grid[y]| == f.width && Paired(t.grid[y]) {
      ImageIsDrawable(f.pixels[y], f.links);
    }
  }

  // There are such frames: one row, each cell with a link of its own.
  function ManyLinks(): Frame {
    Frame(257, 1, [seq(257, i => BLANK_PIXEL.(link := if i < 0 then 0 else i))], seq(257, i => Filled(if i < 0 then 0 else i, 'a')), 0, 0, HIDDEN)
  }

  lemma TooMany()
    ensures FrameFits(ManyLinks()) && PlainHalves(ManyLinks()) && !Room(Met(ManyLinks()) + {""})
  {
    var f := ManyLinks();
    forall x | 0 <= x < 257 ensures PixelFits(f.pixels[0], x) && LinkNamed(f, 0, x) == f.links[x] {
      assert f.pixels[0][x].link == x;
    }
    forall x | 0 <= x < 257 ensures |f.links[x]| == x {
      assert f.links[x] == Filled(x, 'a');
    }
    assert |f.links| == 257 && Distinct(f.links);
    NamesCount(f.links);
    SubsetCount(Names(f.links), Met(f) + {""});
  }
}
