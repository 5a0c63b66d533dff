// Frame after frame on one terminal, of any sizes, each repainted, refreshed or
// only changed: what is on the screen in the end, what is kept of it, and where
// the cursor is, told from the frames alone.
module FrameSequences {
  import opened FrameTerminal
  import opened FrameWriting

  // A frame, whether all of it is to be repainted, and the time.
  datatype Showing = Showing(frame: Frame, full: bool, now: int)

  predicate AllFrames(showings: seq<Showing>) {
    forall i :: 0 <= i < |showings| ==> FrameFits(showings[i].frame)
  }

  // ---- What is to be expected ----

  // After some frames: the last one, the links met since the screen was last
  // cleared, where a visible cursor was last wanted, and where the cursor is,
  // if it is `sure`: links turned away would change what is written.
  datatype Past =
    | Fresh(start: Terminal)
    | Past(frame: Frame, met: set<string>, x: int, y: int, cursor: Place, sure: bool, refreshed: int)
  {
    function Cursor(): Place {
      if Fresh? then start.cursor else cursor
    }
  }

  predicate Resizes(p: Past, f: Frame) {
    p.Fresh? || f.width != p.frame.width || f.height != p.frame.height
  }

  predicate Clears(p: Past, s: Showing) {
    s.full || Resizes(p, s.frame)
  }

  predicate Renews(p: Past, s: Showing) {
    Clears(p, s) || s.now - p.refreshed >= REFRESH_INTERVAL
  }

  function WasShown(p: Past, s: Showing): seq<seq<Pixel>> {
    if Clears(p, s) then Blanks(s.frame) else p.frame.pixels
  }

  function LinksShown(p: Past, s: Showing): seq<string> {
    if Clears(p, s) then [""] else p.frame.links
  }

  predicate PastFits(p: Past) {
    p.Past? ==> FrameFits(p.frame)
  }

  // Where writing its cells leaves the cursor. A terminal of another size has
  // its cursor anywhere.
  function LeftAt(p: Past, s: Showing): Place
    requires PastFits(p) && FrameFits(s.frame)
  {
    LeftBy(MarksOf(p, s), s.frame.width, s.frame.height, if Suddenly(p, s.frame) then Nowhere else p.Cursor())
  }

  // The terminal has just been made the size of this frame.
  predicate Suddenly(p: Past, f: Frame) {
    if p.Fresh? then !HasSize(p.start, f.width, f.height) else Resizes(p, f)
  }

  function MarksOf(p: Past, s: Showing): (marks: seq<int>)
    requires PastFits(p) && FrameFits(s.frame)
    ensures |marks| == s.frame.height
  {
    Marks(s.frame, WasShown(p, s), LinksShown(p, s), !Clears(p, s) && Renews(p, s))
  }

  predicate Repeats(p: Past, s: Showing)
    requires PastFits(p) && FrameFits(s.frame)
  {
    !Renews(p, s) && SameRows(s.frame, p.frame.pixels, p.frame.links, s.frame.height)
  }

  // A visible cursor is put in its place if the frame has anything new, or the
  // place is.
  predicate Puts(p: Past, s: Showing)
    requires PastFits(p) && FrameFits(s.frame)
  {
    Shape(s.frame) != HIDDEN && (!Repeats(p, s) || p.Fresh? || CursorX(s.frame) != p.x || CursorY(s.frame) != p.y)
  }

  ghost function Next(p: Past, s: Showing): Past
    requires PastFits(p) && FrameFits(s.frame)
  {
    var f := s.frame;
    var met := Met(f) + if Clears(p, s) then {""} else p.met;
    Past(f, met,
         if Shape(f) != HIDDEN then CursorX(f) else if p.Fresh? then -1 else p.x,
         if Shape(f) != HIDDEN then CursorY(f) else if p.Fresh? then -1 else p.y,
         if Puts(p, s) then At(CursorX(f), CursorY(f)) else LeftAt(p, s),
         (Renews(p, s) && Shape(f) != HIDDEN) || (p.Past? ==> p.sure && (Clears(p, s) || Room(p.met))),
         if Renews(p, s) then s.now else p.refreshed)
  }

  ghost function PastOf(start: Terminal, showings: seq<Showing>): (p: Past)
    requires AllFrames(showings)
    ensures PastFits(p) && (showings != [] ==> p.Past? && p.frame == showings[|showings| - 1].frame)
  {
    if showings == [] then Fresh(start)
    else
      var before := showings[..|showings| - 1];
      assert AllFrames(before);
      Next(PastOf(start, before), showings[|showings| - 1])
  }

  // ---- What happens ----

  // A terminal made the size of a frame shows anything.
  function Sized(t: Terminal, f: Frame, screen: seq<seq<Cell>>): Terminal {
    if HasSize(t, f.width, f.height) then t else t.(grid := screen, cursor := Nowhere)
  }

  predicate AreScreens(screens: seq<seq<seq<Cell>>>, showings: seq<Showing>, t: Terminal) {
    && |screens| == |showings|
    && forall i :: 0 <= i < |screens| ==> HasSize(t.(grid := screens[i]), showings[i].frame.width, showings[i].frame.height)
  }

  // The terminal when each frame's output has come.
  function Played(t: Terminal, showings: seq<Showing>, screens: seq<seq<seq<Cell>>>, outputs: seq<seq<Op>>): Terminal
    requires |showings| == |screens| == |outputs|
  {
    if outputs == [] then t
    else
      var last := |outputs| - 1;
      Run(Sized(Played(t, showings[..last], screens[..last], outputs[..last]), showings[last].frame, screens[last]), outputs[last])
  }

  lemma PlayedMore(t: Terminal, showings: seq<Showing>, screens: seq<seq<seq<Cell>>>, i: nat, outputs: seq<seq<Op>>, output: seq<Op>)
    requires |outputs| == i < |showings| == |screens|
    ensures Played(t, showings[..i + 1], screens[..i + 1], outputs + [output])
            == Run(Sized(Played(t, showings[..i], screens[..i], outputs), showings[i].frame, screens[i]), output)
  {
    assert showings[..i + 1][..i] == showings[..i] && screens[..i + 1][..i] == screens[..i];
    assert (outputs + [output])[..i] == outputs;
  }

  // What the writer remembers besides the cells is what the frames so far say.
  predicate Tracks(k: Shadow, t: Terminal, p: Past) {
    if p.Fresh? then t == p.start && k.width == 0 && k.height == 0 && k.cursorX == k.cursorY == -1 && k.cursorShape == -1
    else
      && k.width == p.frame.width && k.height == p.frame.height && k.lastRefresh == p.refreshed
      && k.cursorX == p.x && k.cursorY == p.y && t.shape == k.cursorShape == Shape(p.frame)
  }

  // The screen has the characters and styles of the last frame, and its links
  // too, and all of it is kept, as long as there was room for the links met.
  ghost predicate Holds(k: Shadow, t: Terminal, p: Past) {
    p.Past? ==>
      && HasSize(t, p.frame.width, p.frame.height)
      && NearlyShows(t, p.frame.pixels, p.frame.links) && NearlyShows(t, k.cells, k.links)
      && (Room(p.met) ==> Exact(k, t, p))
  }

  ghost predicate Exact(k: Shadow, t: Terminal, p: Past)
    requires p.Past?
  {
    SameCells(k, p.frame) && Names(k.links) == p.met && Shows(t, p.frame.pixels, p.frame.links) && Shows(t, k.cells, k.links)
  }

  predicate CursorHolds(t: Terminal, p: Past) {
    (p.Past? ==> p.sure) ==> t.cursor == p.Cursor()
  }

  ghost predicate Stands(k: Shadow, t: Terminal, p: Past) {
    Fit(k) && PastFits(p) && Tracks(k, t, p) && Holds(k, t, p) && CursorHolds(t, p)
  }

  // Every frame in turn. The screen has the characters and styles of the last.
  // Every link met since the screen was last cleared is kept exactly if there
  // was room for them, and then what is kept is the last frame and so is the
  // screen, links and all.
  method WriteAll(showings: seq<Showing>, ghost t: Terminal, ghost screens: seq<seq<seq<Cell>>>)
    returns (w: FrameWriter, outputs: seq<seq<Op>>, ghost end: Terminal)
    requires AllFrames(showings) && AreScreens(screens, showings, t) && showings != []
    ensures |outputs| == |showings| && end == Played(t, showings, screens, outputs)
    ensures var p := PastOf(t, showings);
            && NearlyShows(end, p.frame.pixels, p.frame.links) && end.shape == Shape(p.frame)
            && (Names(w.links) == p.met <==> Room(p.met))
            && (Room(p.met) ==> SameCells(w.Shadow(), p.frame) && Shows(end, p.frame.pixels, p.frame.links))
            && (p.sure ==> end.cursor == p.cursor)
  {
    w := new FrameWriter();
    outputs, end := [], t;
    ghost var p := PastOf(t, []);
    assert showings[..0] == [] && screens[..0] == [];
    for i := 0 to |showings|
      invariant |outputs| == i && end == Played(t, showings[..i], screens[..i], outputs)
      invariant AllFrames(showings[..i]) && p == PastOf(t, showings[..i]) && Stands(w.Shadow(), end, p)
    {
      PastMore(t, showings, i);
      ghost var before := end;
      var output;
      output, end := WriteNext(w, showings[i], before, screens[i], p);
      PlayedMore(t, showings, screens, i, outputs, output);
      p := Next(p, showings[i]);
      outputs := outputs + [output];
    }
    assert showings[..|showings|] == showings && screens[..|screens|] == screens;
    AtTheEnd(w.Shadow(), end, p);
  }

  lemma PastMore(start: Terminal, showings: seq<Showing>, i: nat)
    requires AllFrames(showings) && i < |showings|
    ensures AllFrames(showings[..i]) && AllFrames(showings[..i + 1]) && FrameFits(showings[i].frame)
    ensures PastOf(start, showings[..i + 1]) == Next(PastOf(start, showings[..i]), showings[i])
  {
    var more := showings[..i + 1];
    assert more[..|more| - 1] == showings[..i];
  }

  lemma AtTheEnd(k: Shadow, t: Terminal, p: Past)
    requires Stands(k, t, p) && p.Past?
    ensures NearlyShows(t, p.frame.pixels, p.frame.links) && t.shape == Shape(p.frame)
    ensures Names(k.links) == p.met <==> Room(p.met)
    ensures Room(p.met) ==> SameCells(k, p.frame) && Shows(t, p.frame.pixels, p.frame.links)
    ensures p.sure ==> t.cursor == p.cursor
  {
    NamesCount(k.links);
  }

  // One more frame.
  method WriteNext(w: FrameWriter, s: Showing, ghost t: Terminal, ghost screen: seq<seq<Cell>>, ghost p: Past)
    returns (output: seq<Op>, ghost end: Terminal)
    requires Stands(w.Shadow(), t, p) && FrameFits(s.frame) && HasSize(t.(grid := screen), s.frame.width, s.frame.height)
    modifies w
    ensures end == Run(Sized(t, s.frame, screen), output) && Stands(w.Shadow(), end, Next(p, s))
  {
    ghost var k, sized := w.Shadow(), Sized(t, s.frame, screen);
    Suited(k, t, p, s, screen);
    output := w.Write(s.frame, s.full, s.now, sized);
    end := Run(sized, output);
    StandsOn(k, w.Shadow(), t, sized, end, p, s, screen);
  }

  lemma Suited(k: Shadow, t: Terminal, p: Past, s: Showing, screen: seq<seq<Cell>>)
    requires Stands(k, t, p) && FrameFits(s.frame) && HasSize(t.(grid := screen), s.frame.width, s.frame.height)
    ensures Suits(k, Sized(t, s.frame, screen), s.frame, s.full, s.now)
    ensures Clears(p, s) == Repaints(k, s.frame, s.full) && Renews(p, s) == Refreshes(k, s.frame, s.full, s.now)
  {
    if !Clears(p, s) {
      ImageIsPaired(k.cells, k.links);
      NearlyPaired(t.grid, Image(k.cells, k.links));
    }
  }

  lemma NearlyPaired(grid: seq<seq<Cell>>, image: seq<seq<Cell>>)
    requires NearlyAll(grid, image) && GridPaired(image)
    ensures GridPaired(grid)
  {
    forall y | 0 <= y < |grid| ensures Paired(grid[y]) {
      assert Nearly(grid[y], image[y]) && Paired(image[y]);
      forall x | 0 <= x < |grid[y]| ensures PairedAt(grid[y], x) {
        assert PairedAt(image[y], x) && Alike(grid[y][x], image[y][x]);
        if x > 0 {
          assert Alike(grid[y][x - 1], image[y][x - 1]);
        }
        if x + 1 < |grid[y]| {
          assert Alike(grid[y][x + 1], image[y][x + 1]);
        }
      }
    }
  }

  lemma StandsOn(k: Shadow, after: Shadow, t: Terminal, sized: Terminal, end: Terminal, p: Past, s: Showing, screen: seq<seq<Cell>>)
    requires Stands(k, t, p) && FrameFits(s.frame) && sized == Sized(t, s.frame, screen)
    requires Clears(p, s) == Repaints(k, s.frame, s.full) && Renews(p, s) == Refreshes(k, s.frame, s.full, s.now)
    requires Fit(after) && Written(k, after, s.frame, s.full, s.now, sized, end)
    requires Placed(k, after, s.frame, s.full, s.now, sized, end, Left(k, s.frame, s.full, s.now, sized.cursor))
    ensures Stands(after, end, Next(p, s))
  {
    SizedIs(k, t, p, s, screen);
    TracksOn(k, after, t, sized, end, p, s);
    HoldsOn(k, after, t, sized, end, p, s);
    CursorOn(k, after, t, sized, end, p, s);
  }

  lemma SizedIs(k: Shadow, t: Terminal, p: Past, s: Showing, screen: seq<seq<Cell>>)
    requires Tracks(k, t, p) && Holds(k, t, p) && PastFits(p) && FrameFits(s.frame)
    ensures Sized(t, s.frame, screen).shape == t.shape && (Clears(p, s) || Sized(t, s.frame, screen) == t)
    ensures Sized(t, s.frame, screen).cursor == if Suddenly(p, s.frame) then Nowhere else t.cursor
  {
    if p.Past? && HasSize(t, s.frame.width, s.frame.height) {
      assert |t.grid[0]| == p.frame.width == s.frame.width;
    }
  }

  lemma TracksOn(k: Shadow, after: Shadow, t: Terminal, sized: Terminal, end: Terminal, p: Past, s: Showing)
    requires PastFits(p) && Tracks(k, t, p) && Fit(k) && FrameFits(s.frame) && sized.shape == t.shape
    requires Renews(p, s) == Refreshes(k, s.frame, s.full, s.now)
    requires after.width == s.frame.width && after.height == s.frame.height
    requires after.lastRefresh == (if Refreshes(k, s.frame, s.full, s.now) then s.now else k.lastRefresh)
    requires Placed(k, after, s.frame, s.full, s.now, sized, end, Left(k, s.frame, s.full, s.now, sized.cursor))
    ensures Tracks(after, end, Next(p, s))
  {
  }

  lemma HoldsOn(k: Shadow, after: Shadow, t: Terminal, sized: Terminal, end: Terminal, p: Past, s: Showing)
    requires PastFits(p) && Holds(k, t, p) && FrameFits(s.frame) && (Clears(p, s) || sized == t)
    requires Clears(p, s) == Repaints(k, s.frame, s.full)
    requires Fit(after) && Written(k, after, s.frame, s.full, s.now, sized, end)
    ensures Holds(after, end, Next(p, s))
  {
    NearlySized(end, s.frame);
    if Room(Next(p, s).met) {
      LinksAgree(k, t, p, s);
      SameLooksSame(end, after, s.frame);
    }
  }

  lemma NearlySized(t: Terminal, f: Frame)
    requires FrameFits(f) && NearlyShows(t, f.pixels, f.links)
    ensures HasSize(t, f.width, f.height)
  {
    forall y | 0 <= y < f.height ensures |t.grid[y]| == f.width {
      assert Nearly(t.grid[y], Image(f.pixels, f.links)[y]);
    }
  }

  lemma LinksAgree(k: Shadow, t: Terminal, p: Past, s: Showing)
    requires PastFits(p) && Holds(k, t, p) && FrameFits(s.frame) && Clears(p, s) == Repaints(k, s.frame, s.full)
    requires Room(Next(p, s).met)
    ensures LinksMet(k, s.frame, s.full) == Next(p, s).met
    ensures !Clears(p, s) ==> Shows(t, k.cells, k.links)
  {
    if Clears(p, s) {
      assert Names([""]) == {""};
    } else {
      SubsetCount(p.met, Next(p, s).met);
    }
  }

  lemma SameLooksSame(t: Terminal, k: Shadow, f: Frame)
    requires FrameFits(f) && SameCells(k, f) && Shows(t, f.pixels, f.links)
    ensures Shows(t, k.cells, k.links)
  {
    forall y | 0 <= y < f.height ensures RowImage(k.cells[y], k.links) == RowImage(f.pixels[y], f.links) {
      SameRowsLookAlike(f.pixels[y], f.links, k.cells[y], k.links);
    }
    assert Image(k.cells, k.links) == Image(f.pixels, f.links);
  }

  lemma CursorOn(k: Shadow, after: Shadow, t: Terminal, sized: Terminal, end: Terminal, p: Past, s: Showing)
    requires Fit(k) && PastFits(p) && FrameFits(s.frame) && Tracks(k, t, p) && Holds(k, t, p) && CursorHolds(t, p)
    requires sized.cursor == if Suddenly(p, s.frame) then Nowhere else t.cursor
    requires Clears(p, s) == Repaints(k, s.frame, s.full) && Renews(p, s) == Refreshes(k, s.frame, s.full, s.now)
    requires Placed(k, after, s.frame, s.full, s.now, sized, end, Left(k, s.frame, s.full, s.now, sized.cursor))
    ensures CursorHolds(end, Next(p, s))
  {
    if p.Past? ==> p.sure && (Clears(p, s) || Room(p.met)) {
      CursorAgrees(k, t, sized, p, s);
    }
  }

  // What is kept being the frame before, the same cells are written.
  lemma CursorAgrees(k: Shadow, t: Terminal, sized: Terminal, p: Past, s: Showing)
    requires Fit(k) && PastFits(p) && FrameFits(s.frame) && Clears(p, s) == Repaints(k, s.frame, s.full)
    requires Renews(p, s) == Refreshes(k, s.frame, s.full, s.now)
    requires !Clears(p, s) ==> k.width == p.frame.width && k.height == p.frame.height && SameCells(k, p.frame)
    requires t.cursor == p.Cursor() && sized.cursor == if Suddenly(p, s.frame) then Nowhere else t.cursor
    ensures Left(k, s.frame, s.full, s.now, sized.cursor) == LeftAt(p, s)
    ensures !Renews(p, s) ==> (SameCells(k, s.frame) <==> Repeats(p, s))
  {
    if !Clears(p, s) {
      MarksAgree(s.frame, p.frame, k, Renews(p, s));
      assert Marks(s.frame, k.cells, k.links, Renews(p, s)) == MarksOf(p, s);
    }
  }

  lemma MarksAgree(f: Frame, was: Frame, k: Shadow, everything: bool)
    requires FrameFits(f) && FrameFits(was) && Fit(k) && k.width == was.width == f.width && k.height == was.height == f.height
    requires SameCells(k, was)
    ensures Marks(f, k.cells, k.links, everything) == Marks(f, was.pixels, was.links, everything)
    ensures SameCells(k, f) <==> SameRows(f, was.pixels, was.links, f.height)
  {
    forall y | 0 <= y < f.height
      ensures LastMark(f.pixels[y], f.links, k.cells[y], k.links, everything)
              == LastMark(f.pixels[y], f.links, was.pixels[y], was.links, everything)
      ensures SameRow(f.pixels[y], f.links, k.cells[y], k.links) <==> SameRow(f.pixels[y], f.links, was.pixels[y], was.links)
    {
      assert SameRow(was.pixels[y], was.links, k.cells[y], k.links);
      MarkAgrees(f.pixels[y], f.links, was.pixels[y], was.links, k.cells[y], k.links, everything);
    }
  }

  lemma MarkAgrees(now: seq<Pixel>, nowLinks: seq<string>, was: seq<Pixel>, wasLinks: seq<string>, kept: seq<Pixel>, links: seq<string>,
                   everything: bool)
    requires |now| == |was| && SameRow(was, wasLinks, kept, links)
    ensures MarkedRow(now, nowLinks, kept, links, everything) == MarkedRow(now, nowLinks, was, wasLinks, everything)
    ensures SameRow(now, nowLinks, kept, links) <==> SameRow(now, nowLinks, was, wasLinks)
  {
    forall x | 0 <= x < |now|
      ensures Same(now[x], nowLinks, kept[x], links) == Same(now[x], nowLinks, was[x], wasLinks)
      ensures WideAt(now, kept, x) == WideAt(now, was, x)
    {
      assert Same(was[x], wasLinks, kept[x], links);
    }
    forall x | 0 <= x < |now|
      ensures Marked(now, nowLinks, kept, links, everything, x) == Marked(now, nowLinks, was, wasLinks, everything, x)
    {
      assert Changed(now, nowLinks, kept, links, everything, x) == Changed(now, nowLinks, was, wasLinks, everything, x);
    }
  }
}
