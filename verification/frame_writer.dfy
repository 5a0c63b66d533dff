// The differential screen writer: it keeps a copy of what the terminal shows
// and sends only what changes it into the next frame. Whatever it sends is
// interpreted by the terminal and shown to leave exactly the frame.
module FrameWriting {
  import opened FrameTerminal

  datatype Style = Style(
    bold: bool, dim: bool, underlined: bool, underlinedDouble: bool, blink: bool, inverted: bool, strikethrough: bool,
    foreground: Color, background: Color)

  const DEFAULT_STYLE: Style := Style(false, false, false, false, false, false, false, DEFAULT_COLOR, DEFAULT_COLOR)

  // A pixel; its link is a number whose meaning its owner keeps.
  datatype Pixel = Pixel(glyph: Glyph, style: Style, link: nat)

  const BLANK_PIXEL: Pixel := Pixel(BLANK, DEFAULT_STYLE, 0)

  const HIDDEN: int := 0
  const BAR: int := 6

  datatype Frame = Frame(width: nat, height: nat, pixels: seq<seq<Pixel>>, links: seq<string>,
                         cursorX: int, cursorY: int, shape: int)

  // The link a number stands for; one out of range stands for none.
  function LinkOf(links: seq<string>, id: nat): string {
    if id < |links| then links[id] else if |links| > 0 then links[0] else ""
  }

  predicate IsWide(p: Pixel) {
    p.glyph.width == 2
  }

  predicate IsCovered(row: seq<Pixel>, x: nat)
    requires x < |row|
  {
    x > 0 && IsWide(row[x - 1])
  }

  // A row FTXUI can draw: what is not covered is a character of one or two
  // columns, nothing covered is wide itself, and no wide character stands in
  // the last column.
  predicate RowFits(row: seq<Pixel>) {
    forall x :: 0 <= x < |row| ==> PixelFits(row, x)
  }

  predicate PixelFits(row: seq<Pixel>, x: nat)
    requires x < |row|
  {
    && (!IsCovered(row, x) ==> 1 <= row[x].glyph.width <= 2)
    && (IsCovered(row, x) ==> !IsWide(row[x]))
    && (IsWide(row[x]) ==> x + 1 < |row|)
  }

  predicate FrameFits(f: Frame) {
    && f.width > 0 && f.height > 0 && |f.pixels| == f.height && |f.links| > 0 && f.links[0] == ""
    && forall y :: 0 <= y < f.height ==> |f.pixels[y]| == f.width && RowFits(f.pixels[y])
  }

  // ---- What a row of pixels looks like ----

  function RenditionOf(s: Style): Rendition {
    Rendition(s.bold, s.dim, if s.underlined then Single else if s.underlinedDouble then Double else NoLine,
              s.blink, s.inverted, s.strikethrough, s.foreground, s.background)
  }

  function CellOf(row: seq<Pixel>, links: seq<string>, x: nat): Cell
    requires x < |row|
  {
    if IsCovered(row, x) then Covered else Shown(row[x].glyph, RenditionOf(row[x].style), LinkOf(links, row[x].link))
  }

  function RowImage(row: seq<Pixel>, links: seq<string>): (image: seq<Cell>)
    ensures |image| == |row|
  {
    seq(|row|, x requires 0 <= x < |row| => CellOf(row, links, x))
  }

  function Image(pixels: seq<seq<Pixel>>, links: seq<string>): (image: seq<seq<Cell>>)
    ensures |image| == |pixels|
  {
    seq(|pixels|, y requires 0 <= y < |pixels| => RowImage(pixels[y], links))
  }

  lemma ImageIsDrawable(row: seq<Pixel>, links: seq<string>)
    requires RowFits(row)
    ensures Drawable(RowImage(row, links))
  {
    var image := RowImage(row, links);
    forall x | 0 <= x < |image| ensures PairedAt(image, x) && (image[x].Covered? || 1 <= image[x].glyph.width <= 2) {
      assert PixelFits(row, x);
      if x > 0 {
        assert PixelFits(row, x - 1);
      }
    }
  }

  // What the writer compares: everything but the numbering of links.
  predicate Same(now: Pixel, nowLinks: seq<string>, was: Pixel, wasLinks: seq<string>) {
    now.glyph == was.glyph && now.style == was.style && LinkOf(nowLinks, now.link) == LinkOf(wasLinks, was.link)
  }

  predicate SameRow(now: seq<Pixel>, nowLinks: seq<string>, was: seq<Pixel>, wasLinks: seq<string>) {
    |now| == |was| && forall x :: 0 <= x < |now| ==> Same(now[x], nowLinks, was[x], wasLinks)
  }

  lemma SameRowsLookAlike(now: seq<Pixel>, nowLinks: seq<string>, was: seq<Pixel>, wasLinks: seq<string>)
    requires SameRow(now, nowLinks, was, wasLinks)
    ensures RowImage(now, nowLinks) == RowImage(was, wasLinks)
  {
    forall x | 0 <= x < |now| ensures CellOf(now, nowLinks, x) == CellOf(was, wasLinks, x) {
      assert Same(now[x], nowLinks, was[x], wasLinks);
      if x > 0 {
        assert Same(now[x - 1], nowLinks, was[x - 1], wasLinks);
      }
    }
  }

  // ---- Sending ----

  // What has been sent so far, and where each of it has brought the terminal.
  class Output {
    var ops: seq<Op>
    ghost const start: Terminal
    ghost var terminal: Terminal
    ghost var trail: seq<Terminal>

    ghost predicate Valid()
      reads this
    {
      Leads(start, ops, trail, terminal)
    }

    constructor (ghost start: Terminal)
      ensures Valid() && ops == [] && this.start == terminal == start
    {
      ops := [];
      this.start := start;
      terminal := start;
      trail := [start];
    }

    method Emit(op: Op)
      requires Valid()
      modifies this
      ensures Valid() && ops == old(ops) + [op] && terminal == Step(old(terminal), op)
    {
      LeadsOn(start, ops, trail, terminal, op);
      ops := ops + [op];
      terminal := Step(terminal, op);
      trail := trail + [terminal];
    }
  }

  predicate Leads(start: Terminal, ops: seq<Op>, trail: seq<Terminal>, end: Terminal) {
    && |trail| == |ops| + 1 && trail[0] == start && trail[|ops|] == end
    && forall i :: 0 <= i < |ops| ==> trail[i + 1] == Step(trail[i], ops[i])
  }

  lemma LeadsOn(start: Terminal, ops: seq<Op>, trail: seq<Terminal>, end: Terminal, op: Op)
    requires Leads(start, ops, trail, end)
    ensures Leads(start, ops + [op], trail + [Step(end, op)], Step(end, op))
  {
    var more, on := ops + [op], trail + [Step(end, op)];
    forall i | 0 <= i < |more| ensures on[i + 1] == Step(on[i], more[i]) {
      if i < |ops| {
        assert trail[i + 1] == Step(trail[i], ops[i]);
      }
    }
  }

  lemma {:induction false} LeadsThere(start: Terminal, ops: seq<Op>, trail: seq<Terminal>, end: Terminal)
    requires Leads(start, ops, trail, end)
    ensures Run(start, ops) == end
    decreases |ops|
  {
    if ops != [] {
      var last := |ops| - 1;
      var before, way := ops[..last], trail[..|ops|];
      forall i | 0 <= i < |before| ensures way[i + 1] == Step(way[i], before[i]) {
        assert trail[i + 1] == Step(trail[i], ops[i]);
      }
      LeadsThere(start, before, way, trail[last]);
      assert trail[last + 1] == Step(trail[last], ops[last]);
    }
  }

  const UNKNOWN: int := -1

  // Where the writer takes the cursor to be, and the style it has set.
  datatype Pen = Pen(x: int, y: int, style: Style, link: string) {
    predicate Placed() {
      x != UNKNOWN
    }
  }

  predicate PenAgrees(pen: Pen, t: Terminal) {
    && UNKNOWN <= pen.x && UNKNOWN <= pen.y && (pen.x == UNKNOWN <==> pen.y == UNKNOWN)
    && (pen.Placed() ==> t.cursor == At(pen.x, pen.y))
    && t.rendition == RenditionOf(pen.style) && t.link == pen.link
  }

  method AppendStyleChange(out: Output, from: Style, fromLink: string, to: Style, toLink: string)
    requires out.Valid() && out.terminal.rendition == RenditionOf(from) && out.terminal.link == fromLink
    modifies out
    ensures out.Valid() && |old(out.ops)| <= |out.ops|
    ensures out.terminal == old(out.terminal).(rendition := RenditionOf(to), link := toLink)
    ensures from == to && fromLink == toLink ==> out.ops == old(out.ops)
  {
    if fromLink != toLink {
      out.Emit(SetLink(toLink));
    }
    AppendWeight(out, from, to);
    AppendUnderline(out, from, to);
    AppendEffects(out, from, to);
    AppendColors(out, from, to);
  }

  // Bold and dim can only be taken back together.
  method AppendWeight(out: Output, from: Style, to: Style)
    requires out.Valid() && out.terminal.rendition.bold == from.bold && out.terminal.rendition.dim == from.dim
    modifies out
    ensures out.Valid() && |old(out.ops)| <= |out.ops|
    ensures var r := old(out.terminal.rendition);
            out.terminal == old(out.terminal).(rendition := r.(bold := to.bold, dim := to.dim))
    ensures from == to ==> out.ops == old(out.ops)
  {
    if from.bold != to.bold || from.dim != to.dim {
      if (from.bold && !to.bold) || (from.dim && !to.dim) {
        out.Emit(Set(BoldDimOff));
      }
      if to.bold {
        out.Emit(Set(BoldOn));
      }
      if to.dim {
        out.Emit(Set(DimOn));
      }
    }
  }

  method AppendUnderline(out: Output, from: Style, to: Style)
    requires out.Valid() && out.terminal.rendition.underline == RenditionOf(from).underline
    modifies out
    ensures out.Valid() && |old(out.ops)| <= |out.ops|
    ensures var r := old(out.terminal.rendition);
            out.terminal == old(out.terminal).(rendition := r.(underline := RenditionOf(to).underline))
    ensures from == to ==> out.ops == old(out.ops)
  {
    if from.underlined != to.underlined || from.underlinedDouble != to.underlinedDouble {
      out.Emit(Set(UnderlineTo(if to.underlined then Single else if to.underlinedDouble then Double else NoLine)));
    }
  }

  method AppendColors(out: Output, from: Style, to: Style)
    requires out.Valid()
    requires out.terminal.rendition.fore == from.foreground && out.terminal.rendition.back == from.background
    modifies out
    ensures out.Valid() && |old(out.ops)| <= |out.ops|
    ensures var r := old(out.terminal.rendition);
            out.terminal == old(out.terminal).(rendition := r.(fore := to.foreground, back := to.background))
    ensures from == to ==> out.ops == old(out.ops)
  {
    if from.foreground != to.foreground || from.background != to.background {
      out.Emit(Set(ForeTo(to.foreground)));
      out.Emit(Set(BackTo(to.background)));
    }
  }

  method AppendEffects(out: Output, from: Style, to: Style)
    requires out.Valid()
    requires var r := out.terminal.rendition;
             r.blink == from.blink && r.inverse == from.inverted && r.strike == from.strikethrough
    modifies out
    ensures out.Valid() && |old(out.ops)| <= |out.ops|
    ensures var r := old(out.terminal.rendition);
            out.terminal == old(out.terminal).(rendition := r.(blink := to.blink, inverse := to.inverted, strike := to.strikethrough))
    ensures from == to ==> out.ops == old(out.ops)
  {
    if from.blink != to.blink {
      out.Emit(Set(BlinkTo(to.blink)));
    }
    if from.inverted != to.inverted {
      out.Emit(Set(InverseTo(to.inverted)));
    }
    if from.strikethrough != to.strikethrough {
      out.Emit(Set(StrikeTo(to.strikethrough)));
    }
  }

  method MoveTo(out: Output, pen: Pen, x: nat, y: nat, ghost width: nat, ghost height: nat) returns (moved: Pen)
    requires out.Valid() && PenAgrees(pen, out.terminal)
    requires HasSize(out.terminal, width, height) && x < width && y < height
    modifies out
    ensures out.Valid() && |old(out.ops)| <= |out.ops|
    ensures out.terminal == old(out.terminal).(cursor := At(x, y))
    ensures moved == pen.(x := x, y := y) && PenAgrees(moved, out.terminal)
    ensures !pen.Placed() ==> |old(out.ops)| < |out.ops|
  {
    moved := pen.(x := x, y := y);
    if pen.y == y && pen.x == x {
      return;
    }
    if pen.y == y && pen.x != UNKNOWN && x > pen.x {
      out.Emit(Forward(x - pen.x));
    } else {
      out.Emit(Position(x, y));
    }
  }

  // ---- Links ----

  predicate Distinct(links: seq<string>) {
    forall i, j :: 0 <= i < j < |links| ==> links[i] != links[j]
  }

  function Names(links: seq<string>): set<string> {
    set l | l in links
  }

  // The number a link is kept under; 0 when there is no room for one more.
  method LinkId(links: seq<string>, link: string) returns (kept: seq<string>, id: nat)
    requires Distinct(links) && 0 < |links| <= 256
    ensures links <= kept && Distinct(kept) && |kept| <= 256 && id < |kept| && id <= 255
    ensures Names(kept) <= Names(links) + {link}
    ensures kept[id] == link || (id == 0 && |links| == 256 && link !in links)
  {
    for i := 0 to |links|
      invariant forall k :: 0 <= k < i ==> links[k] != link
    {
      if links[i] == link {
        return links, i;
      }
    }
    if |links| > 255 {
      return links, 0;
    }
    return links + [link], |links|;
  }

  lemma {:induction false} NamesCount(links: seq<string>)
    requires Distinct(links)
    ensures |Names(links)| == |links|
  {
    if links != [] {
      var most := links[..|links| - 1];
      NamesCount(most);
      assert Names(links) == Names(most) + {links[|links| - 1]};
    } else {
      assert Names(links) == {};
    }
  }

  // With room for every link in play, none is turned away.
  lemma RoomForAll(links: seq<string>, link: string, all: set<string>)
    requires Distinct(links) && Names(links) + {link} <= all && |all| <= 256 && link !in links
    ensures |links| < 256
  {
    NamesCount(links);
    SubsetCount(Names(links) + {link}, all);
  }

  lemma {:induction false} SubsetCount<T>(a: set<T>, b: set<T>)
    requires a <= b
    ensures |a| <= |b|
  {
    assert b == a + (b - a);
  }

  // ---- One row ----

  function LinkNamed(f: Frame, y: nat, x: nat): string
    requires y < |f.pixels| && x < |f.pixels[y]|
  {
    LinkOf(f.links, f.pixels[y][x].link)
  }

  // Every link a frame's pixels have.
  ghost function Met(f: Frame): set<string> {
    set y: nat, x: nat | y < |f.pixels| && x < |f.pixels[y]| :: LinkNamed(f, y, x)
  }

  lemma IsMet(f: Frame, y: nat, x: nat)
    requires y < |f.pixels| && x < |f.pixels[y]|
    ensures LinkNamed(f, y, x) in Met(f)
  {
  }

  // What the terminal is to show in a row.
  function Goal(f: Frame, y: nat): seq<Cell>
    requires y < |f.pixels|
  {
    RowImage(f.pixels[y], f.links)
  }

  // A row to aim at: what is wanted, but for the links of cells that need not
  // be written.
  predicate Aims(goal: seq<Cell>, wanted: seq<Cell>, dirty: seq<bool>) {
    Nearly(goal, wanted) && |goal| == |dirty| && forall k {:trigger goal[k]} :: 0 <= k < |goal| && dirty[k] ==> goal[k] == wanted[k]
  }

  // Some of the row put right.
  predicate Corrects(after: seq<Cell>, before: seq<Cell>, wanted: seq<Cell>) {
    && |after| == |before| == |wanted|
    && forall k {:trigger after[k]} :: 0 <= k < |after| ==> after[k] == before[k] || after[k] == wanted[k]
  }

  lemma CorrectsMore(c: seq<Cell>, b: seq<Cell>, a: seq<Cell>, wanted: seq<Cell>)
    requires Corrects(c, b, wanted) && Corrects(b, a, wanted)
    ensures Corrects(c, a, wanted)
  {
  }

  // Row `y` of the screen is drawn up to `x`.
  predicate Drawn(t: Terminal, pen: Pen, f: Frame, y: nat, dirty: seq<bool>, x: nat, goal: seq<Cell>) {
    && HasSize(t, f.width, f.height) && PenAgrees(pen, t)
    && y < f.height == |f.pixels| && Partway(t.grid[y], goal, dirty, x) && Aims(goal, Goal(f, y), dirty)
  }

  predicate Starts(ops: seq<Op>, pen: Pen) {
    ops == [] ==> !pen.Placed()
  }

  // Nothing but row `y`, the cursor and the style has changed.
  predicate OnlyRow(before: Terminal, after: Terminal, y: nat)
    requires y < |before.grid|
  {
    && |after.grid| == |before.grid| && after.shape == before.shape
    && forall k :: 0 <= k < |before.grid| && k != y ==> after.grid[k] == before.grid[k]
  }

  // Where the cursor is left when a cell has been written, with all of the
  // character it belongs to.
  function After(f: Frame, y: nat, x: nat): Place
    requires y < |f.pixels| && x < |f.pixels[y]|
  {
    At0(x + if IsWide(f.pixels[y][x]) then 2 else 1, y, f.width)
  }

  lemma PrintDraws(t: Terminal, f: Frame, y: nat, x: nat, dirty: seq<bool>, goal: seq<Cell>)
    requires FrameFits(f) && y < f.height && x < f.width && HasSize(t, f.width, f.height)
    requires t.cursor == At(x, y) && Partway(t.grid[y], goal, dirty, x) && Aims(goal, Goal(f, y), dirty)
    requires Goal(f, y)[x] == Shown(f.pixels[y][x].glyph, t.rendition, t.link)
    ensures
      var after := Printed(t, f.pixels[y][x].glyph);
      && HasSize(after, f.width, f.height) && OnlyRow(t, after, y)
      && Partway(after.grid[y], goal[x := Goal(f, y)[x]], dirty, x + 1)
      && after.rendition == t.rendition && after.link == t.link && after.cursor == After(f, y, x)
  {
    ImageIsDrawable(f.pixels[y], f.links);
    NearlyDrawable(goal, Goal(f, y));
    PutAdvances(t.grid[y], goal, dirty, x, Goal(f, y)[x]);
  }

  // A character written where it belongs, unless a wide one covers the place.
  method DrawCell(out: Output, pen: Pen, f: Frame, y: nat, x: nat, ghost dirty: seq<bool>, ghost goal: seq<Cell>)
    returns (moved: Pen, ghost aim: seq<Cell>)
    requires FrameFits(f) && y < f.height && x < f.width
    requires out.Valid() && Starts(out.ops, pen) && Drawn(out.terminal, pen, f, y, dirty, x, goal)
    modifies out
    ensures out.Valid() && Starts(out.ops, moved) && Drawn(out.terminal, moved, f, y, dirty, x + 1, aim)
    ensures OnlyRow(old(out.terminal), out.terminal, y) && Corrects(aim, goal, Goal(f, y))
    ensures |old(out.ops)| + (if IsCovered(f.pixels[y], x) then 0 else 1) <= |out.ops|
    ensures out.terminal.cursor == if IsCovered(f.pixels[y], x) then old(out.terminal.cursor) else After(f, y, x)
  {
    if x > 0 && IsWide(f.pixels[y][x - 1]) {
      CoveredDrawn(out.terminal, pen, f, y, dirty, x, goal);
      return pen, goal;
    }
    moved, aim := DrawCharacter(out, pen, f, y, x, dirty, goal);
  }

  lemma CoveredDrawn(t: Terminal, pen: Pen, f: Frame, y: nat, dirty: seq<bool>, x: nat, goal: seq<Cell>)
    requires FrameFits(f) && y < f.height && x < f.width && IsCovered(f.pixels[y], x) && Drawn(t, pen, f, y, dirty, x, goal)
    ensures Drawn(t, pen, f, y, dirty, x + 1, goal)
  {
    ImageIsDrawable(f.pixels[y], f.links);
    NearlyDrawable(goal, Goal(f, y));
    CoveredAdvances(t.grid[y], goal, dirty, x);
  }

  method DrawCharacter(out: Output, pen: Pen, f: Frame, y: nat, x: nat, ghost dirty: seq<bool>, ghost goal: seq<Cell>)
    returns (moved: Pen, ghost aim: seq<Cell>)
    requires FrameFits(f) && y < f.height && x < f.width && !IsCovered(f.pixels[y], x)
    requires out.Valid() && Drawn(out.terminal, pen, f, y, dirty, x, goal)
    modifies out
    ensures out.Valid() && |old(out.ops)| < |out.ops| && Drawn(out.terminal, moved, f, y, dirty, x + 1, aim)
    ensures OnlyRow(old(out.terminal), out.terminal, y) && Corrects(aim, goal, Goal(f, y))
    ensures out.terminal.cursor == After(f, y, x)
  {
    var now := f.pixels[y][x];
    var link := LinkOf(f.links, now.link);
    moved := MoveTo(out, pen, x, y, f.width, f.height);
    AppendStyleChange(out, moved.style, moved.link, now.style, link);
    PrintDraws(out.terminal, f, y, x, dirty, goal);
    aim := goal[x := Goal(f, y)[x]];
    out.Emit(Print(now.glyph));
    var advance := now.glyph.width;
    if (advance == 1 || advance == 2) && x + advance < f.width {
      moved := Pen(x + advance, y, now.style, link);
    } else {
      moved := Pen(UNKNOWN, UNKNOWN, now.style, link);
    }
  }

  // ---- What is changed ----

  const MAX_REWRITTEN_GAP: nat := 4

  // Marks the cells that differ from what is kept, or all of them.
  method MarkDirty(dirty: array<bool>, now: seq<Pixel>, nowLinks: seq<string>, was: seq<Pixel>, wasLinks: seq<string>,
                   everything: bool) returns (any: bool)
    requires dirty.Length == |now| == |was|
    modifies dirty
    ensures forall x :: 0 <= x < dirty.Length ==> dirty[x] == Changed(now, nowLinks, was, wasLinks, everything, x)
    ensures any <==> exists x :: 0 <= x < dirty.Length && dirty[x]
  {
    any := false;
    for x := 0 to dirty.Length
      invariant forall k :: 0 <= k < x ==> dirty[k] == Changed(now, nowLinks, was, wasLinks, everything, k)
      invariant any <==> exists k :: 0 <= k < x && dirty[k]
    {
      dirty[x] := everything || now[x].glyph != was[x].glyph || now[x].style != was[x].style ||
                  LinkOf(nowLinks, now[x].link) != LinkOf(wasLinks, was[x].link);
      any := any || dirty[x];
    }
  }

  predicate Changed(now: seq<Pixel>, nowLinks: seq<string>, was: seq<Pixel>, wasLinks: seq<string>, everything: bool, x: nat)
    requires x < |now| == |was|
  {
    everything || !Same(now[x], nowLinks, was[x], wasLinks)
  }

  predicate WideAt(now: seq<Pixel>, was: seq<Pixel>, x: nat)
    requires x < |now| == |was|
  {
    IsWide(now[x]) || IsWide(was[x])
  }

  // A cell to be written: it has changed, or it is half of a wide character,
  // there or to be there, whose other half has.
  predicate Marked(now: seq<Pixel>, nowLinks: seq<string>, was: seq<Pixel>, wasLinks: seq<string>, everything: bool, x: nat)
    requires x < |now| == |was|
  {
    || Changed(now, nowLinks, was, wasLinks, everything, x)
    || (x > 0 && WideAt(now, was, x - 1) && Changed(now, nowLinks, was, wasLinks, everything, x - 1))
    || (x + 1 < |now| && WideAt(now, was, x) && Changed(now, nowLinks, was, wasLinks, everything, x + 1))
  }

  // A changed cell, or the other half of one, among the first `n` pairs.
  predicate IsPaired(changed: seq<bool>, now: seq<Pixel>, was: seq<Pixel>, n: nat, x: nat)
    requires x < |changed| == |now| == |was|
  {
    || changed[x]
    || (0 < x <= n && WideAt(now, was, x - 1) && changed[x - 1])
    || (x < n && x + 1 < |now| && WideAt(now, was, x) && changed[x + 1])
  }

  predicate PairedTo(dirty: seq<bool>, changed: seq<bool>, now: seq<Pixel>, was: seq<Pixel>, n: nat) {
    && |dirty| == |changed| == |now| == |was|
    && forall k :: 0 <= k < |dirty| ==> dirty[k] == IsPaired(changed, now, was, n, k)
  }

  // A wide character and the cell it covers are written together.
  method PairWide(dirty: array<bool>, now: seq<Pixel>, was: seq<Pixel>)
    requires dirty.Length == |now| == |was| && RowFits(now) && RowFits(was)
    requires forall x :: 0 <= x < dirty.Length && now[x].glyph != was[x].glyph ==> dirty[x]
    modifies dirty
    ensures PairedTo(dirty[..], old(dirty[..]), now, was, dirty.Length)
  {
    var x := 0;
    ghost var changed := dirty[..];
    while x + 1 < dirty.Length
      invariant 0 <= x && (x == 0 || x < dirty.Length)
      invariant PairedTo(dirty[..], changed, now, was, x)
    {
      ghost var before := dirty[..];
      if IsWide(now[x]) || IsWide(was[x]) {
        var either := dirty[x] || dirty[x + 1];
        dirty[x], dirty[x + 1] := either, either;
        assert dirty[..] == before[x := either][x + 1 := either];
      }
      PairedMore(before, changed, now, was, x);
      x := x + 1;
    }
    PairedAll(dirty[..], changed, now, was, x);
  }

  lemma PairedMore(dirty: seq<bool>, changed: seq<bool>, now: seq<Pixel>, was: seq<Pixel>, x: nat)
    requires PairedTo(dirty, changed, now, was, x) && x + 1 < |dirty| && RowFits(now) && RowFits(was)
    requires forall k :: 0 <= k < |changed| && now[k].glyph != was[k].glyph ==> changed[k]
    ensures
      var either := dirty[x] || dirty[x + 1];
      PairedTo(if WideAt(now, was, x) then dirty[x := either][x + 1 := either] else dirty, changed, now, was, x + 1)
  {
    var either := dirty[x] || dirty[x + 1];
    var after := if WideAt(now, was, x) then dirty[x := either][x + 1 := either] else dirty;
    assert dirty[x + 1] == IsPaired(changed, now, was, x, x + 1) == changed[x + 1];
    assert dirty[x] == IsPaired(changed, now, was, x, x);
    if x > 0 && WideAt(now, was, x - 1) && WideAt(now, was, x) {
      WideTwice(now, was, x);
    }
    forall k | 0 <= k < |after| ensures after[k] == IsPaired(changed, now, was, x + 1, k) {
      assert dirty[k] == IsPaired(changed, now, was, x, k);
    }
  }

  lemma PairedAll(dirty: seq<bool>, changed: seq<bool>, now: seq<Pixel>, was: seq<Pixel>, n: nat)
    requires PairedTo(dirty, changed, now, was, n) && n + 1 >= |dirty|
    ensures PairedTo(dirty, changed, now, was, |dirty|)
  {
    forall k | 0 <= k < |dirty| ensures dirty[k] == IsPaired(changed, now, was, |dirty|, k) {
      assert dirty[k] == IsPaired(changed, now, was, n, k);
    }
  }

  // Wide characters one column apart, one there and one to be: both change.
  lemma WideTwice(now: seq<Pixel>, was: seq<Pixel>, x: nat)
    requires 0 < x < |now| == |was| && RowFits(now) && RowFits(was) && WideAt(now, was, x - 1) && WideAt(now, was, x)
    ensures now[x - 1].glyph != was[x - 1].glyph && now[x].glyph != was[x].glyph
  {
    assert PixelFits(now, x - 1) && PixelFits(was, x - 1) && PixelFits(now, x) && PixelFits(was, x);
  }

  // A changed cell among the few from `x` on.
  predicate ChangedSoon(dirty: seq<bool>, x: nat) {
    exists j :: x <= j <= x + MAX_REWRITTEN_GAP && j < |dirty| && dirty[j]
  }

  // The end of the run of cells to write that starts at `x`: changed ones,
  // joined across gaps of no more than a few unchanged ones.
  method RunEnd(dirty: array<bool>, x: nat) returns (end: nat)
    requires x < dirty.Length && dirty[x]
    ensures x < end <= dirty.Length && dirty[end - 1]
    ensures forall k :: x <= k < end ==> ChangedSoon(dirty[..], k)
    ensures forall k :: end <= k <= end + MAX_REWRITTEN_GAP && k < dirty.Length ==> !dirty[k]
  {
    end := x + 1;
    assert dirty[..][x];
    while end < dirty.Length
      invariant x < end <= dirty.Length && dirty[end - 1]
      invariant forall k :: x <= k < end ==> ChangedSoon(dirty[..], k)
    {
      var next := end;
      while next < dirty.Length && !dirty[next]
        invariant end <= next <= dirty.Length
        invariant forall k :: end <= k < next ==> !dirty[k]
      {
        next := next + 1;
      }
      if next == dirty.Length || next - end > MAX_REWRITTEN_GAP {
        break;
      }
      assert dirty[..][next];
      end := next + 1;
    }
  }

  // The last of the first `n` that is set, or -1.
  function LastTrue(dirty: seq<bool>, n: nat): (x: int)
    requires n <= |dirty|
    ensures -1 <= x < n && (x >= 0 ==> dirty[x]) && forall k :: x < k < n ==> !dirty[k]
  {
    if n == 0 then -1 else if dirty[n - 1] then n - 1 else LastTrue(dirty, n - 1)
  }

  function MarkedRow(now: seq<Pixel>, nowLinks: seq<string>, was: seq<Pixel>, wasLinks: seq<string>, everything: bool): (m: seq<bool>)
    requires |now| == |was|
    ensures |m| == |now|
    ensures forall x :: 0 <= x < |now| ==> m[x] == Marked(now, nowLinks, was, wasLinks, everything, x)
  {
    seq(|now|, x requires 0 <= x < |now| => Marked(now, nowLinks, was, wasLinks, everything, x))
  }

  // The last cell to be written in a row, or -1.
  function LastMark(now: seq<Pixel>, nowLinks: seq<string>, was: seq<Pixel>, wasLinks: seq<string>, everything: bool): (x: int)
    requires |now| == |was|
    ensures -1 <= x < |now|
  {
    LastTrue(MarkedRow(now, nowLinks, was, wasLinks, everything), |now|)
  }

  // The last cell to be written in each row.
  predicate AreMarks(marks: seq<int>, f: Frame, was: seq<seq<Pixel>>, wasLinks: seq<string>, everything: bool) {
    && |marks| == |f.pixels| == |was| && (forall y :: 0 <= y < |was| ==> |was[y]| == |f.pixels[y]|)
    && forall y {:trigger LastMark(f.pixels[y], f.links, was[y], wasLinks, everything)} :: 0 <= y < |was| ==>
         marks[y] == LastMark(f.pixels[y], f.links, was[y], wasLinks, everything)
  }

  function Marks(f: Frame, was: seq<seq<Pixel>>, wasLinks: seq<string>, everything: bool): (marks: seq<int>)
    requires |f.pixels| == |was| && forall y :: 0 <= y < |was| ==> |was[y]| == |f.pixels[y]|
    ensures AreMarks(marks, f, was, wasLinks, everything)
  {
    seq(|was|, y requires 0 <= y < |was| => LastMark(f.pixels[y], f.links, was[y], wasLinks, everything))
  }

  // Where the cursor is left when the first rows have been written.
  function LeftBy(marks: seq<int>, width: nat, rows: nat, cursor: Place): Place
    requires rows <= |marks|
  {
    if rows == 0 then cursor
    else if marks[rows - 1] >= 0 then At0(marks[rows - 1] + 1, rows - 1, width)
    else LeftBy(marks, width, rows - 1, cursor)
  }

  function At0(x: nat, y: nat, width: nat): Place {
    if x < width then At(x, y) else Nowhere
  }

  // ---- What is kept ----

  predicate IdsFit(row: seq<Pixel>, links: seq<string>) {
    forall x :: 0 <= x < |row| ==> row[x].link < |links|
  }

  predicate LinksFit(links: seq<string>) {
    0 < |links| <= 256 && links[0] == "" && Distinct(links)
  }

  predicate CellsFit(cells: seq<seq<Pixel>>, links: seq<string>, width: nat, height: nat) {
    |cells| == height && forall y :: 0 <= y < height ==> |cells[y]| == width && IdsFit(cells[y], links)
  }

  // The kept row has the frame's characters and styles up to `x`, and where
  // nothing needs writing.
  predicate Followed(f: Frame, y: nat, kept: seq<Pixel>, dirty: seq<bool>, x: nat)
    requires y < |f.pixels|
  {
    && |kept| == |f.pixels[y]| == |dirty|
    && forall k {:trigger kept[k]} :: 0 <= k < |kept| && (k < x || !dirty[k]) ==>
         kept[k].glyph == f.pixels[y][k].glyph && kept[k].style == f.pixels[y][k].style
  }

  // And its links, or, if some may be turned away, none for those.
  predicate FollowedLinks(f: Frame, y: nat, kept: seq<Pixel>, links: seq<string>, dirty: seq<bool>, x: nat, room: bool)
    requires y < |f.pixels| && |kept| == |f.pixels[y]| == |dirty|
  {
    forall k {:trigger kept[k]} :: 0 <= k < |kept| && (k < x || !dirty[k]) ==>
      LinkOf(links, kept[k].link) == LinkNamed(f, y, k) || (!room && LinkOf(links, kept[k].link) == "")
  }

  // The links in play: with no more than these, none is turned away.
  predicate Room(all: set<string>) {
    |all| <= 256
  }

  // How a row came out: every character and style is right, and a link is
  // wrong only where it was and nothing seemed to have changed.
  predicate CameOut(row: seq<Cell>, before: seq<Cell>, f: Frame, y: nat, was: seq<Pixel>, wasLinks: seq<string>, everything: bool)
    requires y < |f.pixels| && |was| == |f.pixels[y]|
  {
    && Nearly(row, Goal(f, y)) && |before| == |row|
    && (forall x {:trigger row[x]} :: 0 <= x < |row| ==>
          row[x] == Goal(f, y)[x] || (row[x] == before[x] && !Changed(f.pixels[y], f.links, was, wasLinks, everything, x)))
    && (everything || before == RowImage(was, wasLinks) ==> row == Goal(f, y))
  }

  // A row is kept up to `x`; `all` holds every link that may turn up.
  ghost predicate Keeping(f: Frame, y: nat, dirty: seq<bool>, x: nat, all: set<string>, row: seq<Pixel>, links: seq<string>) {
    && y < |f.pixels| && LinksFit(links) && Names(links) <= all && Met(f) <= all
    && IdsFit(row, links) && Followed(f, y, row, dirty, x) && FollowedLinks(f, y, row, links, dirty, x, Room(all))
  }

  // Keeps one cell as it now is.
  method KeepCell(f: Frame, y: nat, x: nat, row: seq<Pixel>, links: seq<string>, ghost dirty: seq<bool>, ghost all: set<string>)
    returns (newRow: seq<Pixel>, newLinks: seq<string>)
    requires FrameFits(f) && y < f.height && x < f.width && Keeping(f, y, dirty, x, all, row, links)
    ensures Keeping(f, y, dirty, x + 1, all, newRow, newLinks) && links <= newLinks
  {
    var now := f.pixels[y][x];
    var link := LinkOf(f.links, now.link);
    var kept, id := LinkId(links, link);
    IsMet(f, y, x);
    if Room(all) && link !in links {
      RoomForAll(links, link, all);
    }
    LinksGrow(f, y, row, links, kept, dirty, x, Room(all));
    newLinks := kept;
    newRow := row[x := Pixel(now.glyph, now.style, id)];
  }

  // One cell kept and drawn.
  method WriteCell(f: Frame, y: nat, x: nat, out: Output, pen: Pen, row: seq<Pixel>, links: seq<string>, ghost dirty: seq<bool>,
                   ghost all: set<string>, ghost goal: seq<Cell>)
    returns (moved: Pen, newRow: seq<Pixel>, newLinks: seq<string>, ghost aim: seq<Cell>)
    requires FrameFits(f) && y < f.height && x < f.width
    requires out.Valid() && Starts(out.ops, pen) && Drawn(out.terminal, pen, f, y, dirty, x, goal)
             && Keeping(f, y, dirty, x, all, row, links)
    modifies out
    ensures out.Valid() && Starts(out.ops, moved) && Drawn(out.terminal, moved, f, y, dirty, x + 1, aim)
            && Keeping(f, y, dirty, x + 1, all, newRow, newLinks)
    ensures OnlyRow(old(out.terminal), out.terminal, y) && Corrects(aim, goal, Goal(f, y)) && links <= newLinks
    ensures |old(out.ops)| + (if IsCovered(f.pixels[y], x) then 0 else 1) <= |out.ops|
    ensures out.terminal.cursor == if IsCovered(f.pixels[y], x) then old(out.terminal.cursor) else After(f, y, x)
  {
    newRow, newLinks := KeepCell(f, y, x, row, links, dirty, all);
    moved, aim := DrawCell(out, pen, f, y, x, dirty, goal);
  }

  method WriteRun(f: Frame, y: nat, from: nat, end: nat, out: Output, pen: Pen, row: seq<Pixel>, links: seq<string>,
                  ghost dirty: seq<bool>, ghost all: set<string>, ghost goal: seq<Cell>)
    returns (moved: Pen, newRow: seq<Pixel>, newLinks: seq<string>, ghost aim: seq<Cell>)
    requires FrameFits(f) && y < f.height && from < end <= f.width && !IsCovered(f.pixels[y], from)
    requires out.Valid() && Starts(out.ops, pen) && Drawn(out.terminal, pen, f, y, dirty, from, goal)
             && Keeping(f, y, dirty, from, all, row, links)
    modifies out
    ensures out.Valid() && Starts(out.ops, moved) && Drawn(out.terminal, moved, f, y, dirty, end, aim)
            && Keeping(f, y, dirty, end, all, newRow, newLinks)
    ensures OnlyRow(old(out.terminal), out.terminal, y) && Corrects(aim, goal, Goal(f, y)) && links <= newLinks
    ensures |old(out.ops)| < |out.ops| && out.terminal.cursor == After(f, y, end - 1)
  {
    moved, newRow, newLinks, aim := WriteCell(f, y, from, out, pen, row, links, dirty, all, goal);
    for i := from + 1 to end
      invariant out.Valid() && Starts(out.ops, moved) && Drawn(out.terminal, moved, f, y, dirty, i, aim)
                && Keeping(f, y, dirty, i, all, newRow, newLinks)
      invariant OnlyRow(old(out.terminal), out.terminal, y) && Corrects(aim, goal, Goal(f, y)) && links <= newLinks
      invariant |old(out.ops)| < |out.ops| && out.terminal.cursor == After(f, y, i - 1)
    {
      CoveredAfter(f, y, i);
      ghost var sofar := aim;
      moved, newRow, newLinks, aim := WriteCell(f, y, i, out, moved, newRow, newLinks, dirty, all, aim);
      CorrectsMore(aim, sofar, goal, Goal(f, y));
    }
  }

  method WriteRow(f: Frame, y: nat, dirty: array<bool>, out: Output, pen: Pen, row: seq<Pixel>, links: seq<string>,
                  ghost all: set<string>, ghost goal: seq<Cell>)
    returns (moved: Pen, newRow: seq<Pixel>, newLinks: seq<string>, ghost aim: seq<Cell>)
    requires FrameFits(f) && y < f.height && dirty.Length == f.width && CoversMarked(dirty[..], f.pixels[y])
    requires out.Valid() && Starts(out.ops, pen) && Drawn(out.terminal, pen, f, y, dirty[..], 0, goal)
             && Keeping(f, y, dirty[..], 0, all, row, links)
    modifies out
    ensures out.Valid() && Starts(out.ops, moved) && Drawn(out.terminal, moved, f, y, dirty[..], f.width, aim)
            && Keeping(f, y, dirty[..], f.width, all, newRow, newLinks)
    ensures OnlyRow(old(out.terminal), out.terminal, y) && Corrects(aim, goal, Goal(f, y)) && links <= newLinks
    ensures Drew(f, y, LastTrue(dirty[..], f.width), old(out.terminal), out.terminal, |old(out.ops)|, |out.ops|)
  {
    moved, newRow, newLinks, aim := pen, row, links, goal;
    ghost var d := dirty[..];
    var x := 0;
    while x < f.width
      invariant x <= f.width && (0 < x < f.width && d[x] ==> !d[x - 1])
      invariant out.Valid() && Starts(out.ops, moved) && Drawn(out.terminal, moved, f, y, d, x, aim)
                && Keeping(f, y, d, x, all, newRow, newLinks)
      invariant OnlyRow(old(out.terminal), out.terminal, y) && Corrects(aim, goal, Goal(f, y)) && links <= newLinks
      invariant Drew(f, y, LastTrue(d, x), old(out.terminal), out.terminal, |old(out.ops)|, |out.ops|)
    {
      if !dirty[x] {
        SkipAdvances(out, moved, f, y, d, x, aim, all, newRow, newLinks);
        x := x + 1;
      } else {
        ghost var sofar := aim;
        x, moved, newRow, newLinks, aim := NextRun(f, y, dirty, x, out, moved, newRow, newLinks, all, aim);
        CorrectsMore(aim, sofar, goal, Goal(f, y));
      }
    }
  }

  // The next run of a row, from a marked cell on.
  method NextRun(f: Frame, y: nat, dirty: array<bool>, x: nat, out: Output, pen: Pen, row: seq<Pixel>, links: seq<string>,
                 ghost all: set<string>, ghost goal: seq<Cell>)
    returns (end: nat, moved: Pen, newRow: seq<Pixel>, newLinks: seq<string>, ghost aim: seq<Cell>)
    requires FrameFits(f) && y < f.height && dirty.Length == f.width && CoversMarked(dirty[..], f.pixels[y])
    requires x < f.width && dirty[x] && (x > 0 ==> !dirty[x - 1])
    requires out.Valid() && Starts(out.ops, pen) && Drawn(out.terminal, pen, f, y, dirty[..], x, goal)
             && Keeping(f, y, dirty[..], x, all, row, links)
    modifies out
    ensures x < end <= f.width && (end < f.width ==> !dirty[end]) && LastTrue(dirty[..], end) == end - 1
    ensures out.Valid() && Starts(out.ops, moved) && Drawn(out.terminal, moved, f, y, dirty[..], end, aim)
            && Keeping(f, y, dirty[..], end, all, newRow, newLinks)
    ensures OnlyRow(old(out.terminal), out.terminal, y) && Corrects(aim, goal, Goal(f, y)) && links <= newLinks
    ensures |old(out.ops)| < |out.ops| && out.terminal.cursor == At0(end, y, f.width)
  {
    end := RunEnd(dirty, x);
    assert CoverMarked(dirty[..], f.pixels[y], x);
    moved, newRow, newLinks, aim := WriteRun(f, y, x, end, out, pen, row, links, dirty[..], all, goal);
    RunDrew(f, y, end, dirty[..]);
  }

  // Brings one row of the screen, and what is kept of it, up to the frame.
  method UpdateRow(f: Frame, y: nat, everything: bool, dirty: array<bool>, out: Output, pen: Pen, was: seq<Pixel>, links: seq<string>,
                   ghost all: set<string>)
    returns (moved: Pen, row: seq<Pixel>, newLinks: seq<string>)
    requires FrameFits(f) && y < f.height && dirty.Length == f.width == |was|
    requires out.Valid() && HasSize(out.terminal, f.width, f.height) && PenAgrees(pen, out.terminal)
    requires out.ops == [] ==> !pen.Placed()
    requires LinksFit(links) && IdsFit(was, links) && RowFits(was) && Names(links) <= all && Met(f) <= all
    requires Paired(out.terminal.grid[y]) && (!everything ==> Nearly(out.terminal.grid[y], RowImage(was, links)))
    modifies out, dirty
    ensures out.Valid() && HasSize(out.terminal, f.width, f.height) && PenAgrees(moved, out.terminal)
    ensures out.ops == [] ==> !moved.Placed()
    ensures OnlyRow(old(out.terminal), out.terminal, y)
    ensures CameOut(out.terminal.grid[y], old(out.terminal.grid[y]), f, y, was, links, everything)
    ensures LinksFit(newLinks) && IdsFit(row, newLinks) && RowFits(row) && Names(newLinks) <= all && links <= newLinks
    ensures KeptAs(f, y, row, newLinks, Room(all))
    ensures var x := LastMark(f.pixels[y], f.links, was, links, everything);
            && Drew(f, y, x, old(out.terminal), out.terminal, |old(out.ops)|, |out.ops|)
            && (x < 0 ==> out.ops == old(out.ops) && moved == pen)
  {
    var now := f.pixels[y];
    ghost var before := out.terminal.grid[y];
    var any := MarkDirty(dirty, now, f.links, was, links, everything);
    ghost var changed := dirty[..];
    if !any {
      NothingMarked(f, y, was, links, everything);
      NothingToDo(before, f, y, was, links);
      return pen, was, links;
    }
    PairWide(dirty, now, was);
    ghost var marked := MarkedRow(now, f.links, was, links, everything);
    MarkedIs(dirty[..], changed, f, y, was, links, everything);
    SomethingMarked(f, y, was, links, everything, changed);
    CleanMatches(f, y, was, links, marked, everything, before, Room(all));
    ghost var aim;
    moved, row, newLinks, aim := WriteRow(f, y, dirty, out, pen, was, links, all, Aim(before, Goal(f, y), marked));
    RowIsOut(out.terminal.grid[y], before, aim, f, y, was, links, everything);
    FollowedFits(f, y, row, dirty[..]);
  }

  // Every row in turn.
  method WriteCells(f: Frame, everything: bool, out: Output, pen: Pen, k: Shadow, ghost all: set<string>, ghost before: Terminal,
                    ghost marks: seq<int>)
    returns (moved: Pen, cells: seq<seq<Pixel>>, links: seq<string>)
    requires FrameFits(f) && Fit(k) && Ready(k, before, f, everything) && before == out.terminal && out.Valid()
    requires PenAgrees(pen, before) && Starts(out.ops, pen)
    requires Names(k.links) <= all && Met(f) <= all && AreMarks(marks, f, k.cells, k.links, everything)
    modifies out
    ensures out.Valid() && Starts(out.ops, moved)
    ensures CellsSoFar(f, everything, out.terminal, moved, all, before, k, marks, f.height, cells, links)
    ensures if NoneBy(marks, f.height) then out.ops == old(out.ops) && moved == pen else |old(out.ops)| < |out.ops|
  {
    moved, cells, links := pen, k.cells, k.links;
    var dirty := new bool[f.width];
    RowsStart(f, everything, before, pen, all, k, marks);
    for y := 0 to f.height
      invariant out.Valid() && Starts(out.ops, moved)
      invariant CellsSoFar(f, everything, out.terminal, moved, all, before, k, marks, y, cells, links)
      invariant if NoneBy(marks, y) then out.ops == old(out.ops) && moved == pen else |old(out.ops)| < |out.ops|
    {
      moved, cells, links := NextRow(f, everything, dirty, out, moved, cells, links, all, before, k, marks, y);
    }
  }

  method NextRow(f: Frame, everything: bool, dirty: array<bool>, out: Output, pen: Pen, was: seq<seq<Pixel>>, wasLinks: seq<string>,
                 ghost all: set<string>, ghost before: Terminal, ghost k: Shadow, ghost marks: seq<int>, y: nat)
    returns (moved: Pen, cells: seq<seq<Pixel>>, links: seq<string>)
    requires FrameFits(f) && y < f.height && dirty.Length == f.width && Met(f) <= all && Ready(k, before, f, everything)
    requires out.Valid() && Starts(out.ops, pen)
    requires CellsSoFar(f, everything, out.terminal, pen, all, before, k, marks, y, was, wasLinks)
    requires AreMarks(marks, f, k.cells, k.links, everything)
    modifies out, dirty
    ensures out.Valid() && Starts(out.ops, moved)
    ensures CellsSoFar(f, everything, out.terminal, moved, all, before, k, marks, y + 1, cells, links)
    ensures if marks[y] < 0 then out.ops == old(out.ops) && moved == pen else |old(out.ops)| < |out.ops|
  {
    ghost var t, sentNow := out.terminal, |out.ops|;
    RowIsReady(f, everything, t, pen, all, before, k, marks, y, was, wasLinks);
    var row;
    moved, row, links := UpdateRow(f, y, everything, dirty, out, pen, was[y], wasLinks, all);
    cells := was[y := row];
    RowIsNext(f, everything, out.terminal, moved, all, before, k, marks, y, cells, links, t, pen, was, wasLinks, sentNow, |out.ops|);
  }

  class FrameWriter {
    var cells: seq<seq<Pixel>>
    var links: seq<string>
    var width: nat
    var height: nat
    var cursorX: int
    var cursorY: int
    var cursorShape: int
    var lastRefresh: int

    constructor ()
      ensures width == 0 && height == 0 && cursorX == cursorY == -1 && cursorShape == -1
    {
      cells, links, width, height := [], [], 0, 0;
      cursorX, cursorY, cursorShape, lastRefresh := -1, -1, -1, 0;
    }

    function Shadow(): Shadow
      reads this
    {
      Kept(cells, links, width, height, cursorX, cursorY, cursorShape, lastRefresh)
    }

    // Clears or resets the terminal as the kind of frame asks, and forgets
    // what was kept when it is cleared.
    method Prepare(f: Frame, full: bool, now: int, out: Output) returns (everything: bool)
      requires FrameFits(f) && Fit(Shadow()) && Suits(Shadow(), out.terminal, f, full, now) && out.Valid() && out.ops == []
      modifies this, out
      ensures out.Valid() && Prepared(old(Shadow()), Shadow(), f, full, now, old(out.terminal), out.terminal, everything)
      ensures out.ops != [] <==> old(Refreshes(Shadow(), f, full, now))
    {
      var repaint := full || f.width != width || f.height != height;
      var refresh := repaint || now - lastRefresh >= REFRESH_INTERVAL;
      everything := refresh && !repaint;
      if refresh {
        lastRefresh := now;
        cursorShape := -1;
      }
      if repaint {
        EraseScreen(out);
        ForgetCells(f);
        BlankImage(out.terminal.grid, cells);
        ImageIsPaired(cells, links);
        NearlyItself(out.terminal.grid);
      } else if refresh {
        out.Emit(ResetStyle);
      }
    }

    static method EraseScreen(out: Output)
      requires out.Valid()
      modifies out
      ensures out.Valid() && out.ops != []
      ensures out.terminal == old(out.terminal).(
                grid := Uniform(old(out.terminal.grid), Shown(BLANK, PLAIN, "")), rendition := PLAIN, link := "")
    {
      out.Emit(ResetStyle);
      out.Emit(SetLink(""));
      out.Emit(EraseAll);
    }

    method ForgetCells(f: Frame)
      requires FrameFits(f)
      modifies `width, `height, `cells, `links
      ensures width == f.width && height == f.height && links == [""] && cells == Blanks(f) && Fit(Shadow())
    {
      width := f.width;
      height := f.height;
      cells := Blanks(f);
      links := [""];
      BlanksFit(cells);
    }

    // The output that turns the terminal's screen into `f`.
    method Write(f: Frame, full: bool, now: int, ghost t: Terminal) returns (ops: seq<Op>)
      requires FrameFits(f) && Fit(Shadow()) && Suits(Shadow(), t, f, full, now)
      modifies this
      ensures Fit(Shadow()) && Written(old(Shadow()), Shadow(), f, full, now, t, Run(t, ops))
      ensures ops == [] <==> old(Unchanged(Shadow(), f, full, now))
      ensures Placed(old(Shadow()), Shadow(), f, full, now, t, Run(t, ops), Left(old(Shadow()), f, full, now, t.cursor))
    {
      var out := new Output(t);
      ghost var k := Shadow();
      var pen := WriteFrame(f, full, now, out);
      ghost var t1, k1, quiet := out.terminal, Shadow(), out.ops == [];
      SetCursor(f, out, pen);
      ops := out.ops;
      LeadsThere(t, ops, out.trail, out.terminal);
      CursorMoves(k, k1, Shadow(), f, full, now, t, t1, out.terminal);
      CursorIsSet(k, k1, Shadow(), f, full, now, t, t1, out.terminal, quiet, ops == []);
    }

    // All of it but the cursor.
    method WriteFrame(f: Frame, full: bool, now: int, out: Output) returns (pen: Pen)
      requires FrameFits(f) && Fit(Shadow()) && Suits(Shadow(), out.terminal, f, full, now) && out.Valid() && out.ops == []
      modifies this, out
      ensures Fit(Shadow()) && out.Valid() && HasSize(out.terminal, f.width, f.height) && PenAgrees(pen, out.terminal)
      ensures out.ops == [] ==> !pen.Placed()
      ensures Written(old(Shadow()), Shadow(), f, full, now, old(out.terminal), out.terminal)
      ensures cursorX == old(cursorX) && cursorY == old(cursorY)
      ensures cursorShape == if old(Refreshes(Shadow(), f, full, now)) then -1 else old(cursorShape)
      ensures out.terminal.shape == old(out.terminal.shape)
      ensures out.terminal.cursor == old(Left(Shadow(), f, full, now, out.terminal.cursor))
      ensures out.ops == [] <==> old(CellsUnchanged(Shadow(), f, full, now))
    {
      ghost var k, t := Shadow(), out.terminal;
      var everything := Prepare(f, full, now, out);
      ghost var k1, t1 := Shadow(), out.terminal;
      ghost var marks := Marks(f, k1.cells, k1.links, everything);
      pen := WriteScreen(f, everything, out, k1, t1, marks);
      AllWritten(k, k1, Shadow(), f, full, now, t, t1, out.terminal, everything);
    }

    // The screen brought up to the frame, its style back to the default.
    method WriteScreen(f: Frame, everything: bool, out: Output, ghost k: Shadow, ghost before: Terminal, ghost marks: seq<int>)
      returns (pen: Pen)
      requires FrameFits(f) && Fit(k) && k == Shadow() && Ready(k, before, f, everything) && before == out.terminal && out.Valid()
      requires before.rendition == PLAIN && before.link == "" && (everything ==> out.ops != [])
      requires AreMarks(marks, f, k.cells, k.links, everything)
      modifies `cells, `links, out
      ensures Fit(Shadow()) && out.Valid() && HasSize(out.terminal, f.width, f.height) && PenAgrees(pen, out.terminal)
      ensures out.ops == [] ==> !pen.Placed()
      ensures ScreenOut(out.terminal.grid, before.grid, f, k, everything, cells, links)
      ensures out.terminal == before.(grid := out.terminal.grid, cursor := out.terminal.cursor)
      ensures |marks| == f.height && out.terminal.cursor == LeftBy(marks, f.width, f.height, before.cursor)
      ensures out.ops == [] <==> old(out.ops) == [] && SameCells(k, f)
    {
      if !everything {
        NoneMeansSame(f, k, marks);
      }
      ghost var all := Names(links) + Met(f);
      pen := Pen(UNKNOWN, UNKNOWN, DEFAULT_STYLE, "");
      pen, cells, links := WriteCells(f, everything, out, pen, Shadow(), all, before, marks);
      ScreenIsOut(out.terminal.grid, before.grid, f, k, everything, cells, links);
      AppendStyleChange(out, pen.style, pen.link, DEFAULT_STYLE, "");
      pen := pen.(style := DEFAULT_STYLE, link := "");
    }

    // Shows, hides and places the cursor.
    method SetCursor(f: Frame, out: Output, pen: Pen)
      requires FrameFits(f) && out.Valid() && HasSize(out.terminal, f.width, f.height) && PenAgrees(pen, out.terminal)
      requires out.ops == [] ==> !pen.Placed()
      modifies `cursorX, `cursorY, `cursorShape, out
      ensures out.Valid() && cursorShape == Shape(f)
      ensures out.terminal == old(out.terminal).(cursor := out.terminal.cursor, shape := out.terminal.shape)
      ensures old(cursorShape) == -1 || old(out.terminal.shape) == old(cursorShape) ==> out.terminal.shape == Shape(f)
      ensures if Shape(f) == HIDDEN then cursorX == old(cursorX) && cursorY == old(cursorY)
              else cursorX == CursorX(f) && cursorY == CursorY(f)
      ensures out.terminal.cursor ==
              if Shape(f) != HIDDEN && old(Moves(f, out)) then At(CursorX(f), CursorY(f)) else old(out.terminal.cursor)
      ensures out.ops == [] <==>
                old(out.ops) == [] && Shape(f) == old(cursorShape) && (Shape(f) == HIDDEN || !old(Moves(f, out)))
    {
      var shape := f.shape;
      if shape < HIDDEN || shape > BAR {
        shape := HIDDEN;
      }
      if shape == HIDDEN {
        if cursorShape != shape {
          out.Emit(HideCursor);
        }
      } else {
        PlaceCursor(f, out, pen);
        if cursorShape != shape {
          out.Emit(ShowCursor(shape));
        }
      }
      cursorShape := shape;
    }

    // Where the cursor was left is relied on only when nothing was sent.
    predicate Moves(f: Frame, out: Output)
      requires FrameFits(f)
      reads this, out
    {
      out.ops != [] || CursorX(f) != cursorX || CursorY(f) != cursorY
    }

    method PlaceCursor(f: Frame, out: Output, pen: Pen)
      requires FrameFits(f) && out.Valid() && HasSize(out.terminal, f.width, f.height) && PenAgrees(pen, out.terminal)
      requires out.ops == [] ==> !pen.Placed()
      modifies `cursorX, `cursorY, out
      ensures out.Valid() && cursorX == CursorX(f) && cursorY == CursorY(f)
      ensures if old(Moves(f, out))
              then out.ops != [] && out.terminal == old(out.terminal).(cursor := At(CursorX(f), CursorY(f)))
              else out.ops == [] && out.terminal == old(out.terminal)
    {
      var x := if f.cursorX < 0 then 0 else if f.cursorX >= f.width then f.width - 1 else f.cursorX;
      var y := if f.cursorY < 0 then 0 else if f.cursorY >= f.height then f.height - 1 else f.cursorY;
      if out.ops != [] || x != cursorX || y != cursorY {
        var moved := MoveTo(out, pen, x, y, f.width, f.height);
      }
      cursorX, cursorY := x, y;
    }
  }

  // ---- What is kept between frames ----

  datatype Shadow = Kept(
    cells: seq<seq<Pixel>>, links: seq<string>, width: nat, height: nat, cursorX: int, cursorY: int, cursorShape: int, lastRefresh: int)

  // What the writer takes for granted.
  predicate Fit(k: Shadow) {
    k.width > 0 ==> LinksFit(k.links) && CellsFit(k.cells, k.links, k.width, k.height) && AllFit(k.cells)
  }

  predicate Repaints(k: Shadow, f: Frame, full: bool) {
    full || f.width != k.width || f.height != k.height
  }

  predicate Refreshes(k: Shadow, f: Frame, full: bool, now: int) {
    Repaints(k, f, full) || now - k.lastRefresh >= REFRESH_INTERVAL
  }

  // What a terminal must be for a frame to come out on it: anything of the
  // right size for a repaint; no link left open and no half characters for a
  // refresh; otherwise, but for the links of some cells, what is kept.
  predicate Suits(k: Shadow, t: Terminal, f: Frame, full: bool, now: int) {
    && HasSize(t, f.width, f.height)
    && (!Repaints(k, f, full) ==> t.link == "" && GridPaired(t.grid))
    && (!Refreshes(k, f, full, now) ==> NearlyShows(t, k.cells, k.links))
  }

  // What the frame is compared with.
  function Before(k: Shadow, f: Frame, full: bool): seq<seq<Pixel>> {
    if Repaints(k, f, full) then Blanks(f) else k.cells
  }

  function LinksBefore(k: Shadow, f: Frame, full: bool): seq<string> {
    if Repaints(k, f, full) then [""] else k.links
  }

  // Every link there is to keep once `f` is shown.
  ghost function LinksMet(k: Shadow, f: Frame, full: bool): set<string> {
    Names(LinksBefore(k, f, full)) + Met(f)
  }

  predicate SameCells(k: Shadow, f: Frame) {
    |k.cells| == |f.pixels| && SameRows(f, k.cells, k.links, |k.cells|)
  }

  predicate CellsUnchanged(k: Shadow, f: Frame, full: bool, now: int) {
    !Refreshes(k, f, full, now) && SameCells(k, f)
  }

  // An identical frame within the refresh interval, its cursor as it was.
  predicate Unchanged(k: Shadow, f: Frame, full: bool, now: int)
    requires FrameFits(f)
  {
    && CellsUnchanged(k, f, full, now) && Shape(f) == k.cursorShape
    && (Shape(f) == HIDDEN || (CursorX(f) == k.cursorX && CursorY(f) == k.cursorY))
  }

  predicate ShapeKnown(k: Shadow, t: Terminal) {
    k.cursorShape == -1 || t.shape == k.cursorShape
  }

  // A visible cursor is put in its place whenever anything was written or the
  // place is another.
  predicate PlacesCursor(k: Shadow, f: Frame, full: bool, now: int)
    requires FrameFits(f)
  {
    Shape(f) != HIDDEN && (!CellsUnchanged(k, f, full, now) || CursorX(f) != k.cursorX || CursorY(f) != k.cursorY)
  }

  // Where writing a frame's cells leaves the cursor.
  function Left(k: Shadow, f: Frame, full: bool, now: int, cursor: Place): Place
    requires FrameFits(f) && Fit(k)
  {
    var everything := !Repaints(k, f, full) && Refreshes(k, f, full, now);
    LeftBy(Marks(f, Before(k, f, full), LinksBefore(k, f, full), everything), f.width, f.height, cursor)
  }

  // A terminal and what is kept, ready for a frame's cells.
  predicate Ready(k: Shadow, t: Terminal, f: Frame, everything: bool) {
    && k.width == f.width && k.height == f.height && HasSize(t, f.width, f.height) && GridPaired(t.grid)
    && (!everything ==> NearlyAll(t.grid, Image(k.cells, k.links)))
  }

  predicate Prepared(k: Shadow, k1: Shadow, f: Frame, full: bool, now: int, t: Terminal, t1: Terminal, everything: bool) {
    && everything == (!Repaints(k, f, full) && Refreshes(k, f, full, now))
    && Fit(k1) && Ready(k1, t1, f, everything)
    && k1 == Kept(Before(k, f, full), LinksBefore(k, f, full), f.width, f.height, k.cursorX, k.cursorY,
                  if Refreshes(k, f, full, now) then -1 else k.cursorShape,
                  if Refreshes(k, f, full, now) then now else k.lastRefresh)
    && t1 == t.(grid := t1.grid, rendition := PLAIN, link := "")
    && (if Repaints(k, f, full) then t1.grid == Image(k1.cells, k1.links) else t1.grid == t.grid)
  }

  // What one frame does to the screen: the characters and styles come out
  // right, and the links too if they were right before; the kept copy is right
  // exactly if there is room for every link met since the screen was last
  // cleared.
  ghost predicate Written(k: Shadow, after: Shadow, f: Frame, full: bool, now: int, t: Terminal, end: Terminal) {
    && after.width == f.width && after.height == f.height
    && NearlyShows(end, f.pixels, f.links) && NearlyShows(end, after.cells, after.links)
    && (Refreshes(k, f, full, now) || Shows(t, k.cells, k.links) ==> Shows(end, f.pixels, f.links))
    && (!Refreshes(k, f, full, now) ==> AllCameOut(end.grid, t.grid, f, k.cells, k.links))
    && (SameCells(after, f) <==> Room(LinksMet(k, f, full)))
    && (SameCells(after, f) ==> Names(after.links) == LinksMet(k, f, full))
    && AllKept(f, after.cells, after.links, Room(LinksMet(k, f, full)))
    && after.lastRefresh == (if Refreshes(k, f, full, now) then now else k.lastRefresh)
  }

  // And to the cursor: it is where it was put, or where writing left it.
  predicate Placed(k: Shadow, after: Shadow, f: Frame, full: bool, now: int, t: Terminal, end: Terminal, left: Place)
    requires FrameFits(f)
  {
    && after.cursorShape == Shape(f)
    && (ShapeKnown(k, t) || Refreshes(k, f, full, now) ==> end.shape == Shape(f))
    && after.cursorX == (if Shape(f) == HIDDEN then k.cursorX else CursorX(f))
    && after.cursorY == (if Shape(f) == HIDDEN then k.cursorY else CursorY(f))
    && end.cursor == if PlacesCursor(k, f, full, now) then At(CursorX(f), CursorY(f)) else left
  }

  lemma AllWritten(k: Shadow, k1: Shadow, after: Shadow, f: Frame, full: bool, now: int, t: Terminal, t1: Terminal,
                   end: Terminal, everything: bool)
    requires FrameFits(f) && Prepared(k, k1, f, full, now, t, t1, everything)
    requires ScreenOut(end.grid, t1.grid, f, k1, everything, after.cells, after.links)
    requires end == t1.(grid := end.grid, cursor := end.cursor)
    requires after.width == f.width && after.height == f.height && after.lastRefresh == k1.lastRefresh
    ensures Written(k, after, f, full, now, t, end)
  {
  }

  lemma CursorIsSet(k: Shadow, k1: Shadow, after: Shadow, f: Frame, full: bool, now: int, t: Terminal, t1: Terminal, end: Terminal,
                    quiet: bool, nothing: bool)
    requires FrameFits(f) && (quiet <==> CellsUnchanged(k, f, full, now))
    requires k1.cursorX == k.cursorX && k1.cursorY == k.cursorY && t1.shape == t.shape
    requires k1.cursorShape == if Refreshes(k, f, full, now) then -1 else k.cursorShape
    requires after.cursorShape == Shape(f) && (k1.cursorShape == -1 || t1.shape == k1.cursorShape ==> end.shape == Shape(f))
    requires if Shape(f) == HIDDEN then after.cursorX == k1.cursorX && after.cursorY == k1.cursorY
             else after.cursorX == CursorX(f) && after.cursorY == CursorY(f)
    requires var moves := !quiet || CursorX(f) != k1.cursorX || CursorY(f) != k1.cursorY;
             && end.cursor == (if Shape(f) != HIDDEN && moves then At(CursorX(f), CursorY(f)) else t1.cursor)
             && (nothing <==> quiet && Shape(f) == k1.cursorShape && (Shape(f) == HIDDEN || !moves))
    ensures Placed(k, after, f, full, now, t, end, t1.cursor)
    ensures nothing <==> Unchanged(k, f, full, now)
  {
  }

  // The cursor has no part in it.
  lemma CursorMoves(k: Shadow, k1: Shadow, after: Shadow, f: Frame, full: bool, now: int, t: Terminal, t1: Terminal, end: Terminal)
    requires end == t1.(cursor := end.cursor, shape := end.shape)
    requires after == k1.(cursorX := after.cursorX, cursorY := after.cursorY, cursorShape := after.cursorShape)
    requires Written(k, k1, f, full, now, t, t1)
    ensures Written(k, after, f, full, now, t, end)
  {
  }

  const REFRESH_INTERVAL: int := 30000

  function Shape(f: Frame): int {
    if HIDDEN <= f.shape <= BAR then f.shape else HIDDEN
  }

  function Clamp(v: int, size: nat): int {
    if v < 0 then 0 else if v >= size then size - 1 else v
  }

  function CursorX(f: Frame): (x: nat)
    requires FrameFits(f)
    ensures x < f.width
  {
    Clamp(f.cursorX, f.width)
  }

  function CursorY(f: Frame): (y: nat)
    requires FrameFits(f)
    ensures y < f.height
  {
    Clamp(f.cursorY, f.height)
  }

  function Blanks(f: Frame): seq<seq<Pixel>> {
    Filled(f.height, Filled(f.width, BLANK_PIXEL))
  }

  predicate SameRows(f: Frame, cells: seq<seq<Pixel>>, links: seq<string>, count: nat)
    requires count <= |cells| == |f.pixels|
  {
    forall y :: 0 <= y < count ==> SameRow(f.pixels[y], f.links, cells[y], links)
  }

  // A row as it is kept: it is the frame's, but that a link may have been
  // turned away.
  predicate KeptAs(f: Frame, y: nat, kept: seq<Pixel>, links: seq<string>, room: bool)
    requires y < |f.pixels|
  {
    && |kept| == |f.pixels[y]|
    && forall x {:trigger kept[x]} :: 0 <= x < |kept| ==>
         && kept[x].glyph == f.pixels[y][x].glyph && kept[x].style == f.pixels[y][x].style
         && (LinkOf(links, kept[x].link) == LinkNamed(f, y, x) || (!room && LinkOf(links, kept[x].link) == ""))
  }

  // The first `y` rows are written.
  ghost predicate CellsSoFar(f: Frame, everything: bool, t: Terminal, pen: Pen, all: set<string>, before: Terminal, k: Shadow,
                             marks: seq<int>, y: nat, cells: seq<seq<Pixel>>, links: seq<string>)
  {
    && y <= f.height && CellsFit(k.cells, k.links, f.width, f.height)
    && LinksFit(links) && CellsFit(cells, links, f.width, f.height) && AllFit(cells)
    && Names(links) <= all && k.links <= links
    && HasSize(t, f.width, f.height) && PenAgrees(pen, t) && t.shape == before.shape
    && RowsDone(t.grid, before.grid, f, k.cells, k.links, everything, cells, links, Room(all), y)
    && |marks| == f.height && t.cursor == LeftBy(marks, f.width, y, before.cursor)
  }

  // No row so far had anything to write.
  predicate NoneBy(marks: seq<int>, y: nat) {
    y <= |marks| && forall i :: 0 <= i < y ==> marks[i] < 0
  }

  lemma NoneMeansSame(f: Frame, k: Shadow, marks: seq<int>)
    requires FrameFits(f) && CellsFit(k.cells, k.links, f.width, f.height) && AreMarks(marks, f, k.cells, k.links, false)
    ensures NoneBy(marks, f.height) <==> SameCells(k, f)
  {
    forall y | 0 <= y < f.height ensures marks[y] < 0 <==> SameRow(f.pixels[y], f.links, k.cells[y], k.links) {
      MarkMeansChange(f, y, k.cells[y], k.links);
    }
  }

  lemma MarkMeansChange(f: Frame, y: nat, was: seq<Pixel>, links: seq<string>)
    requires y < |f.pixels| && |was| == |f.pixels[y]|
    ensures LastMark(f.pixels[y], f.links, was, links, false) < 0 <==> SameRow(f.pixels[y], f.links, was, links)
  {
    var now := f.pixels[y];
    var marked := MarkedRow(now, f.links, was, links, false);
    if SameRow(now, f.links, was, links) {
      forall x | 0 <= x < |was| ensures !marked[x] {
        assert Same(now[x], f.links, was[x], links);
        assert x > 0 ==> Same(now[x - 1], f.links, was[x - 1], links);
        assert x + 1 < |was| ==> Same(now[x + 1], f.links, was[x + 1], links);
      }
    } else {
      var x :| 0 <= x < |was| && !Same(now[x], f.links, was[x], links);
      assert marked[x];
    }
  }

  lemma RowsStart(f: Frame, everything: bool, before: Terminal, pen: Pen, all: set<string>, k: Shadow, marks: seq<int>)
    requires FrameFits(f) && Fit(k) && k.width == f.width && k.height == f.height && HasSize(before, f.width, f.height)
    requires PenAgrees(pen, before) && Names(k.links) <= all && |marks| == f.height
    ensures CellsSoFar(f, everything, before, pen, all, before, k, marks, 0, k.cells, k.links)
  {
    RowsBegin(before.grid, f, k.cells, k.links, everything, Room(all));
  }

  lemma RowIsReady(f: Frame, everything: bool, t: Terminal, pen: Pen, all: set<string>, before: Terminal, k: Shadow,
                   marks: seq<int>, y: nat, cells: seq<seq<Pixel>>, links: seq<string>)
    requires FrameFits(f) && y < f.height && Ready(k, before, f, everything)
    requires CellsSoFar(f, everything, t, pen, all, before, k, marks, y, cells, links)
    ensures cells[y] == k.cells[y] && IdsFit(cells[y], links) && RowFits(cells[y]) && |cells[y]| == f.width
    ensures t.grid[y] == before.grid[y] && Paired(t.grid[y])
    ensures !everything ==> Nearly(t.grid[y], RowImage(cells[y], links))
  {
    assert !everything ==> Nearly(before.grid[y], Image(k.cells, k.links)[y]);
    ImageGrows(k.cells[y], k.links, links);
  }

  lemma RowIsNext(f: Frame, everything: bool, t: Terminal, pen: Pen, all: set<string>, before: Terminal, k: Shadow,
                  marks: seq<int>, y: nat, cells: seq<seq<Pixel>>, links: seq<string>,
                  t1: Terminal, pen1: Pen, cells1: seq<seq<Pixel>>, links1: seq<string>, sent: nat, sentNow: nat)
    requires FrameFits(f) && y < f.height && AreMarks(marks, f, k.cells, k.links, everything)
    requires CellsSoFar(f, everything, t1, pen1, all, before, k, marks, y, cells1, links1)
    requires cells1[y] == k.cells[y] && t1.grid[y] == before.grid[y]
    requires HasSize(t, f.width, f.height) && PenAgrees(pen, t) && OnlyRow(t1, t, y)
    requires |cells| == |cells1| && forall i :: 0 <= i < |cells| && i != y ==> cells[i] == cells1[i]
    requires LinksFit(links) && IdsFit(cells[y], links) && RowFits(cells[y]) && Names(links) <= all && links1 <= links
    requires CameOut(t.grid[y], t1.grid[y], f, y, cells1[y], links1, everything) && KeptAs(f, y, cells[y], links, Room(all))
    requires Drew(f, y, LastMark(f.pixels[y], f.links, cells1[y], links1, everything), t1, t, sent, sentNow)
    ensures CellsSoFar(f, everything, t, pen, all, before, k, marks, y + 1, cells, links)
    ensures marks[y] == LastMark(f.pixels[y], f.links, cells1[y], links1, everything)
  {
    RowGrows(f, y, k.cells[y], k.links, links1, everything);
    OutEarlier(t.grid[y], before.grid[y], f, y, k.cells[y], k.links, links1, everything);
    RowAdvances(t.grid, before.grid, f, k.cells, k.links, everything, cells, links, Room(all), y, t1.grid, cells1, links1);
    MarkIsNext(f, everything, before, k, marks, y, links1, t1, t, sent, sentNow);
    RowsFit(f, y, cells, links, cells1, links1);
  }

  lemma MarkIsNext(f: Frame, everything: bool, before: Terminal, k: Shadow, marks: seq<int>, y: nat, links: seq<string>,
                   t1: Terminal, t: Terminal, sent: nat, sentNow: nat)
    requires AreMarks(marks, f, k.cells, k.links, everything) && y < |marks|
             && t1.cursor == LeftBy(marks, f.width, y, before.cursor)
    requires MarkedRow(f.pixels[y], f.links, k.cells[y], k.links, everything) == MarkedRow(f.pixels[y], f.links, k.cells[y], links, everything)
    requires Drew(f, y, LastMark(f.pixels[y], f.links, k.cells[y], links, everything), t1, t, sent, sentNow)
    ensures t.cursor == LeftBy(marks, f.width, y + 1, before.cursor)
    ensures marks[y] == LastMark(f.pixels[y], f.links, k.cells[y], links, everything)
  {
    assert marks[y] == LastMark(f.pixels[y], f.links, k.cells[y], k.links, everything);
  }

  lemma RowsFit(f: Frame, y: nat, cells: seq<seq<Pixel>>, links: seq<string>, cells1: seq<seq<Pixel>>, links1: seq<string>)
    requires y < f.height && CellsFit(cells1, links1, f.width, f.height) && AllFit(cells1) && links1 <= links
    requires |cells| == |cells1| && |cells[y]| == f.width && IdsFit(cells[y], links) && RowFits(cells[y])
    requires forall i :: 0 <= i < |cells| && i != y ==> cells[i] == cells1[i]
    ensures CellsFit(cells, links, f.width, f.height) && AllFit(cells)
  {
    forall i | 0 <= i < f.height ensures |cells[i]| == f.width && IdsFit(cells[i], links) {
      assert i != y ==> IdsFit(cells1[i], links1);
    }
  }

  // What a frame's cells come to, on the screen and in what is kept.
  ghost predicate ScreenOut(grid: seq<seq<Cell>>, before: seq<seq<Cell>>, f: Frame, k: Shadow, everything: bool,
                            cells: seq<seq<Pixel>>, links: seq<string>)
  {
    && |cells| == f.height
    && NearlyAll(grid, Image(f.pixels, f.links)) && NearlyAll(grid, Image(cells, links))
    && (everything || before == Image(k.cells, k.links) ==> grid == Image(f.pixels, f.links))
    && (!everything ==> AllCameOut(grid, before, f, k.cells, k.links))
    && AllKept(f, cells, links, Room(Names(k.links) + Met(f)))
    && |cells| == |f.pixels| && (SameRows(f, cells, links, |cells|) <==> Room(Names(k.links) + Met(f)))
    && (SameRows(f, cells, links, |cells|) ==> Names(links) == Names(k.links) + Met(f))
  }

  lemma ScreenIsOut(grid: seq<seq<Cell>>, before: seq<seq<Cell>>, f: Frame, k: Shadow, everything: bool,
                    cells: seq<seq<Pixel>>, links: seq<string>)
    requires FrameFits(f) && LinksFit(links) && CellsFit(cells, links, f.width, f.height)
    requires k.links <= links && Names(links) <= Names(k.links) + Met(f)
    requires RowsDone(grid, before, f, k.cells, k.links, everything, cells, links, Room(Names(k.links) + Met(f)), f.height)
    ensures ScreenOut(grid, before, f, k, everything, cells, links)
  {
    var all := Names(k.links) + Met(f);
    AllAreOut(grid, before, f, k.cells, k.links, everything, cells, links, Room(all));
    RoomIfSame(f, cells, k.links, links, all);
  }

  predicate AllKept(f: Frame, cells: seq<seq<Pixel>>, links: seq<string>, room: bool) {
    |cells| == |f.pixels| && forall y :: 0 <= y < |cells| ==> KeptAs(f, y, cells[y], links, room)
  }

  // The rows up to `y` came out and are kept, and the others are untouched.
  predicate RowsDone(grid: seq<seq<Cell>>, before: seq<seq<Cell>>, f: Frame, was: seq<seq<Pixel>>, wasLinks: seq<string>,
                     everything: bool, cells: seq<seq<Pixel>>, links: seq<string>, room: bool, y: nat)
  {
    && |grid| == |before| == |f.pixels| == |was| == |cells| && y <= |f.pixels|
    && (forall k :: 0 <= k < |was| ==> |was[k]| == |f.pixels[k]|)
    && (forall k :: 0 <= k < y ==> CameOut(grid[k], before[k], f, k, was[k], wasLinks, everything))
    && (forall k :: 0 <= k < y ==> KeptAs(f, k, cells[k], links, room))
    && (forall k :: y <= k < |f.pixels| ==> grid[k] == before[k] && cells[k] == was[k])
  }

  lemma RowsBegin(before: seq<seq<Cell>>, f: Frame, was: seq<seq<Pixel>>, wasLinks: seq<string>, everything: bool, room: bool)
    requires |before| == |f.pixels| == |was| && forall k :: 0 <= k < |was| ==> |was[k]| == |f.pixels[k]|
    ensures RowsDone(before, before, f, was, wasLinks, everything, was, wasLinks, room, 0)
  {
  }

  lemma RowAdvances(grid: seq<seq<Cell>>, before: seq<seq<Cell>>, f: Frame, was: seq<seq<Pixel>>, wasLinks: seq<string>,
                    everything: bool, cells: seq<seq<Pixel>>, links: seq<string>, room: bool, y: nat,
                    grid1: seq<seq<Cell>>, cells1: seq<seq<Pixel>>, links1: seq<string>)
    requires y < |f.pixels| && RowsDone(grid1, before, f, was, wasLinks, everything, cells1, links1, room, y)
    requires |grid| == |grid1| && forall k :: 0 <= k < |grid| && k != y ==> grid[k] == grid1[k]
    requires |cells| == |cells1| && forall k :: 0 <= k < |cells| && k != y ==> cells[k] == cells1[k]
    requires links1 <= links && forall k :: 0 <= k < |cells1| ==> IdsFit(cells1[k], links1)
    requires CameOut(grid[y], before[y], f, y, was[y], wasLinks, everything) && KeptAs(f, y, cells[y], links, room)
    ensures RowsDone(grid, before, f, was, wasLinks, everything, cells, links, room, y + 1)
  {
    KeptStay(f, y, cells1, links1, cells, links, room);
  }

  lemma OutEarlier(row: seq<Cell>, before: seq<Cell>, f: Frame, y: nat, was: seq<Pixel>, links: seq<string>, more: seq<string>, everything: bool)
    requires y < |f.pixels| && |was| == |f.pixels[y]| && links <= more && IdsFit(was, links)
    requires CameOut(row, before, f, y, was, more, everything)
    ensures CameOut(row, before, f, y, was, links, everything)
  {
    RowGrows(f, y, was, links, more, everything);
  }

  // Cells were written up to `x`, the last of those to be.
  predicate Drew(f: Frame, y: nat, x: int, before: Terminal, after: Terminal, sent: nat, sentNow: nat)
    requires y < |f.pixels| && x < |f.pixels[y]|
  {
    if x < 0 then after.cursor == before.cursor && sentNow == sent
    else after.cursor == At0(x + 1, y, f.width) && sentNow > sent
  }

  // The right half of a wide character is marked if the character is.
  predicate CoversMarked(dirty: seq<bool>, now: seq<Pixel>) {
    |dirty| == |now| && forall k :: 0 <= k < |dirty| ==> CoverMarked(dirty, now, k)
  }

  predicate CoverMarked(dirty: seq<bool>, now: seq<Pixel>, k: nat)
    requires k < |dirty| == |now|
  {
    && (dirty[k] && IsCovered(now, k) ==> dirty[k - 1])
    && (dirty[k] && IsWide(now[k]) ==> k + 1 < |now| && dirty[k + 1])
  }

  lemma CoveredAfter(f: Frame, y: nat, x: nat)
    requires FrameFits(f) && y < f.height && 0 < x < f.width
    ensures IsCovered(f.pixels[y], x) ==> After(f, y, x - 1) == After(f, y, x)
  {
    assert PixelFits(f.pixels[y], x) && PixelFits(f.pixels[y], x - 1);
  }

  // A run ends with a changed cell, and that is no left half.
  lemma RunDrew(f: Frame, y: nat, end: nat, dirty: seq<bool>)
    requires FrameFits(f) && y < f.height && 0 < end <= f.width == |dirty| && dirty[end - 1]
    requires CoversMarked(dirty, f.pixels[y]) && (end < f.width ==> !dirty[end])
    ensures After(f, y, end - 1) == At0(end, y, f.width) && LastTrue(dirty, end) == end - 1
  {
    assert CoverMarked(dirty, f.pixels[y], end - 1);
  }

  function Aim(row: seq<Cell>, wanted: seq<Cell>, marked: seq<bool>): (goal: seq<Cell>)
    requires |row| == |wanted| == |marked|
    ensures |goal| == |row| && forall x :: 0 <= x < |row| ==> goal[x] == if marked[x] then wanted[x] else row[x]
  {
    seq(|row|, x requires 0 <= x < |row| => if marked[x] then wanted[x] else row[x])
  }

  predicate AllFit(cells: seq<seq<Pixel>>) {
    forall y :: 0 <= y < |cells| ==> RowFits(cells[y])
  }

  // The terminal shows exactly these pixels, and is in its default style.
  predicate Shows(t: Terminal, pixels: seq<seq<Pixel>>, links: seq<string>) {
    t.grid == Image(pixels, links) && t.rendition == PLAIN && t.link == ""
  }

  // It shows these characters in these styles.
  predicate NearlyShows(t: Terminal, pixels: seq<seq<Pixel>>, links: seq<string>) {
    NearlyAll(t.grid, Image(pixels, links)) && t.rendition == PLAIN && t.link == ""
  }

  predicate NearlyAll(grid: seq<seq<Cell>>, image: seq<seq<Cell>>) {
    |grid| == |image| && forall y :: 0 <= y < |grid| ==> Nearly(grid[y], image[y])
  }

  lemma NearlyItself(grid: seq<seq<Cell>>)
    ensures NearlyAll(grid, grid)
  {
  }

  // Each row came out.
  predicate AllCameOut(grid: seq<seq<Cell>>, before: seq<seq<Cell>>, f: Frame, was: seq<seq<Pixel>>, wasLinks: seq<string>) {
    && |grid| == |before| == |f.pixels| == |was|
    && forall y :: 0 <= y < |grid| ==>
         |was[y]| == |f.pixels[y]| && CameOut(grid[y], before[y], f, y, was[y], wasLinks, false)
  }

  // ---- A row and what is kept of it ----

  lemma ImageGrows(row: seq<Pixel>, links: seq<string>, more: seq<string>)
    requires links <= more && IdsFit(row, links)
    ensures RowImage(row, links) == RowImage(row, more)
  {
    forall x | 0 <= x < |row| ensures CellOf(row, links, x) == CellOf(row, more, x) {
    }
  }

  // A row's links say the same when there are more of them.
  lemma RowGrows(f: Frame, y: nat, row: seq<Pixel>, links: seq<string>, more: seq<string>, everything: bool)
    requires y < |f.pixels| && |row| == |f.pixels[y]| && links <= more && IdsFit(row, links)
    ensures RowImage(row, links) == RowImage(row, more)
    ensures MarkedRow(f.pixels[y], f.links, row, links, everything) == MarkedRow(f.pixels[y], f.links, row, more, everything)
    ensures SameRow(f.pixels[y], f.links, row, links) <==> SameRow(f.pixels[y], f.links, row, more)
    ensures forall x :: 0 <= x < |row| ==>
              Changed(f.pixels[y], f.links, row, links, everything, x) == Changed(f.pixels[y], f.links, row, more, everything, x)
  {
    ImageGrows(row, links, more);
    forall x | 0 <= x < |row|
      ensures Same(f.pixels[y][x], f.links, row[x], links) == Same(f.pixels[y][x], f.links, row[x], more)
    {
    }
    assert MarkedRow(f.pixels[y], f.links, row, links, everything) == MarkedRow(f.pixels[y], f.links, row, more, everything);
  }

  lemma KeptStay(f: Frame, y: nat, cells: seq<seq<Pixel>>, links: seq<string>, after: seq<seq<Pixel>>, more: seq<string>, room: bool)
    requires |f.pixels| == |cells| == |after| && links <= more
    requires forall k :: 0 <= k < |cells| ==> IdsFit(cells[k], links)
    requires forall k :: 0 <= k < |cells| && k != y ==> after[k] == cells[k]
    ensures forall k :: 0 <= k < |cells| && k != y && KeptAs(f, k, cells[k], links, room) ==> KeptAs(f, k, after[k], more, room)
  {
    forall k | 0 <= k < |cells| && k != y && KeptAs(f, k, cells[k], links, room) ensures KeptAs(f, k, after[k], more, room) {
      forall x | 0 <= x < |cells[k]| ensures LinkOf(more, after[k][x].link) == LinkOf(links, cells[k][x].link) {
      }
    }
  }

  lemma NothingMarked(f: Frame, y: nat, was: seq<Pixel>, links: seq<string>, everything: bool)
    requires y < |f.pixels| && |was| == |f.pixels[y]|
    requires forall x :: 0 <= x < |was| ==> !Changed(f.pixels[y], f.links, was, links, everything, x)
    ensures LastMark(f.pixels[y], f.links, was, links, everything) < 0
    ensures SameRow(f.pixels[y], f.links, was, links) || |was| == 0
  {
    forall x | 0 <= x < |was| ensures Same(f.pixels[y][x], f.links, was[x], links) {
      assert !Changed(f.pixels[y], f.links, was, links, everything, x);
    }
  }

  lemma NothingToDo(row: seq<Cell>, f: Frame, y: nat, was: seq<Pixel>, links: seq<string>)
    requires y < |f.pixels| && SameRow(f.pixels[y], f.links, was, links) && Nearly(row, RowImage(was, links))
    ensures CameOut(row, row, f, y, was, links, false) && KeptAs(f, y, was, links, true)
  {
    SameRowsLookAlike(f.pixels[y], f.links, was, links);
    forall x | 0 <= x < |was| ensures Same(f.pixels[y][x], f.links, was[x], links) {
    }
  }

  lemma MarkedIs(dirty: seq<bool>, changed: seq<bool>, f: Frame, y: nat, was: seq<Pixel>, links: seq<string>, everything: bool)
    requires y < |f.pixels| && |was| == |f.pixels[y]| == |changed|
    requires forall x :: 0 <= x < |was| ==> changed[x] == Changed(f.pixels[y], f.links, was, links, everything, x)
    requires PairedTo(dirty, changed, f.pixels[y], was, |dirty|)
    ensures dirty == MarkedRow(f.pixels[y], f.links, was, links, everything)
  {
    var now := f.pixels[y];
    forall x | 0 <= x < |dirty| ensures dirty[x] == Marked(now, f.links, was, links, everything, x) {
      assert dirty[x] == IsPaired(changed, now, was, |dirty|, x);
      assert changed[x] == Changed(now, f.links, was, links, everything, x);
      assert x > 0 ==> changed[x - 1] == Changed(now, f.links, was, links, everything, x - 1);
      assert x + 1 < |now| ==> changed[x + 1] == Changed(now, f.links, was, links, everything, x + 1);
    }
  }

  // What is not marked looks as it should already, but for a link.
  lemma CleanMatches(f: Frame, y: nat, was: seq<Pixel>, links: seq<string>, marked: seq<bool>, everything: bool, row: seq<Cell>, room: bool)
    requires FrameFits(f) && y < f.height && RowFits(was) && |was| == |row| == f.width
    requires marked == MarkedRow(f.pixels[y], f.links, was, links, everything)
    requires Paired(row) && (!everything ==> Nearly(row, RowImage(was, links)))
    ensures var goal := Aim(row, Goal(f, y), marked); Partway(row, goal, marked, 0) && Aims(goal, Goal(f, y), marked)
    ensures Followed(f, y, was, marked, 0) && FollowedLinks(f, y, was, links, marked, 0, room)
    ensures CoversMarked(marked, f.pixels[y])
    ensures forall x :: 0 <= x < |row| && !marked[x] && row == RowImage(was, links) ==> row[x] == Goal(f, y)[x]
  {
    var now := f.pixels[y];
    forall x | 0 <= x < |marked| && !marked[x]
      ensures !everything && Same(now[x], f.links, was[x], links) && Goal(f, y)[x] == RowImage(was, links)[x]
    {
      assert !Changed(now, f.links, was, links, everything, x);
      UnmarkedLooksSame(f, y, was, links, everything, x);
    }
    MarksCover(f, y, was, links, everything);
  }

  lemma UnmarkedLooksSame(f: Frame, y: nat, was: seq<Pixel>, links: seq<string>, everything: bool, x: nat)
    requires FrameFits(f) && y < f.height && |was| == f.width && x < f.width
    requires !Marked(f.pixels[y], f.links, was, links, everything, x)
    ensures CellOf(f.pixels[y], f.links, x) == CellOf(was, links, x)
  {
    var now := f.pixels[y];
    assert !Changed(now, f.links, was, links, everything, x);
    assert Same(now[x], f.links, was[x], links);
    if x > 0 && WideAt(now, was, x - 1) {
      assert !Changed(now, f.links, was, links, everything, x - 1);
      assert Same(now[x - 1], f.links, was[x - 1], links);
    }
  }

  lemma MarksCover(f: Frame, y: nat, was: seq<Pixel>, links: seq<string>, everything: bool)
    requires FrameFits(f) && y < f.height && RowFits(was) && |was| == f.width
    ensures CoversMarked(MarkedRow(f.pixels[y], f.links, was, links, everything), f.pixels[y])
  {
    var now := f.pixels[y];
    var marked := MarkedRow(now, f.links, was, links, everything);
    forall k | 0 <= k < |marked| ensures CoverMarked(marked, now, k) {
      assert PixelFits(now, k);
      if marked[k] && IsCovered(now, k) {
        PairMarked(f, y, was, links, everything, k - 1);
      }
      if marked[k] && IsWide(now[k]) {
        PairMarked(f, y, was, links, everything, k);
      }
    }
  }

  lemma PairMarked(f: Frame, y: nat, was: seq<Pixel>, links: seq<string>, everything: bool, x: nat)
    requires FrameFits(f) && y < f.height && RowFits(was) && |was| == f.width && x + 1 < f.width
    requires WideAt(f.pixels[y], was, x)
    ensures Marked(f.pixels[y], f.links, was, links, everything, x) == Marked(f.pixels[y], f.links, was, links, everything, x + 1)
  {
    var now := f.pixels[y];
    if x > 0 && WideAt(now, was, x - 1) {
      WideTwice(now, was, x);
      assert Changed(now, f.links, was, links, everything, x);
    }
    if x + 2 < f.width && WideAt(now, was, x + 1) {
      WideTwice(now, was, x + 1);
      assert Changed(now, f.links, was, links, everything, x + 1);
    }
  }

  lemma RowIsOut(after: seq<Cell>, row: seq<Cell>, aim: seq<Cell>, f: Frame, y: nat, was: seq<Pixel>, links: seq<string>, everything: bool)
    requires FrameFits(f) && y < f.height && |was| == |row| == f.width
    requires
      var marked := MarkedRow(f.pixels[y], f.links, was, links, everything);
      var goal := Aim(row, Goal(f, y), marked);
      && Corrects(aim, goal, Goal(f, y)) && Aims(aim, Goal(f, y), marked) && Partway(after, aim, marked, f.width)
      && forall x :: 0 <= x < |row| && !marked[x] && row == RowImage(was, links) ==> row[x] == Goal(f, y)[x]
    ensures CameOut(after, row, f, y, was, links, everything)
  {
    assert after == aim;
    var marked := MarkedRow(f.pixels[y], f.links, was, links, everything);
    forall x | 0 <= x < |after| && after[x] != Goal(f, y)[x]
      ensures after[x] == row[x] && !marked[x] && !Changed(f.pixels[y], f.links, was, links, everything, x)
    {
    }
  }

  lemma FollowedFits(f: Frame, y: nat, kept: seq<Pixel>, dirty: seq<bool>)
    requires FrameFits(f) && y < f.height && Followed(f, y, kept, dirty, f.width)
    ensures RowFits(kept)
  {
    forall x | 0 <= x < |kept| ensures PixelFits(kept, x) {
      assert PixelFits(f.pixels[y], x);
    }
  }

  // A row that came out is like what is kept of it.
  lemma OutIsKept(row: seq<Cell>, f: Frame, y: nat, kept: seq<Pixel>, links: seq<string>, room: bool)
    requires y < |f.pixels| && Nearly(row, Goal(f, y)) && KeptAs(f, y, kept, links, room)
    ensures Nearly(row, RowImage(kept, links))
  {
    forall x | 0 <= x < |kept| ensures Alike(RowImage(kept, links)[x], Goal(f, y)[x]) {
    }
    NearlyNearly(row, Goal(f, y), RowImage(kept, links));
  }

  lemma AllAreOut(grid: seq<seq<Cell>>, before: seq<seq<Cell>>, f: Frame, was: seq<seq<Pixel>>, wasLinks: seq<string>, everything: bool,
                  cells: seq<seq<Pixel>>, links: seq<string>, room: bool)
    requires RowsDone(grid, before, f, was, wasLinks, everything, cells, links, room, |f.pixels|)
    ensures NearlyAll(grid, Image(f.pixels, f.links)) && NearlyAll(grid, Image(cells, links))
    ensures everything || before == Image(was, wasLinks) ==> grid == Image(f.pixels, f.links)
    ensures !everything ==> AllCameOut(grid, before, f, was, wasLinks)
    ensures AllKept(f, cells, links, room)
  {
    forall y | 0 <= y < |grid| ensures Nearly(grid[y], Image(cells, links)[y]) {
      OutIsKept(grid[y], f, y, cells[y], links, room);
    }
    if everything || before == Image(was, wasLinks) {
      forall y | 0 <= y < |grid| ensures grid[y] == Image(f.pixels, f.links)[y] {
        assert CameOut(grid[y], before[y], f, y, was[y], wasLinks, everything);
        assert before == Image(was, wasLinks) ==> before[y] == RowImage(was[y], wasLinks);
      }
    }
  }

  // What is kept is the frame exactly if there was room for every link.
  lemma RoomIfSame(f: Frame, cells: seq<seq<Pixel>>, before: seq<string>, links: seq<string>, all: set<string>)
    requires FrameFits(f) && LinksFit(links) && CellsFit(cells, links, f.width, f.height) && before <= links
    requires all == Names(before) + Met(f) && Names(links) <= all
    requires AllKept(f, cells, links, Room(all))
    ensures SameRows(f, cells, links, f.height) <==> Room(all)
    ensures SameRows(f, cells, links, f.height) ==> Names(links) == all
  {
    if Room(all) {
      forall y | 0 <= y < f.height ensures SameRow(f.pixels[y], f.links, cells[y], links) {
        assert KeptAs(f, y, cells[y], links, true);
      }
    }
    if SameRows(f, cells, links, f.height) {
      forall l | l in Met(f) ensures l in Names(links) {
        var y: nat, x: nat :| y < |f.pixels| && x < |f.pixels[y]| && LinkNamed(f, y, x) == l;
        assert SameRow(f.pixels[y], f.links, cells[y], links) && Same(f.pixels[y][x], f.links, cells[y][x], links);
        assert IdsFit(cells[y], links);
      }
      assert all <= Names(links);
      NamesCount(links);
      SubsetCount(all, Names(links));
    }
  }

  lemma ImageIsPaired(cells: seq<seq<Pixel>>, links: seq<string>)
    requires AllFit(cells)
    ensures GridPaired(Image(cells, links))
  {
    forall y | 0 <= y < |cells| ensures Paired(Image(cells, links)[y]) {
      ImageIsDrawable(cells[y], links);
    }
  }

  // A cleared screen is what blank cells look like.
  lemma BlankImage(grid: seq<seq<Cell>>, cells: seq<seq<Pixel>>)
    requires |grid| == |cells|
    requires forall y :: 0 <= y < |cells| ==> cells[y] == Filled(|cells[y]|, BLANK_PIXEL)
    requires forall y :: 0 <= y < |grid| ==> grid[y] == Filled(|cells[y]|, Shown(BLANK, PLAIN, ""))
    ensures grid == Image(cells, [""])
  {
    forall y | 0 <= y < |cells| ensures grid[y] == RowImage(cells[y], [""]) {
      forall x | 0 <= x < |cells[y]| ensures CellOf(cells[y], [""], x) == Shown(BLANK, PLAIN, "") {
      }
    }
  }

  lemma BlanksFit(cells: seq<seq<Pixel>>)
    requires forall y :: 0 <= y < |cells| ==> cells[y] == Filled(|cells[y]|, BLANK_PIXEL)
    ensures AllFit(cells)
  {
    forall y | 0 <= y < |cells| ensures RowFits(cells[y]) {
      forall x | 0 <= x < |cells[y]| ensures PixelFits(cells[y], x) {
      }
    }
  }

  lemma SkipAdvances(out: Output, pen: Pen, f: Frame, y: nat, dirty: seq<bool>, x: nat, goal: seq<Cell>, all: set<string>,
                     row: seq<Pixel>, links: seq<string>)
    requires y < |f.pixels| && out.Valid() && Starts(out.ops, pen) && Drawn(out.terminal, pen, f, y, dirty, x, goal)
             && Keeping(f, y, dirty, x, all, row, links)
    requires x < |dirty| && !dirty[x]
    ensures out.Valid() && Starts(out.ops, pen) && Drawn(out.terminal, pen, f, y, dirty, x + 1, goal)
            && Keeping(f, y, dirty, x + 1, all, row, links)
  {
  }

  lemma SomethingMarked(f: Frame, y: nat, was: seq<Pixel>, links: seq<string>, everything: bool, changed: seq<bool>)
    requires y < |f.pixels| && |was| == |f.pixels[y]| == |changed| && true in changed
    requires forall x :: 0 <= x < |was| ==> changed[x] == Changed(f.pixels[y], f.links, was, links, everything, x)
    ensures LastMark(f.pixels[y], f.links, was, links, everything) >= 0
  {
    var x :| 0 <= x < |changed| && changed[x];
    assert MarkedRow(f.pixels[y], f.links, was, links, everything)[x];
  }

  lemma LinksGrow(f: Frame, y: nat, row: seq<Pixel>, links: seq<string>, more: seq<string>, dirty: seq<bool>, x: nat, room: bool)
    requires y < |f.pixels| && |row| == |f.pixels[y]| == |dirty| && links <= more && IdsFit(row, links)
    ensures FollowedLinks(f, y, row, links, dirty, x, room) ==> FollowedLinks(f, y, row, more, dirty, x, room)
  {
    forall k | 0 <= k < |row| ensures LinkOf(links, row[k].link) == LinkOf(more, row[k].link) {
    }
  }
}
