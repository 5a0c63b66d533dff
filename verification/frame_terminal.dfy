// The terminal, as a small interpreter of the control functions the screen
// writer uses (ECMA-48, sections 8.3.20 CUF, 8.3.21 CUP, 8.3.39 ED and
// 8.3.117 SGR), and what its rows are like halfway through being rewritten.
module FrameTerminal {
  // What one cell holds: its text and how many columns that takes.
  datatype Glyph = Glyph(text: string, width: nat)

  const BLANK: Glyph := Glyph(" ", 1)

  type Color = nat

  const DEFAULT_COLOR: Color := 0

  datatype Underline = NoLine | Single | Double

  // How the terminal draws, as SGR has set it.
  datatype Rendition = Rendition(
    bold: bool, dim: bool, underline: Underline, blink: bool, inverse: bool, strike: bool, fore: Color, back: Color)

  const PLAIN: Rendition := Rendition(false, false, NoLine, false, false, false, DEFAULT_COLOR, DEFAULT_COLOR)

  // A cell as shown: a character, the right half of a wide one, or something
  // terminals differ on.
  datatype Cell = Shown(glyph: Glyph, rendition: Rendition, link: string) | Covered | Unknown {
    predicate Wide() {
      Shown? && glyph.width == 2
    }
  }

  // The same character in the same style, whatever its link.
  predicate Alike(a: Cell, b: Cell) {
    a == b || (a.Shown? && b.Shown? && a.glyph == b.glyph && a.rendition == b.rendition)
  }

  predicate Nearly(row: seq<Cell>, image: seq<Cell>) {
    |row| == |image| && forall x {:trigger row[x]} :: 0 <= x < |row| ==> Alike(row[x], image[x])
  }

  lemma NearlyNearly(a: seq<Cell>, b: seq<Cell>, c: seq<Cell>)
    requires Nearly(a, b) && Nearly(c, b)
    ensures Nearly(a, c)
  {
  }

  datatype Attribute =
    | BoldOn | DimOn | BoldDimOff | UnderlineTo(line: Underline) | BlinkTo(on: bool) | InverseTo(on: bool)
    | StrikeTo(on: bool) | ForeTo(color: Color) | BackTo(color: Color)

  // What the writer sends.
  datatype Op =
    | ResetStyle
    | EraseAll
    | SetLink(link: string)
    | Set(attribute: Attribute)
    | Position(x: nat, y: nat)
    | Forward(columns: nat)
    | Print(glyph: Glyph)
    | HideCursor
    | ShowCursor(shape: nat)

  datatype Place = At(x: nat, y: nat) | Nowhere

  // `shape` is 0 while the cursor is hidden.
  datatype Terminal = Terminal(grid: seq<seq<Cell>>, cursor: Place, rendition: Rendition, link: string, shape: nat)

  predicate HasSize(t: Terminal, width: nat, height: nat) {
    |t.grid| == height && forall y :: 0 <= y < height ==> |t.grid[y]| == width
  }

  function Smaller(a: nat, b: nat): nat {
    if a <= b then a else b
  }

  function Apply(r: Rendition, a: Attribute): Rendition {
    match a
    case BoldOn => r.(bold := true)
    case DimOn => r.(dim := true)
    case BoldDimOff => r.(bold := false, dim := false)
    case UnderlineTo(line) => r.(underline := line)
    case BlinkTo(on) => r.(blink := on)
    case InverseTo(on) => r.(inverse := on)
    case StrikeTo(on) => r.(strike := on)
    case ForeTo(color) => r.(fore := color)
    case BackTo(color) => r.(back := color)
  }

  // Overwriting half of a wide character spoils the other half.
  function Vacate(row: seq<Cell>, x: nat): (r: seq<Cell>)
    requires x < |row|
    ensures |r| == |row|
  {
    if row[x].Covered? && x > 0 then row[x - 1 := Unknown]
    else if row[x].Wide() && x + 1 < |row| then row[x + 1 := Unknown]
    else row
  }

  function Put(row: seq<Cell>, x: nat, cell: Cell): (r: seq<Cell>)
    requires cell.Shown? && 1 <= cell.glyph.width <= 2 && x + cell.glyph.width <= |row|
    ensures |r| == |row|
  {
    if cell.glyph.width == 1 then Vacate(row, x)[x := cell]
    else Vacate(Vacate(row, x), x + 1)[x := cell][x + 1 := Covered]
  }

  function Filled<T>(count: nat, value: T): (s: seq<T>)
    ensures |s| == count && forall i :: 0 <= i < count ==> s[i] == value
  {
    seq(count, i => value)
  }

  // Every cell the same.
  function Uniform(grid: seq<seq<Cell>>, cell: Cell): seq<seq<Cell>> {
    seq(|grid|, y requires 0 <= y < |grid| => Filled(|grid[y]|, cell))
  }

  // A character goes where the cursor is, if that is known and it fits;
  // otherwise anything may have happened to the screen. After the last column
  // terminals differ on where the cursor stands.
  function Printed(t: Terminal, g: Glyph): Terminal {
    if t.cursor.At? && t.cursor.y < |t.grid| && 1 <= g.width <= 2 && t.cursor.x + g.width <= |t.grid[t.cursor.y]| then
      var row := Put(t.grid[t.cursor.y], t.cursor.x, Shown(g, t.rendition, t.link));
      t.(grid := t.grid[t.cursor.y := row],
         cursor := if t.cursor.x + g.width < |row| then At(t.cursor.x + g.width, t.cursor.y) else Nowhere)
    else
      t.(grid := Uniform(t.grid, Unknown), cursor := Nowhere)
  }

  function Step(t: Terminal, op: Op): Terminal {
    match op
    case ResetStyle => t.(rendition := PLAIN)
    case EraseAll =>
      t.(grid := Uniform(t.grid, if t.rendition == PLAIN && t.link == "" then Shown(BLANK, PLAIN, "") else Unknown))
    case SetLink(link) => t.(link := link)
    case Set(attribute) => t.(rendition := Apply(t.rendition, attribute))
    case Position(x, y) =>
      if |t.grid| == 0 || |t.grid[0]| == 0 then t
      else t.(cursor := At(Smaller(x, |t.grid[0]| - 1), Smaller(y, |t.grid| - 1)))
    case Forward(columns) =>
      if t.cursor.Nowhere? || |t.grid| == 0 || |t.grid[0]| == 0 then t
      else t.(cursor := At(Smaller(t.cursor.x + columns, |t.grid[0]| - 1), t.cursor.y))
    case Print(g) => Printed(t, g)
    case HideCursor => t.(shape := 0)
    case ShowCursor(shape) => t.(shape := shape)
  }

  function Run(t: Terminal, ops: seq<Op>): Terminal {
    if ops == [] then t else Step(Run(t, ops[..|ops| - 1]), ops[|ops| - 1])
  }

  lemma {:induction false} RunOn(t: Terminal, first: seq<Op>, second: seq<Op>)
    ensures Run(t, first + second) == Run(Run(t, first), second)
    decreases |second|
  {
    if second == [] {
      assert first + second == first;
    } else {
      var before, last := second[..|second| - 1], second[|second| - 1];
      RunOn(t, first, before);
      var all := first + second;
      assert all[..|all| - 1] == first + before && all[|all| - 1] == last;
    }
  }

  // ---- Rows ----

  // Wide characters and the cells they cover come in pairs.
  predicate PairedAt(row: seq<Cell>, x: nat)
    requires x < |row|
  {
    && (row[x].Covered? ==> x > 0 && row[x - 1].Wide())
    && (row[x].Wide() ==> x + 1 < |row| && row[x + 1].Covered?)
  }

  predicate Paired(row: seq<Cell>) {
    forall x :: 0 <= x < |row| ==> PairedAt(row, x)
  }

  predicate GridPaired(grid: seq<seq<Cell>>) {
    forall y :: 0 <= y < |grid| ==> Paired(grid[y])
  }

  // The row up to `from` is as wanted, and so is what need not be written.
  predicate Partway(row: seq<Cell>, goal: seq<Cell>, dirty: seq<bool>, from: nat) {
    && |row| == |goal| == |dirty| && from <= |goal| && Paired(row)
    && (forall x {:trigger row[x]} :: 0 <= x < |goal| && (x < from || !dirty[x]) ==> row[x] == goal[x])
  }

  predicate Drawable(goal: seq<Cell>) {
    Paired(goal) && forall x :: 0 <= x < |goal| ==> goal[x].Covered? || (goal[x].Shown? && 1 <= goal[x].glyph.width <= 2)
  }

  lemma NearlyDrawable(row: seq<Cell>, image: seq<Cell>)
    requires Nearly(row, image) && Drawable(image)
    ensures Drawable(row)
  {
    forall x | 0 <= x < |row| ensures PairedAt(row, x) {
      assert PairedAt(image, x);
    }
  }

  // Where a character is to be written, the terminal does not show the right
  // half of another, and the right half of one shown there is still to be
  // written.
  lemma NothingSpoilt(row: seq<Cell>, goal: seq<Cell>, dirty: seq<bool>, x: nat)
    requires Partway(row, goal, dirty, x) && Drawable(goal) && x < |goal| && goal[x].Shown?
    ensures !row[x].Covered?
    ensures row[x].Wide() && goal[x].glyph.width == 1 ==> x + 1 < |row| && dirty[x + 1]
    ensures goal[x].Wide() ==> x + 1 < |row| && goal[x + 1].Covered?
    ensures goal[x].Wide() && row[x + 1].Wide() ==> x + 2 < |row| && dirty[x + 2]
  {
    assert PairedAt(row, x) && PairedAt(goal, x);
    if x > 0 {
      assert PairedAt(goal, x - 1);
    }
    if x + 1 < |row| {
      assert PairedAt(row, x + 1) && PairedAt(goal, x + 1);
      if x + 2 < |row| {
        assert PairedAt(goal, x + 2);
      }
    }
  }

  // Writing a character spoils nothing that is not still to be written. It may
  // have another link than was thought.
  lemma PutAdvances(row: seq<Cell>, goal: seq<Cell>, dirty: seq<bool>, x: nat, cell: Cell)
    requires Partway(row, goal, dirty, x) && Drawable(goal) && x < |goal| && cell.Shown? && Alike(cell, goal[x])
    ensures x + cell.glyph.width <= |row| && 1 <= cell.glyph.width <= 2
    ensures Partway(Put(row, x, cell), goal[x := cell], dirty, x + 1)
  {
    NothingSpoilt(row, goal, dirty, x);
    var after := Put(row, x, cell);
    PutIsPaired(row, x, cell);
  }

  lemma PutIsPaired(row: seq<Cell>, x: nat, cell: Cell)
    requires Paired(row) && cell.Shown? && 1 <= cell.glyph.width <= 2 && x + cell.glyph.width <= |row|
    requires !row[x].Covered?
    ensures Paired(Put(row, x, cell))
  {
    var after := Put(row, x, cell);
    forall k | 0 <= k < |after| ensures PairedAt(after, k) {
      assert PairedAt(row, x) && PairedAt(row, k);
      if k > 0 {
        assert PairedAt(row, k - 1);
      }
      if x + 1 < |row| {
        assert PairedAt(row, x + 1);
      }
    }
  }

  // The right half of a wide character just written, or left alone, is there.
  lemma CoveredAdvances(row: seq<Cell>, goal: seq<Cell>, dirty: seq<bool>, x: nat)
    requires Partway(row, goal, dirty, x) && Drawable(goal) && x < |goal| && goal[x].Covered?
    ensures Partway(row, goal, dirty, x + 1)
  {
    assert PairedAt(goal, x) && PairedAt(row, x - 1);
  }
}
