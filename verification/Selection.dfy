/**
 * Selecting text over the scrollback and the screen (internal/ui/terminal.go,
 * internal/ui/tabs.go).
 */
module Selection {
  import opened Options
  import opened Basics

  datatype Point = Point(x: int, y: int)

  datatype Drag = Drag(anchor: Point, cursor: Point)

  /** `style` is all of the style but the reverse attribute; "" and 0 are the zero values. */
  datatype Cell = Cell(content: string, width: nat, style: string, reverse: bool)
  {
    predicate IsZero() { this == Cell("", 0, "", false) }
  }

  type Line = seq<Cell>

  // ---------------------------------------------------------------- points and ranges

  predicate Before(p: Point, q: Point) { if p.y != q.y then p.y < q.y else p.x < q.x }

  function Ordered(d: Drag): (r: (Point, Point))
    ensures !Before(r.1, r.0)
    ensures r == (d.anchor, d.cursor) || r == (d.cursor, d.anchor)
  {
    if Before(d.cursor, d.anchor) then (d.cursor, d.anchor) else (d.anchor, d.cursor)
  }

  /** A drag the other way has the same ends. */
  lemma OrderedEitherWay(d: Drag)
    ensures Ordered(Drag(d.cursor, d.anchor)) == Ordered(d)
  {
  }

  /** selRange: the first and last column of a row. */
  function SelRange(y: int, from: Point, to: Point, cols: int): (r: (int, int)) {
    (if y == from.y then Clamp(from.x, 0, cols - 1) else 0, if y == to.y then Clamp(to.x, 0, cols - 1) else cols - 1)
  }

  // ---------------------------------------------------------------- storage

  /** What is behind a viewport row. */
  datatype Place = Back(line: int) | Screen(row: int)

  /** selCell's choice. */
  function SelPlace(back: int, offset: int, y: int): Place {
    if offset > 0 && y < offset then Back(back - offset + y) else Screen(y - Max(offset, 0))
  }

  /** renderScrolled's: the offset is clamped to the scrollback first. */
  function ShownPlace(back: int, offset: int, y: int): Place {
    if offset <= 0 then Screen(y)
    else
      var o := Clamp(offset, 0, back);
      if y < o then Back(back - o + y) else Screen(y - o)
  }

  /** What is selected is what is shown, on every row, exactly while the offset is within the scrollback. */
  lemma SelectsWhatIsShown(back: nat, offset: int)
    ensures (forall y: nat :: SelPlace(back, offset, y) == ShownPlace(back, offset, y)) <==> offset <= back
  {
    assert SelPlace(back, offset, 0) == ShownPlace(back, offset, 0) || offset > back;
    if offset > back {
      assert SelPlace(back, offset, 0) != ShownPlace(back, offset, 0);
    }
  }

  /** Different viewport rows are different storage. */
  lemma PlacesDiffer(back: int, offset: int, y: int, z: int)
    requires SelPlace(back, offset, y) == SelPlace(back, offset, z)
    ensures y == z
  {
  }

  /** The grid: lines kept of what scrolled off, trimmed as they are stored, and the screen. */
  datatype Grid = Grid(back: seq<Line>, screen: seq<Line>)

  function CellIn(lines: seq<Line>, x: int, y: int): Option<Cell> {
    if 0 <= y < |lines| && 0 <= x < |lines[y]| then Some(lines[y][x]) else None
  }

  function SetIn(lines: seq<Line>, x: int, y: int, c: Cell): seq<Line> {
    if 0 <= y < |lines| && 0 <= x < |lines[y]| then lines[y := lines[y][x := c]] else lines
  }

  function CellOf(g: Grid, p: Place, x: int): Option<Cell> {
    match p
    case Back(line) => CellIn(g.back, x, line)
    case Screen(row) => CellIn(g.screen, x, row)
  }

  function SetOf(g: Grid, p: Place, x: int, c: Cell): Grid {
    match p
    case Back(line) => g.(back := SetIn(g.back, x, line, c))
    case Screen(row) => g.(screen := SetIn(g.screen, x, row, c))
  }

  /** selCell: the cell shown at a column of a viewport row. */
  function CellAt(g: Grid, offset: int, x: int, y: int): Option<Cell> { CellOf(g, SelPlace(|g.back|, offset, y), x) }

  /** As many lines, each as long. */
  predicate SameShape(g: Grid, h: Grid) {
    && |g.back| == |h.back| && |g.screen| == |h.screen|
    && (forall i | 0 <= i < |g.back| :: |g.back[i]| == |h.back[i]|)
    && (forall i | 0 <= i < |g.screen| :: |g.screen[i]| == |h.screen[i]|)
  }

  /** A write is read back, and nothing else changes. */
  lemma SetThenRead(g: Grid, p: Place, x: int, c: Cell, q: Place, z: int)
    ensures SameShape(g, SetOf(g, p, x, c))
    ensures CellOf(SetOf(g, p, x, c), q, z) == if q == p && z == x && CellOf(g, p, x).Some? then Some(c) else CellOf(g, q, z)
  {
  }

  /** Grids of one shape with the same cells are the same. */
  lemma SameCells(g: Grid, h: Grid)
    requires SameShape(g, h) && forall p, x :: CellOf(g, p, x) == CellOf(h, p, x)
    ensures g == h
  {
    forall i | 0 <= i < |g.back| ensures g.back[i] == h.back[i] {
      forall x | 0 <= x < |g.back[i]| ensures g.back[i][x] == h.back[i][x] {
        assert CellOf(g, Back(i), x) == CellOf(h, Back(i), x);
      }
    }
    forall i | 0 <= i < |g.screen| ensures g.screen[i] == h.screen[i] {
      forall x | 0 <= x < |g.screen[i]| ensures g.screen[i][x] == h.screen[i][x] {
        assert CellOf(g, Screen(i), x) == CellOf(h, Screen(i), x);
      }
    }
  }

  // ---------------------------------------------------------------- text

  /** What one cell adds to the text: the tail of a wide character nothing, an empty cell a blank. */
  function CellText(c: Option<Cell>): string {
    if c.None? then " " else if c.value.IsZero() then "" else if c.value.content == "" then " " else c.value.content
  }

  function RowText(g: Grid, offset: int, y: int, startX: int, endX: int): string
    decreases endX - startX + 1
  {
    if startX > endX then "" else RowText(g, offset, y, startX, endX - 1) + CellText(CellAt(g, offset, endX, y))
  }

  function TrimRight(s: string): (r: string)
    ensures r <= s && (r != "" ==> r[|r| - 1] != ' ')
    ensures forall i | |r| <= i < |s| :: s[i] == ' '
  {
    if s != "" && s[|s| - 1] == ' ' then TrimRight(s[..|s| - 1]) else s
  }

  function SelectedRow(g: Grid, cols: int, offset: int, from: Point, to: Point, y: int): string {
    var r := SelRange(y, from, to, cols);
    TrimRight(RowText(g, offset, y, r.0, r.1))
  }

  /** The rows from first to last, one line each. */
  function SelectedRows(g: Grid, cols: int, offset: int, from: Point, to: Point, first: int, last: int): seq<string>
    decreases last - first + 1
  {
    if first > last then []
    else SelectedRows(g, cols, offset, from, to, first, last - 1) + [SelectedRow(g, cols, offset, from, to, last)]
  }

  /** The visible rows between two points. */
  function Lines(g: Grid, cols: int, rows: int, offset: int, from: Point, to: Point): seq<string> {
    SelectedRows(g, cols, offset, from, to, Max(from.y, 0), Min(to.y, rows - 1))
  }

  function Text(g: Grid, cols: int, rows: int, offset: int, d: Drag): string {
    if cols < 1 || rows < 1 then "" else Join(Lines(g, cols, rows, offset, Ordered(d).0, Ordered(d).1), "\n")
  }

  /** Up or down, left or right: the same text. */
  lemma TextEitherWay(g: Grid, cols: int, rows: int, offset: int, d: Drag)
    ensures Text(g, cols, rows, offset, Drag(d.cursor, d.anchor)) == Text(g, cols, rows, offset, d)
  {
    OrderedEitherWay(d);
  }

  lemma {:induction false} JoinSplits(a: seq<string>, b: seq<string>)
    requires a != [] && b != []
    ensures Join(a + b, "\n") == Join(a, "\n") + "\n" + Join(b, "\n")
    decreases |b|
  {
    var init, last := b[..|b| - 1], b[|b| - 1];
    assert (a + b)[..|a + b| - 1] == a + init && (a + b)[|a + b| - 1] == last;
    if init == [] {
      assert a + init == a;
    } else {
      JoinSplits(a, init);
      assert Join(a, "\n") + "\n" + Join(init, "\n") + "\n" + last == Join(a, "\n") + "\n" + (Join(init, "\n") + "\n" + last);
    }
  }

  /** Rows with the same columns have the same text, whatever the ends. */
  lemma {:induction false} SameRows(g: Grid, cols: int, offset: int, from: Point, to: Point, from': Point, to': Point, first: int, last: int)
    requires forall y | first <= y <= last :: SelRange(y, from, to, cols) == SelRange(y, from', to', cols)
    ensures SelectedRows(g, cols, offset, from, to, first, last) == SelectedRows(g, cols, offset, from', to', first, last)
    decreases last - first + 1
  {
    if first <= last {
      SameRows(g, cols, offset, from, to, from', to', first, last - 1);
    }
  }

  lemma {:induction false} RowsSplit(g: Grid, cols: int, offset: int, from: Point, to: Point, first: int, m: int, last: int)
    requires first <= m < last
    ensures SelectedRows(g, cols, offset, from, to, first, last) ==
            SelectedRows(g, cols, offset, from, to, first, m) + SelectedRows(g, cols, offset, from, to, m + 1, last)
    decreases last - m
  {
    var a, b, row := SelectedRows(g, cols, offset, from, to, first, m), SelectedRows(g, cols, offset, from, to, m + 1, last - 1),
                     SelectedRow(g, cols, offset, from, to, last);
    if m + 1 < last {
      RowsSplit(g, cols, offset, from, to, first, m, last - 1);
    } else {
      assert a + b == a;
    }
    assert (a + b) + [row] == a + (b + [row]);
  }

  /** Up to the end of row m; even if the drag begins past the last column. */
  lemma UpperPart(g: Grid, cols: int, rows: int, offset: int, from: Point, to: Point, m: int)
    requires cols >= 1 && Max(from.y, 0) <= m < Min(to.y, rows - 1)
    ensures var (a, b) := Ordered(Drag(from, Point(cols - 1, m)));
            Lines(g, cols, rows, offset, a, b) == SelectedRows(g, cols, offset, from, to, Max(from.y, 0), m)
  {
    var (a, b) := Ordered(Drag(from, Point(cols - 1, m)));
    SameRows(g, cols, offset, a, b, from, to, Max(from.y, 0), m);
  }

  /** From the start of row m + 1; even if the drag ends before the first column. */
  lemma LowerPart(g: Grid, cols: int, rows: int, offset: int, from: Point, to: Point, m: int)
    requires cols >= 1 && Max(from.y, 0) <= m < Min(to.y, rows - 1)
    ensures var (a, b) := Ordered(Drag(Point(0, m + 1), to));
            Lines(g, cols, rows, offset, a, b) == SelectedRows(g, cols, offset, from, to, m + 1, Min(to.y, rows - 1))
  {
    var (a, b) := Ordered(Drag(Point(0, m + 1), to));
    SameRows(g, cols, offset, a, b, from, to, m + 1, Min(to.y, rows - 1));
  }

  /** A selection cut after any of its visible rows but the last is its two parts, with a newline between. */
  lemma SplitsAtRows(g: Grid, cols: int, rows: int, offset: int, from: Point, to: Point, m: int)
    requires !Before(to, from) && cols >= 1
    requires Max(from.y, 0) <= m < Min(to.y, rows - 1)
    ensures Text(g, cols, rows, offset, Drag(from, to)) ==
            Text(g, cols, rows, offset, Drag(from, Point(cols - 1, m))) + "\n" +
            Text(g, cols, rows, offset, Drag(Point(0, m + 1), to))
  {
    var first, last := Max(from.y, 0), Min(to.y, rows - 1);
    UpperPart(g, cols, rows, offset, from, to, m);
    LowerPart(g, cols, rows, offset, from, to, m);
    RowsSplit(g, cols, offset, from, to, first, m, last);
    JoinSplits(SelectedRows(g, cols, offset, from, to, first, m), SelectedRows(g, cols, offset, from, to, m + 1, last));
  }

  /** The point, its column brought into the panel. */
  function Inside(p: Point, cols: int): Point { Point(Clamp(p.x, 0, cols - 1), p.y) }

  /** A row's columns are those of the cells between the two ends in reading order, ends included: not a rectangle. */
  lemma SelectsReadingOrder(x: int, y: int, from: Point, to: Point, cols: int)
    requires cols >= 1 && from.y <= y <= to.y
    ensures SelRange(y, from, to, cols).0 <= x <= SelRange(y, from, to, cols).1 <==>
            0 <= x < cols && !Before(Point(x, y), Inside(from, cols)) && !Before(Inside(to, cols), Point(x, y))
  {
  }

  /** The cell reads as this one character: its content, or a blank if it is past a line's end or empty. */
  predicate ReadsAs(c: Option<Cell>, ch: char) {
    if c.None? || (c.value.content == "" && !c.value.IsZero()) then ch == ' ' else c.value.content == [ch]
  }

  lemma OneMoreCell(g: Grid, offset: int, y: int, startX: int, endX: int, s: string, ch: char)
    requires startX <= endX && RowText(g, offset, y, startX, endX - 1) == s && ReadsAs(CellAt(g, offset, endX, y), ch)
    ensures RowText(g, offset, y, startX, endX) == s + [ch]
  {
  }

  /** A row of such cells reads as their characters, from left to right. */
  lemma {:induction false} RowReads(g: Grid, offset: int, y: int, startX: int, endX: int, s: string)
    requires |s| == endX - startX + 1 && forall x | startX <= x <= endX :: ReadsAs(CellAt(g, offset, x, y), s[x - startX])
    ensures RowText(g, offset, y, startX, endX) == s
    decreases |s|
  {
    if s != "" {
      var n := |s| - 1;
      RowReads(g, offset, y, startX, endX - 1, s[..n]);
      OneMoreCell(g, offset, y, startX, endX, s[..n], s[n]);
      assert s == s[..n] + [s[n]];
    }
  }

  /** The tail of a wide character adds nothing to what its head reads as. */
  lemma TailReadsAsNothing(g: Grid, offset: int, y: int, startX: int, endX: int)
    requires startX <= endX && CellAt(g, offset, endX, y) == Some(Cell("", 0, "", false))
    ensures RowText(g, offset, y, startX, endX) == RowText(g, offset, y, startX, endX - 1)
  {
  }

  // ---------------------------------------------------------------- highlighting

  /** A cell that was reversed, as it was before. */
  datatype Undo = Undo(place: Place, x: int, original: Cell)

  /** The cell as it is drawn selected. */
  function Reversed(c: Cell): Cell {
    (if c.content == "" then c.(content := " ", width := 1) else c).(reverse := true)
  }

  /** What is past a line's end, or the tail of a wide character, is left alone. */
  function Highlighted(c: Option<Cell>): Option<Cell> {
    if c.None? || c.value.IsZero() then c else Some(Reversed(c.value))
  }

  /** A cell drawn selected shows what it is copied as, reversed and in its own style; what copies as nothing is left alone. */
  lemma ShowsWhatIsCopied(c: Cell)
    ensures CellText(Highlighted(Some(c))) == CellText(Some(c))
    ensures var h := Highlighted(Some(c)).value;
            if c == Cell("", 0, "", false) then h == c
            else h.reverse && h.style == c.style && h.content == CellText(Some(c)) && h.width == (if c.content == "" then 1 else c.width)
  {
  }

  /** Whether the viewport cell is selected. */
  predicate Covers(from: Point, to: Point, cols: int, rows: int, x: int, y: int) {
    Max(from.y, 0) <= y <= Min(to.y, rows - 1) && SelRange(y, from, to, cols).0 <= x <= SelRange(y, from, to, cols).1
  }

  predicate Names(undo: seq<Undo>, p: Place, x: int) {
    exists i | 0 <= i < |undo| :: undo[i].place == p && undo[i].x == x
  }

  /** What undo names is drawn selected in g, and undo holds what it was in g0; the rest is as in g0. */
  ghost predicate Marked(g0: Grid, g: Grid, undo: seq<Undo>) {
    && SameShape(g0, g)
    && (forall i | 0 <= i < |undo| :: CellOf(g0, undo[i].place, undo[i].x) == Some(undo[i].original))
    && (forall p, x :: CellOf(g, p, x) == if Names(undo, p, x) then Highlighted(CellOf(g0, p, x)) else CellOf(g0, p, x))
  }

  lemma OneMoreName(undo: seq<Undo>, u: Undo, p: Place, x: int)
    ensures Names(undo + [u], p, x) <==> Names(undo, p, x) || (u.place == p && u.x == x)
  {
    var more := undo + [u];
    if i :| 0 <= i < |undo| && undo[i].place == p && undo[i].x == x {
      assert more[i].place == p && more[i].x == x;
    }
    assert more[|undo|] == u;
  }

  lemma OneMoreMark(g0: Grid, g: Grid, undo: seq<Undo>, p: Place, x: int)
    requires Marked(g0, g, undo) && !Names(undo, p, x)
    requires CellOf(g, p, x).Some? && !CellOf(g, p, x).value.IsZero()
    ensures var c := CellOf(g, p, x).value; Marked(g0, SetOf(g, p, x, Reversed(c)), undo + [Undo(p, x, c)])
  {
    var c := CellOf(g, p, x).value;
    var g', undo' := SetOf(g, p, x, Reversed(c)), undo + [Undo(p, x, c)];
    SetThenRead(g, p, x, Reversed(c), p, x);
    forall q, z ensures CellOf(g', q, z) == if Names(undo', q, z) then Highlighted(CellOf(g0, q, z)) else CellOf(g0, q, z) {
      SetThenRead(g, p, x, Reversed(c), q, z);
      OneMoreName(undo, Undo(p, x, c), q, z);
    }
  }

  /** Some of what undo names put back: what its rest does not name is as in g0. */
  ghost predicate Restored(g0: Grid, g: Grid, rest: seq<Undo>) {
    SameShape(g0, g) && forall p, x :: !Names(rest, p, x) ==> CellOf(g, p, x) == CellOf(g0, p, x)
  }

  lemma FirstName(rest: seq<Undo>, p: Place, x: int)
    requires rest != []
    ensures Names(rest, p, x) <==> (rest[0].place == p && rest[0].x == x) || Names(rest[1..], p, x)
  {
    if i :| 0 <= i < |rest| && rest[i].place == p && rest[i].x == x && i > 0 {
      assert rest[1..][i - 1] == rest[i];
    }
    if i :| 0 <= i < |rest[1..]| && rest[1..][i].place == p && rest[1..][i].x == x {
      assert rest[1..][i] == rest[i + 1];
    }
  }

  lemma OneMoreRestored(g0: Grid, g: Grid, rest: seq<Undo>)
    requires rest != [] && Restored(g0, g, rest) && CellOf(g0, rest[0].place, rest[0].x) == Some(rest[0].original)
    ensures Restored(g0, SetOf(g, rest[0].place, rest[0].x, rest[0].original), rest[1..])
  {
    var u := rest[0];
    SetThenRead(g, u.place, u.x, u.original, u.place, u.x);
    SomeCell(g0, g, u.place, u.x);
    forall p, x | !Names(rest[1..], p, x) ensures CellOf(SetOf(g, u.place, u.x, u.original), p, x) == CellOf(g0, p, x) {
      SetThenRead(g, u.place, u.x, u.original, p, x);
      FirstName(rest, p, x);
    }
  }

  lemma SomeCell(g: Grid, h: Grid, p: Place, x: int)
    requires SameShape(g, h)
    ensures CellOf(g, p, x).Some? <==> CellOf(h, p, x).Some?
  {
  }
}
