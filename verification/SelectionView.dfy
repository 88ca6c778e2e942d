/** Reading and drawing a selection, cell by cell (internal/ui/terminal.go). */
module SelectionView {
  import opened Options
  import opened Basics
  import opened Selection

  /** Viewport cells before (x, y) in reading order, within the selection. */
  predicate Passed(from: Point, to: Point, cols: int, rows: int, x: int, y: int, atX: int, atY: int) {
    Covers(from, to, cols, rows, x, y) && (y < atY || (y == atY && x < atX))
  }

  /** The place and column are those of a cell already passed. */
  ghost predicate FromPassed(back: int, u: Undo, offset: int, from: Point, to: Point, cols: int, rows: int, atX: int, atY: int) {
    exists y :: u.place == SelPlace(back, offset, y) && Passed(from, to, cols, rows, u.x, y, atX, atY)
  }

  /** undo names what was passed and is not blank, and nothing else. */
  ghost predicate NamesPassed(g0: Grid, undo: seq<Undo>, offset: int, from: Point, to: Point, cols: int, rows: int, atX: int, atY: int) {
    && (forall i | 0 <= i < |undo| :: FromPassed(|g0.back|, undo[i], offset, from, to, cols, rows, atX, atY))
    && (forall x, y | Passed(from, to, cols, rows, x, y, atX, atY) ::
          Names(undo, SelPlace(|g0.back|, offset, y), x) || Highlighted(CellAt(g0, offset, x, y)) == CellAt(g0, offset, x, y))
  }

  lemma NotYetNamed(g0: Grid, undo: seq<Undo>, offset: int, from: Point, to: Point, cols: int, rows: int, x: int, y: int)
    requires NamesPassed(g0, undo, offset, from, to, cols, rows, x, y)
    ensures !Names(undo, SelPlace(|g0.back|, offset, y), x)
  {
    if i :| 0 <= i < |undo| && undo[i].place == SelPlace(|g0.back|, offset, y) && undo[i].x == x {
      assert FromPassed(|g0.back|, undo[i], offset, from, to, cols, rows, x, y);
      var z :| undo[i].place == SelPlace(|g0.back|, offset, z) && Passed(from, to, cols, rows, undo[i].x, z, x, y);
      PlacesDiffer(|g0.back|, offset, y, z);
    }
  }

  /** Once everything is passed: exactly the selected cells are drawn selected. */
  lemma DrawnAsSelected(g0: Grid, g: Grid, undo: seq<Undo>, offset: int, from: Point, to: Point, cols: int, rows: int, atX: int, atY: int, x: int, y: int)
    requires Marked(g0, g, undo) && NamesPassed(g0, undo, offset, from, to, cols, rows, atX, atY) && atY > Min(to.y, rows - 1)
    ensures CellAt(g, offset, x, y) ==
            if Covers(from, to, cols, rows, x, y) then Highlighted(CellAt(g0, offset, x, y)) else CellAt(g0, offset, x, y)
  {
    var p := SelPlace(|g0.back|, offset, y);
    assert CellOf(g, p, x) == if Names(undo, p, x) then Highlighted(CellOf(g0, p, x)) else CellOf(g0, p, x);
    if Covers(from, to, cols, rows, x, y) {
      assert Passed(from, to, cols, rows, x, y, atX, atY);
    } else if i :| 0 <= i < |undo| && undo[i].place == p && undo[i].x == x {
      assert FromPassed(|g0.back|, undo[i], offset, from, to, cols, rows, atX, atY);
      var z :| undo[i].place == SelPlace(|g0.back|, offset, z) && Passed(from, to, cols, rows, undo[i].x, z, atX, atY);
      PlacesDiffer(|g0.back|, offset, y, z);
    }
  }

  lemma PassNamed(g0: Grid, undo: seq<Undo>, offset: int, from: Point, to: Point, cols: int, rows: int, x: int, y: int, c: Cell)
    requires NamesPassed(g0, undo, offset, from, to, cols, rows, x, y) && Covers(from, to, cols, rows, x, y)
    ensures NamesPassed(g0, undo + [Undo(SelPlace(|g0.back|, offset, y), x, c)], offset, from, to, cols, rows, x + 1, y)
  {
    var u := Undo(SelPlace(|g0.back|, offset, y), x, c);
    var undo' := undo + [u];
    forall i | 0 <= i < |undo'|
      ensures FromPassed(|g0.back|, undo'[i], offset, from, to, cols, rows, x + 1, y)
    {
      if i < |undo| {
      assert FromPassed(|g0.back|, undo[i], offset, from, to, cols, rows, x, y);
      var z :| undo[i].place == SelPlace(|g0.back|, offset, z) && Passed(from, to, cols, rows, undo[i].x, z, x, y);
        assert Passed(from, to, cols, rows, undo[i].x, z, x + 1, y);
      } else {
        assert Passed(from, to, cols, rows, x, y, x + 1, y);
      }
    }
    forall x', y' | Passed(from, to, cols, rows, x', y', x + 1, y)
      ensures Names(undo', SelPlace(|g0.back|, offset, y'), x') || Highlighted(CellAt(g0, offset, x', y')) == CellAt(g0, offset, x', y')
    {
      OneMoreName(undo, u, SelPlace(|g0.back|, offset, y'), x');
      assert (x', y') == (x, y) || Passed(from, to, cols, rows, x', y', x, y);
    }
  }

  lemma PassBlank(g0: Grid, undo: seq<Undo>, offset: int, from: Point, to: Point, cols: int, rows: int, x: int, y: int)
    requires NamesPassed(g0, undo, offset, from, to, cols, rows, x, y)
    requires Highlighted(CellAt(g0, offset, x, y)) == CellAt(g0, offset, x, y)
    ensures NamesPassed(g0, undo, offset, from, to, cols, rows, x + 1, y)
  {
    forall i | 0 <= i < |undo|
      ensures FromPassed(|g0.back|, undo[i], offset, from, to, cols, rows, x + 1, y)
    {
      assert FromPassed(|g0.back|, undo[i], offset, from, to, cols, rows, x, y);
      var z :| undo[i].place == SelPlace(|g0.back|, offset, z) && Passed(from, to, cols, rows, undo[i].x, z, x, y);
      assert Passed(from, to, cols, rows, undo[i].x, z, x + 1, y);
    }
    forall x', y' | Passed(from, to, cols, rows, x', y', x + 1, y)
      ensures Names(undo, SelPlace(|g0.back|, offset, y'), x') || Highlighted(CellAt(g0, offset, x', y')) == CellAt(g0, offset, x', y')
    {
      assert (x', y') == (x, y) || Passed(from, to, cols, rows, x', y', x, y);
    }
  }

  /** Passing from one place to another with nothing selected in between. */
  lemma PassNothing(g0: Grid, undo: seq<Undo>, offset: int, from: Point, to: Point, cols: int, rows: int, x: int, y: int, x': int, y': int)
    requires NamesPassed(g0, undo, offset, from, to, cols, rows, x, y)
    requires forall a, b :: Passed(from, to, cols, rows, a, b, x, y) <==> Passed(from, to, cols, rows, a, b, x', y')
    ensures NamesPassed(g0, undo, offset, from, to, cols, rows, x', y')
  {
    forall i | 0 <= i < |undo|
      ensures FromPassed(|g0.back|, undo[i], offset, from, to, cols, rows, x', y')
    {
      assert FromPassed(|g0.back|, undo[i], offset, from, to, cols, rows, x, y);
      var z :| undo[i].place == SelPlace(|g0.back|, offset, z) && Passed(from, to, cols, rows, undo[i].x, z, x, y);
      assert Passed(from, to, cols, rows, undo[i].x, z, x', y');
    }
    forall a, b | Passed(from, to, cols, rows, a, b, x', y')
      ensures Names(undo, SelPlace(|g0.back|, offset, b), a) || Highlighted(CellAt(g0, offset, a, b)) == CellAt(g0, offset, a, b)
    {
      assert Passed(from, to, cols, rows, a, b, x, y);
    }
  }

  lemma OneMoreRow(g: Grid, cols: int, offset: int, from: Point, to: Point, first: int, y: int)
    requires first <= y
    ensures var r := SelRange(y, from, to, cols);
            SelectedRows(g, cols, offset, from, to, first, y) ==
            SelectedRows(g, cols, offset, from, to, first, y - 1) + [TrimRight(RowText(g, offset, y, r.0, r.1))]
  {
  }

  class Emulator {
    var grid: Grid

    constructor (grid: Grid)
      ensures this.grid == grid
    {
      this.grid := grid;
    }

    /** The selection as plain text; nothing is selected when there is none. */
    method SelectedText(cols: int, rows: int, offset: int, sel: Option<Drag>) returns (text: string)
      ensures text == if sel.None? then "" else Text(grid, cols, rows, offset, sel.value)
    {
      if sel.None? || cols < 1 || rows < 1 {
        return "";
      }
      var (from, to) := Ordered(sel.value);
      var lines := SelectedLines(cols, rows, offset, from, to);
      text := Join(lines, "\n");
    }

    method SelectedLines(cols: int, rows: int, offset: int, from: Point, to: Point) returns (lines: seq<string>)
      ensures lines == Lines(grid, cols, rows, offset, from, to)
    {
      lines := [];
      var y := Max(from.y, 0);
      while y <= Min(to.y, rows - 1)
        invariant Max(from.y, 0) <= y && (y <= Min(to.y, rows - 1) + 1 || y == Max(from.y, 0))
        invariant lines == SelectedRows(grid, cols, offset, from, to, Max(from.y, 0), y - 1)
      {
        var (startX, endX) := SelRange(y, from, to, cols);
        var row := RowOf(offset, y, startX, endX);
        OneMoreRow(grid, cols, offset, from, to, Max(from.y, 0), y);
        lines := lines + [TrimRight(row)];
        y := y + 1;
      }
    }

    method RowOf(offset: int, y: int, startX: int, endX: int) returns (row: string)
      ensures row == RowText(grid, offset, y, startX, endX)
    {
      row := "";
      var x := startX;
      while x <= endX
        invariant startX <= x && (x <= endX + 1 || x == startX)
        invariant row == RowText(grid, offset, y, startX, x - 1)
      {
        row := row + CellText(CellAt(grid, offset, x, y));
        x := x + 1;
      }
    }

    /** Reverses what is selected, and hands back what it takes to restore it. */
    method HighlightSelection(cols: int, rows: int, offset: int, sel: Drag) returns (undo: seq<Undo>)
      modifies this
      ensures Marked(old(grid), grid, undo)
      ensures forall x, y :: CellAt(grid, offset, x, y) ==
                if Covers(Ordered(sel).0, Ordered(sel).1, cols, rows, x, y)
                then Highlighted(CellAt(old(grid), offset, x, y)) else CellAt(old(grid), offset, x, y)
    {
      ghost var g0 := grid;
      var (from, to) := Ordered(sel);
      undo := [];
      var y := Max(from.y, 0);
      while y <= Min(to.y, rows - 1)
        invariant Max(from.y, 0) <= y
        invariant Marked(g0, grid, undo) && NamesPassed(g0, undo, offset, from, to, cols, rows, SelRange(y, from, to, cols).0, y)
      {
        undo := HighlightRow(g0, cols, rows, offset, from, to, y, undo);
        y := y + 1;
      }
      forall x, z ensures CellAt(grid, offset, x, z) ==
        if Covers(from, to, cols, rows, x, z) then Highlighted(CellAt(g0, offset, x, z)) else CellAt(g0, offset, x, z)
      {
        DrawnAsSelected(g0, grid, undo, offset, from, to, cols, rows, SelRange(y, from, to, cols).0, y, x, z);
      }
    }

    method HighlightRow(ghost g0: Grid, cols: int, rows: int, offset: int, from: Point, to: Point, y: int, undo0: seq<Undo>)
      returns (undo: seq<Undo>)
      requires Max(from.y, 0) <= y <= Min(to.y, rows - 1)
      requires Marked(g0, grid, undo0) && NamesPassed(g0, undo0, offset, from, to, cols, rows, SelRange(y, from, to, cols).0, y)
      modifies this
      ensures Marked(g0, grid, undo) && NamesPassed(g0, undo, offset, from, to, cols, rows, SelRange(y + 1, from, to, cols).0, y + 1)
    {
      undo := undo0;
      var (startX, endX) := SelRange(y, from, to, cols);
      var x := startX;
      while x <= endX
        invariant startX <= x && (x <= endX + 1 || x == startX)
        invariant Marked(g0, grid, undo) && NamesPassed(g0, undo, offset, from, to, cols, rows, x, y)
      {
        var place := SelPlace(|grid.back|, offset, y);
        var cell := CellOf(grid, place, x);
        NotYetNamed(g0, undo, offset, from, to, cols, rows, x, y);
        assert cell == CellOf(g0, place, x);
        if cell.None? || cell.value.IsZero() {
          PassBlank(g0, undo, offset, from, to, cols, rows, x, y);
          x := x + 1;
          continue;
        }
        OneMoreMark(g0, grid, undo, place, x);
        PassNamed(g0, undo, offset, from, to, cols, rows, x, y, cell.value);
        grid := SetOf(grid, place, x, Reversed(cell.value));
        undo := undo + [Undo(place, x, cell.value)];
        x := x + 1;
      }
      PassNothing(g0, undo, offset, from, to, cols, rows, x, y, SelRange(y + 1, from, to, cols).0, y + 1);
    }

    /** Running the undo list, first to last, leaves every cell as it was before the highlight. */
    method Restore(undo: seq<Undo>, ghost g0: Grid)
      requires Marked(g0, grid, undo)
      modifies this
      ensures grid == g0
    {
      var i := 0;
      while i < |undo|
        invariant 0 <= i <= |undo| && Restored(g0, grid, undo[i..])
      {
        OneMoreRestored(g0, grid, undo[i..]);
        assert undo[i..][1..] == undo[i + 1..];
        grid := SetOf(grid, undo[i].place, undo[i].x, undo[i].original);
        i := i + 1;
      }
      SameCells(grid, g0);
    }
  }
}
