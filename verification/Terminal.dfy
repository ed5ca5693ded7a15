/**
  The terminal's grid as user/lib/glyph/glyph_term.c keeps it: a ring of rows in one array with the index of
  the first visible row. `lines` is the list of lines it stands for, oldest first; every method says what it
  does to that list.
 */
module Terminal {
  import opened Common
  import opened TerminalSpec

  /** The ring row of line `k`, when `top` is the ring row of the first visible line. */
  function Ring(z: Size, top: nat, k: nat): (r: nat)
    requires top < z.Total() && k < z.Total()
    ensures r < z.Total()
  {
    var x := top + z.rows + k;
    if x < z.Total() then x else if x < 2 * z.Total() then x - z.Total() else x - 2 * z.Total()
  }

  lemma ModOnce(x: nat, n: nat)
    requires x < 2 * n
    ensures x % n == if x < n then x else x - n
  {
    if x >= n {
      assert x == 1 * n + (x - n);
    }
  }

  /** One row further on, every line but the newest is where its successor was. */
  lemma RingMoves(z: Size, top: nat)
    requires z.Positive() && top < z.Total()
    ensures var top' := if top + 1 < z.Total() then top + 1 else 0;
      && Ring(z, top', z.Total() - 1)
         == (if top' + z.rows - 1 < z.Total() then top' + z.rows - 1 else top' + z.rows - 1 - z.Total())
      && forall k | 0 <= k < z.Total() - 1 ::
           Ring(z, top', k) == Ring(z, top, k + 1) && Ring(z, top', k) != Ring(z, top', z.Total() - 1)
  {
  }

  class Terminal {
    const z: Size
    const grid: array2<Cell>
    var top: nat
    var offset: nat
    var c: Control
    ghost var lines: seq<Line>

    /** The ring holds the lines, wherever the first visible one is. */
    ghost predicate Shown()
      reads `top, `lines, grid
      requires z.Positive() && top < z.Total() && grid.Length0 == z.Total() && grid.Length1 == z.cols
      requires Rectangular(z, lines)
    {
      forall k, j | 0 <= k < z.Total() && 0 <= j < z.cols :: lines[k][j] == grid[Ring(z, top, k), j]
    }

    ghost predicate Valid()
      reads this, grid
    {
      && z.Positive() && top < z.Total() && grid.Length0 == z.Total() && grid.Length1 == z.cols
      && offset <= z.back && Good(z, Screen(c, lines)) && Shown()
    }

    ghost function View(): Screen
      reads this
    {
      Screen(c, lines)
    }

    /** A blank terminal. */
    constructor (z: Size)
      requires z.Positive()
      ensures Valid() && fresh(grid) && this.z == z && offset == 0 && (c.cx, c.cy) == (0, 0)
      ensures lines == seq(z.Total(), _ => BlankLine(z.cols))
    {
      this.z := z;
      grid := new Cell[z.Total(), z.cols]((_, _) => BLANK);
      top, offset := 0, 0;
      c := Control(0, 0, 0, 0, true, PLAIN, Parser(Ground, [0, 0, 0, 0, 0, 0, 0, 0], 0, false, []), false, false);
      lines := seq(z.Total(), _ => BlankLine(z.cols));
    }

    /** What the user sees at a visible row: the view is the list of lines moved up by `offset`. */
    method CellAt(row: nat, col: nat) returns (cell: Cell)
      requires Valid() && row < z.rows && col < z.cols
      ensures cell == lines[z.back - offset + row][col]
    {
      var x := top as int - offset + row;
      var r := if x < 0 then x + z.Total() else x % z.Total();
      if x >= 0 {
        ModOnce(x, z.Total());
      }
      assert r == Ring(z, top, z.back - offset + row);
      cell := grid[r, col];
    }

    /** Writes a visible cell, whatever the view's offset. */
    method Put(row: nat, col: nat, cell: Cell)
      requires Valid() && row < z.rows && col < z.cols
      modifies grid, `lines
      ensures Valid() && lines == WithCell(z, old(lines), row, col, cell)
    {
      ModOnce(top + row, z.Total());
      assert (top + row) % z.Total() == Ring(z, top, z.back + row);
      grid[(top + row) % z.Total(), col] := cell;
      lines := WithCell(z, lines, row, col, cell);
    }

    method BlankRow(r: nat)
      requires grid.Length0 == z.Total() && grid.Length1 == z.cols && r < z.Total()
      modifies grid
      ensures forall q, i | 0 <= q < z.Total() && 0 <= i < z.cols ::
        grid[q, i] == if q == r then BLANK else old(grid[q, i])
    {
      var j := 0;
      while j < z.cols
        invariant 0 <= j <= z.cols
        invariant forall q, i | 0 <= q < z.Total() && 0 <= i < z.cols ::
          grid[q, i] == if q == r && i < j then BLANK else old(grid[q, i])
      {
        grid[r, j] := BLANK;
        j := j + 1;
      }
    }

    /** Moves the ring on by one row: the oldest line is recycled as the new blank bottom line. */
    method Scroll()
      requires Valid()
      modifies this, grid
      ensures Valid() && lines == Scrolled(old(lines), z.cols) && c == old(c).(cy := z.rows - 1)
      ensures offset == old(offset)
    {
      hide Ring;
      ModOnce(top + 1, z.Total());
      RingMoves(z, top);
      top := (top + 1) % z.Total();
      ModOnce(top + z.rows - 1, z.Total());
      var bottom := (top + z.rows - 1) % z.Total();
      BlankRow(bottom);
      lines := Scrolled(lines, z.cols);
      c := c.(cy := z.rows - 1);
    }

    /** Blanks a visible row from a column to its end. */
    method EraseRow(row: nat, from: nat)
      requires Valid() && row < z.rows && from <= z.cols
      modifies grid, `lines
      ensures Valid() && lines == Erased(z, old(lines), LineOnward(row, from))
    {
      var j := from;
      while j < z.cols
        invariant from <= j <= z.cols && Valid()
        invariant Partly(z, old(lines), lines, row, from, j)
      {
        Put(row, j, BLANK);
        j := j + 1;
      }
      PartlyAll(z, old(lines), lines, row, from);
    }

    /** Blanks every visible row from `first` on. */
    method EraseRows(first: nat)
      requires Valid() && first <= z.rows
      modifies grid, `lines
      ensures Valid() && lines == Erased(z, old(lines), Below(first))
    {
      var r := first;
      while r < z.rows
        invariant first <= r <= z.rows && Valid()
        invariant RowsDone(z, old(lines), lines, first, r)
      {
        EraseRow(r, 0);
        r := r + 1;
      }
      RowsDoneAll(z, old(lines), lines, first);
    }

    /** Select graphic rendition: the pen after every parameter, left to right. */
    method SelectGraphics()
      requires Valid() && c.parser.count > 0
      modifies `c
      ensures Valid() && c == old(c).(pen := Sgr(old(c).parser.params, old(c).parser.count, 0, old(c).pen))
    {
      var p := c.parser;
      var pen := c.pen;
      var i := 0;
      while i < p.count
        invariant Sgr(p.params, p.count, i, pen) == Sgr(p.params, p.count, 0, c.pen)
        decreases p.count - i
      {
        var (next, used) := SgrOne(p.params, p.count, i, pen);
        pen := next;
        i := i + used;
      }
      c := c.(pen := pen);
    }

    /** The cells that a control sequence blanks. */
    method CsiErase(final: Byte)
      requires Valid()
      modifies grid, `lines
      ensures Valid() && lines == Erased(z, old(lines), CsiRegion(c, final))
    {
      hide Good, Shown, Erased;
      BoundsOf();
      ErasedNowhere(z, lines);
      var n := First(c.parser);
      if final == 'J' as int {
        if n == 2 {
          EraseRows(0);
        } else if n == 0 {
          EraseOnward(z, lines, c.cy, c.cx);
          EraseRow(c.cy, c.cx);
          EraseRows(c.cy + 1);
        }
      } else if final == 'K' as int {
        if n == 0 {
          EraseRow(c.cy, c.cx);
        } else if n == 2 {
          EraseRow(c.cy, 0);
        }
      } else if final == 'h' as int || final == 'l' as int {
        if c.parser.priv && n == 1049 {
          EraseRows(0);
        }
      }
    }

    /** A complete control sequence. */
    method CsiDone(final: Byte)
      requires Valid()
      modifies grid, this`lines, this`c
      ensures Valid() && lines == Erased(z, old(lines), CsiRegion(old(c), final)) && c == CsiControl(z, old(c), final)
    {
      hide CsiRegion, Erased;
      CsiErase(final);
      CsiKeepsBounds(z, c, final);
      if final == 'm' as int && c.parser.count > 0 {
        SelectGraphics();
      } else {
        c := CsiControl(z, c, final);
      }
    }

    method NewLine()
      requires Valid()
      modifies this, grid
      ensures Valid() && View() == LineFeed(z, old(View())) && offset == old(offset)
    {
      if c.cy + 1 >= z.rows {
        Scroll();
      } else {
        c := c.(cy := c.cy + 1);
      }
    }

    method Advance(x: nat)
      requires Valid()
      modifies this, grid
      ensures Valid() && View() == MoveRight(z, old(View()), x) && offset == old(offset)
    {
      if x >= z.cols {
        c := c.(cx := 0);
        NewLine();
      } else {
        c := c.(cx := x);
      }
    }

    method GroundInput(ch: Byte)
      requires Valid()
      modifies this, grid
      ensures Valid() && View() == GroundByte(z, old(View()), ch) && offset == old(offset)
    {
      hide Shown, LineFeed, MoveRight, WithCell, NextTab;
      if ch == ESC {
        c := SetMode(c, Escape);
      } else if ch == 10 {
        NewLine();
      } else if ch == 13 {
        c := c.(cx := 0);
      } else if ch == 8 || ch == 127 {
        if c.cx > 0 {
          c := c.(cx := c.cx - 1);
        }
      } else if ch == 9 {
        Advance(NextTab(c.cx));
      } else if 32 <= ch <= 126 {
        Put(c.cy, c.cx, Cell(ch, c.pen));
        Advance(c.cx + 1);
      }
    }

    /** One byte: the ring does what the list of lines does. */
    method Input(ch: Byte)
      requires Valid()
      modifies this, grid
      ensures Valid() && View() == Step(z, old(View()), ch) && offset == old(offset)
    {
      hide Shown, GroundByte, ParserByte, CsiControl, CsiRegion, Erased;
      if c.parser.mode == Ground {
        GroundInput(ch);
      } else if c.parser.mode == Csi && Final(ch) {
        CsiDone(ch);
        c := c.(parser := c.parser.(mode := Ground, priv := false));
      } else {
        ParserKeepsBounds(z, c, ch);
        c := ParserByte(c, ch);
      }
    }

    /** Output snaps the view to the bottom, then every byte in order. */
    method FeedAll(data: seq<Byte>)
      requires Valid()
      modifies this, grid
      ensures Valid() && offset == 0 && View() == Feed(z, old(View()), data)
    {
      hide Shown, Step, Good;
      if offset > 0 {
        offset := 0;
      }
      var i := 0;
      while i < |data|
        invariant 0 <= i <= |data| && Valid() && offset == 0
        invariant Feed(z, View(), data[i..]) == Feed(z, old(View()), data)
      {
        assert data[i..][1..] == data[i + 1..];
        Input(data[i]);
        i := i + 1;
      }
    }

    lemma BoundsOf()
      requires Valid()
      ensures InBounds(z, c) && Rectangular(z, lines)
    {
    }
  }

  ghost predicate Partly(z: Size, before: seq<Line>, after: seq<Line>, row: nat, from: nat, to: nat) {
    && Rectangular(z, before) && Rectangular(z, after)
    && forall k, j | 0 <= k < z.Total() && 0 <= j < z.cols ::
         after[k][j] == if k == z.back + row && from <= j < to then BLANK else before[k][j]
  }

  lemma PartlyAll(z: Size, before: seq<Line>, after: seq<Line>, row: nat, from: nat)
    requires Partly(z, before, after, row, from, z.cols)
    ensures after == Erased(z, before, LineOnward(row, from))
  {
    var e := Erased(z, before, LineOnward(row, from));
    forall k | 0 <= k < z.Total() ensures after[k] == e[k] {
    }
  }

  ghost predicate RowsDone(z: Size, before: seq<Line>, after: seq<Line>, first: nat, to: nat) {
    && Rectangular(z, before) && Rectangular(z, after)
    && forall k, j | 0 <= k < z.Total() && 0 <= j < z.cols ::
         after[k][j] == if z.back + first <= k < z.back + to then BLANK else before[k][j]
  }

  lemma RowsDoneAll(z: Size, before: seq<Line>, after: seq<Line>, first: nat)
    requires RowsDone(z, before, after, first, z.rows)
    ensures after == Erased(z, before, Below(first))
  {
    var e := Erased(z, before, Below(first));
    forall k | 0 <= k < z.Total() ensures after[k] == e[k] {
    }
  }

  lemma EraseOnward(z: Size, lines: seq<Line>, row: nat, col: nat)
    requires Rectangular(z, lines)
    ensures Erased(z, Erased(z, lines, LineOnward(row, col)), Below(row + 1)) == Erased(z, lines, Onward(row, col))
  {
    var e := Erased(z, Erased(z, lines, LineOnward(row, col)), Below(row + 1));
    var f := Erased(z, lines, Onward(row, col));
    forall k | 0 <= k < z.Total() ensures e[k] == f[k] {
    }
  }
}
