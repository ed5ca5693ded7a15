/**
  The terminal core of the Glyph toolkit (user/lib/glyph/glyph_term.c) over a plain list of lines: the
  escape-sequence machine, the cursor and the pen, and what each byte does to the oldest-first list of
  history and visible lines.
 */
module TerminalSpec {
  import opened Common

  type Color = nat

  const DEFAULT_COLOR: Color := 0xffff_ffff
  const ESC: Byte := 0x1b
  const BEL: Byte := 0x07

  datatype Attrs = Attrs(bold: bool, underline: bool, reverse: bool)
  datatype Pen = Pen(fg: Color, bg: Color, attrs: Attrs)
  datatype Cell = Cell(ch: Byte, pen: Pen)

  const PLAIN := Pen(DEFAULT_COLOR, DEFAULT_COLOR, Attrs(false, false, false))
  const BLANK := Cell(32, PLAIN)

  /** esc_state, 0 to 4. */
  datatype Mode = Ground | Escape | Csi | Osc | OscEscape

  datatype Parser = Parser(mode: Mode, params: seq<nat>, count: nat, priv: bool, osc: seq<Byte>)

  /** Everything but the grid. */
  datatype Control = Control(
    cx: int, cy: int, savedX: int, savedY: int, shown: bool, pen: Pen, parser: Parser, admin: bool, changed: bool)

  /** The dimensions, with `back` lines of history above the visible ones. */
  datatype Size = Size(rows: nat, cols: nat, back: nat) {
    function Total(): nat { rows + back }
    predicate Positive() { rows > 0 && cols > 0 }
  }

  type Line = seq<Cell>

  /** History first, then the visible lines from top to bottom. */
  datatype Screen = Screen(c: Control, lines: seq<Line>)

  // ---------------------------------------------------------------------------------------------
  // Lines
  // ---------------------------------------------------------------------------------------------

  function BlankLine(cols: nat): (l: Line)
    ensures |l| == cols && forall j | 0 <= j < cols :: l[j] == BLANK
  {
    seq(cols, _ => BLANK)
  }

  /** The oldest line goes, a blank one comes. */
  function Scrolled(lines: seq<Line>, cols: nat): seq<Line>
    requires lines != []
  {
    lines[1..] + [BlankLine(cols)]
  }

  ghost predicate Rectangular(z: Size, lines: seq<Line>) {
    |lines| == z.Total() && forall k | 0 <= k < |lines| :: |lines[k]| == z.cols
  }

  /** Which visible cells an erase blanks. */
  datatype Region = Nowhere | Below(row: int) | Onward(row: int, col: int) | LineOnward(row: int, col: int)

  predicate Hit(e: Region, r: int, j: int) {
    match e
    case Nowhere => false
    case Below(row) => r >= row
    case Onward(row, col) => (r == row && j >= col) || r > row
    case LineOnward(row, col) => r == row && j >= col
  }

  function BlankIn(l: Line, e: Region, r: int): (m: Line)
    ensures |m| == |l|
    ensures forall j | 0 <= j < |l| :: m[j] == if r >= 0 && Hit(e, r, j) then BLANK else l[j]
  {
    seq(|l|, j requires 0 <= j < |l| => if r >= 0 && Hit(e, r, j) then BLANK else l[j])
  }

  function Erased(z: Size, lines: seq<Line>, e: Region): (m: seq<Line>)
    ensures |m| == |lines|
    ensures forall k | 0 <= k < |lines| :: m[k] == BlankIn(lines[k], e, k - z.back)
  {
    seq(|lines|, k requires 0 <= k < |lines| => BlankIn(lines[k], e, k - z.back))
  }

  function WithCell(z: Size, lines: seq<Line>, r: nat, j: nat, cell: Cell): seq<Line>
    requires z.back + r < |lines| && j < |lines[z.back + r]|
  {
    lines[z.back + r := lines[z.back + r][j := cell]]
  }

  // ---------------------------------------------------------------------------------------------
  // SGR
  // ---------------------------------------------------------------------------------------------

  function Palette(idx: nat): Color {
    0x0100_0000 + idx
  }

  function Rgb(r: nat, g: nat, b: nat): Color {
    (r % 256) * 65536 + (g % 256) * 256 + b % 256
  }

  /** One SGR parameter at `i`; the second result is how many parameters it used. */
  function SgrOne(p: seq<nat>, n: nat, i: nat, pen: Pen): (r: (Pen, nat))
    requires i < n <= |p|
    ensures 1 <= r.1
  {
    var x := p[i];
    var a := pen.attrs;
    if x == 0 then (PLAIN, 1)
    else if x == 1 then (pen.(attrs := a.(bold := true)), 1)
    else if x == 4 then (pen.(attrs := a.(underline := true)), 1)
    else if x == 7 then (pen.(attrs := a.(reverse := true)), 1)
    else if x == 22 then (pen.(attrs := a.(bold := false)), 1)
    else if x == 24 then (pen.(attrs := a.(underline := false)), 1)
    else if x == 27 then (pen.(attrs := a.(reverse := false)), 1)
    else if 30 <= x <= 37 then (pen.(fg := Palette(x - 30 + if a.bold then 8 else 0)), 1)
    else if x == 39 then (pen.(fg := DEFAULT_COLOR), 1)
    else if 40 <= x <= 47 then (pen.(bg := Palette(x - 40)), 1)
    else if x == 49 then (pen.(bg := DEFAULT_COLOR), 1)
    else if 90 <= x <= 97 then (pen.(fg := Palette(x - 90 + 8)), 1)
    else if 100 <= x <= 107 then (pen.(bg := Palette(x - 100 + 8)), 1)
    else if (x == 38 || x == 48) && i + 2 < n && p[i + 1] == 5 then
      var idx := p[i + 2];
      (if idx >= 256 then pen else if x == 38 then pen.(fg := Palette(idx)) else pen.(bg := Palette(idx)), 3)
    else if (x == 38 || x == 48) && i + 4 < n && p[i + 1] == 2 then
      var color := Rgb(p[i + 2], p[i + 3], p[i + 4]);
      (if x == 38 then pen.(fg := color) else pen.(bg := color), 5)
    else (pen, 1)
  }

  function Sgr(p: seq<nat>, n: nat, i: nat, pen: Pen): Pen
    requires n <= |p|
    decreases n - i
  {
    if i >= n then pen
    else
      var (next, used) := SgrOne(p, n, i, pen);
      Sgr(p, n, i + used, next)
  }

  // ---------------------------------------------------------------------------------------------
  // CSI
  // ---------------------------------------------------------------------------------------------

  /** The first parameter, 0 when there is none. */
  function First(p: Parser): nat
    requires |p.params| == 8
  {
    if p.count > 0 then p.params[0] else 0
  }

  /** What a complete control sequence does to everything but the grid. */
  function CsiControl(z: Size, c: Control, final: Byte): Control
    requires |c.parser.params| == 8 && c.parser.count <= 8
  {
    var p := c.parser;
    match final as char
    case 'H' => Position(z, c)
    case 'f' => Position(z, c)
    case 'J' => if First(p) == 2 then c.(cx := 0, cy := 0) else c
    case 'm' => c.(pen := if p.count == 0 then PLAIN else Sgr(p.params, p.count, 0, c.pen))
    case 'h' => if p.priv then SetPrivateMode(c, true) else c
    case 'l' => if p.priv then SetPrivateMode(c, false) else c
    case letter => MoveCursor(z, c, letter, Max(First(p), 1))
  }

  /** Cursor up, down, forward and back, stopping at the edges. */
  function MoveCursor(z: Size, c: Control, letter: char, n: int): Control {
    match letter
    case 'A' => c.(cy := Max(c.cy - n, 0))
    case 'B' => c.(cy := Min(c.cy + n, z.rows - 1))
    case 'C' => c.(cx := Min(c.cx + n, z.cols - 1))
    case 'D' => c.(cx := Max(c.cx - n, 0))
    case _ => c
  }

  /** The private modes: cursor visibility, and the alternate screen with its saved cursor. */
  function SetPrivateMode(c: Control, on: bool): Control
    requires |c.parser.params| == 8
  {
    var n := First(c.parser);
    if n == 25 then c.(shown := on)
    else if n == 1049 then
      if on then c.(savedX := c.cx, savedY := c.cy, cx := 0, cy := 0) else c.(cx := c.savedX, cy := c.savedY)
    else c
  }

  function Position(z: Size, c: Control): Control
    requires |c.parser.params| == 8
  {
    var p := c.parser;
    var row := if p.count > 0 then p.params[0] else 1;
    var col := if p.count > 1 then p.params[1] else 1;
    c.(cy := Min(Max(row, 1) - 1, z.rows - 1), cx := Min(Max(col, 1) - 1, z.cols - 1))
  }

  /** The cells that a complete control sequence blanks. */
  function CsiRegion(c: Control, final: Byte): Region
    requires |c.parser.params| == 8
  {
    var n := First(c.parser);
    match final as char
    case 'J' => if n == 2 then Below(0) else if n == 0 then Onward(c.cy, c.cx) else Nowhere
    case 'K' => if n == 0 then LineOnward(c.cy, c.cx) else if n == 2 then LineOnward(c.cy, 0) else Nowhere
    case 'h' => if c.parser.priv && n == 1049 then Below(0) else Nowhere
    case 'l' => if c.parser.priv && n == 1049 then Below(0) else Nowhere
    case _ => Nowhere
  }

  // ---------------------------------------------------------------------------------------------
  // Bytes
  // ---------------------------------------------------------------------------------------------

  const ADMIN: seq<Byte> := [0x37, 0x37, 0x37, 0x3b, 0x61, 0x64, 0x6d, 0x69, 0x6e, 0x3b]   // 777;admin;

  function OscDone(c: Control): Control {
    var o := c.parser.osc;
    if |o| < 10 || o[..10] != ADMIN then c
    else
      var admin := |o| > 10 && o[10] != 0x30 && o[10] != 0;
      if admin != c.admin then c.(admin := admin, changed := true) else c
  }

  function SetMode(c: Control, mode: Mode): Control {
    c.(parser := c.parser.(mode := mode))
  }

  predicate Final(ch: Byte) {
    0x40 <= ch <= 0x7e
  }

  /** A byte inside CSI that is not its final one: a private mark, a digit, a separator, or an abort. */
  function CsiByte(c: Control, ch: Byte): Control
    requires |c.parser.params| == 8 && c.parser.count <= 8
  {
    var p := c.parser;
    if ch == 0x3f && p.count == 0 then c.(parser := p.(priv := true))
    else if 0x30 <= ch <= 0x39 then
      var count := if p.count == 0 then 1 else p.count;
      c.(parser := p.(count := count, params := p.params[count - 1 := p.params[count - 1] * 10 + (ch - 0x30)]))
    else if ch == 0x3b then
      if p.count < 8 then c.(parser := p.(params := p.params[p.count := 0], count := p.count + 1)) else c
    else c.(parser := p.(mode := Ground, priv := false))
  }

  /** The bytes that touch neither the grid nor the cursor: all of an escape sequence but a CSI's last byte. */
  function ParserByte(c: Control, ch: Byte): Control
    requires c.parser.mode != Ground && |c.parser.params| == 8 && c.parser.count <= 8
  {
    var p := c.parser;
    match p.mode
    case Escape =>
      if ch == 0x5b then
        c.(parser := p.(mode := Csi, count := 0, priv := false, params := p.params[0 := 0][1 := 0]))
      else if ch == 0x5d then c.(parser := p.(mode := Osc, osc := []))
      else SetMode(c, Ground)
    case Osc =>
      if ch == BEL then SetMode(OscDone(c), Ground)
      else if ch == ESC then SetMode(c, OscEscape)
      else if |p.osc| < 63 then c.(parser := p.(osc := p.osc + [ch]))
      else c
    case OscEscape => SetMode(if ch == 0x5c then OscDone(c) else c, Ground)
    case _ => CsiByte(c, ch)
  }

  /** Down one line, scrolling at the bottom. */
  function LineFeed(z: Size, s: Screen): Screen
    requires s.lines != []
  {
    if s.c.cy + 1 >= z.rows then Screen(s.c.(cy := z.rows - 1), Scrolled(s.lines, z.cols))
    else s.(c := s.c.(cy := s.c.cy + 1))
  }

  /** The cursor after it moved right to `x`. */
  function MoveRight(z: Size, s: Screen, x: int): Screen
    requires s.lines != []
  {
    if x >= z.cols then LineFeed(z, s.(c := s.c.(cx := 0))) else s.(c := s.c.(cx := x))
  }

  ghost predicate InBounds(z: Size, c: Control) {
    && 0 <= c.cx < z.cols && 0 <= c.cy < z.rows && 0 <= c.savedX < z.cols && 0 <= c.savedY < z.rows
    && |c.parser.params| == 8 && c.parser.count <= 8 && |c.parser.osc| <= 63
  }

  ghost predicate Good(z: Size, s: Screen) {
    z.Positive() && Rectangular(z, s.lines) && InBounds(z, s.c)
  }

  /** The next multiple of eight. */
  function NextTab(x: int): (t: int)
    ensures x < t <= x + 8
  {
    (x + 8) / 8 * 8
  }

  /** A byte outside any escape sequence. */
  function GroundByte(z: Size, s: Screen, ch: Byte): Screen
    requires Good(z, s)
  {
    var c := s.c;
    if ch == ESC then s.(c := SetMode(c, Escape))
    else if ch == 10 then LineFeed(z, s)
    else if ch == 13 then s.(c := c.(cx := 0))
    else if ch == 8 || ch == 127 then s.(c := c.(cx := Max(c.cx - 1, 0)))
    else if ch == 9 then MoveRight(z, s, NextTab(c.cx))
    else if 32 <= ch <= 126 then
      MoveRight(z, s.(lines := WithCell(z, s.lines, c.cy, c.cx, Cell(ch, c.pen))), c.cx + 1)
    else s
  }

  /** One byte of output. */
  function Step(z: Size, s: Screen, ch: Byte): Screen
    requires Good(z, s)
  {
    if s.c.parser.mode == Ground then GroundByte(z, s, ch)
    else if s.c.parser.mode == Csi && Final(ch) then
      var done := CsiControl(z, s.c, ch);
      Screen(done.(parser := done.parser.(mode := Ground, priv := false)), Erased(z, s.lines, CsiRegion(s.c, ch)))
    else s.(c := ParserByte(s.c, ch))
  }

  /** Did this byte scroll? */
  predicate Scrolls(z: Size, c: Control, ch: Byte) {
    && c.parser.mode == Ground && c.cy + 1 >= z.rows
    && (ch == 10 || (ch == 9 && NextTab(c.cx) >= z.cols) || (32 <= ch <= 126 && c.cx + 1 >= z.cols))
  }

  lemma CursorKeepsBounds(z: Size, c: Control, letter: char, n: nat)
    requires z.Positive() && InBounds(z, c)
    ensures InBounds(z, MoveCursor(z, c, letter, n)) && MoveCursor(z, c, letter, n).parser == c.parser
    ensures InBounds(z, Position(z, c)) && Position(z, c).parser == c.parser
  {
  }

  lemma ModeKeepsBounds(z: Size, c: Control, on: bool)
    requires z.Positive() && InBounds(z, c)
    ensures InBounds(z, SetPrivateMode(c, on)) && SetPrivateMode(c, on).parser == c.parser
  {
  }

  lemma CsiKeepsBounds(z: Size, c: Control, ch: Byte)
    requires z.Positive() && InBounds(z, c)
    ensures InBounds(z, CsiControl(z, c, ch)) && CsiControl(z, c, ch).parser == c.parser
  {
    hide Sgr, MoveCursor, Position, SetPrivateMode;
    CursorKeepsBounds(z, c, ch as char, Max(First(c.parser), 1));
    ModeKeepsBounds(z, c, true);
    ModeKeepsBounds(z, c, false);
  }

  lemma ParserKeepsBounds(z: Size, c: Control, ch: Byte)
    requires z.Positive() && InBounds(z, c) && c.parser.mode != Ground
    ensures InBounds(z, ParserByte(c, ch))
  {
  }

  lemma MoveRightKeeps(z: Size, s: Screen, x: nat)
    requires Good(z, s)
    ensures Good(z, MoveRight(z, s, x)) && Good(z, LineFeed(z, s))
  {
  }

  lemma WithCellKeeps(z: Size, s: Screen, cell: Cell)
    requires Good(z, s)
    ensures Good(z, s.(lines := WithCell(z, s.lines, s.c.cy, s.c.cx, cell)))
  {
  }

  lemma GroundKeeps(z: Size, s: Screen, ch: Byte)
    requires Good(z, s)
    ensures Good(z, GroundByte(z, s, ch))
  {
    hide MoveRight, LineFeed, WithCell, NextTab;
    if ch == 10 {
      MoveRightKeeps(z, s, 0);
    } else if ch == 9 {
      MoveRightKeeps(z, s, NextTab(s.c.cx));
    } else if 32 <= ch <= 126 {
      WithCellKeeps(z, s, Cell(ch, s.c.pen));
      MoveRightKeeps(z, s.(lines := WithCell(z, s.lines, s.c.cy, s.c.cx, Cell(ch, s.c.pen))), s.c.cx + 1);
    }
  }

  /** Every byte keeps the cursor, the saved cursor, the parameters and the OSC buffer in bounds. */
  lemma StepKeeps(z: Size, s: Screen, ch: Byte)
    requires Good(z, s)
    ensures Good(z, Step(z, s, ch))
  {
    hide CsiControl, GroundByte, ParserByte;
    if s.c.parser.mode == Ground {
      GroundKeeps(z, s, ch);
    } else if s.c.parser.mode == Csi && Final(ch) {
      CsiKeepsBounds(z, s.c, ch);
    } else {
      ParserKeepsBounds(z, s.c, ch);
    }
  }

  /** A whole buffer of output. */
  function Feed(z: Size, s: Screen, data: seq<Byte>): (t: Screen)
    requires Good(z, s)
    ensures Good(z, t)
    decreases |data|
  {
    if data == [] then s
    else
      StepKeeps(z, s, data[0]);
      Feed(z, Step(z, s, data[0]), data[1..])
  }

  lemma ErasedNowhere(z: Size, lines: seq<Line>)
    ensures Erased(z, lines, Nowhere) == lines
  {
    var e := Erased(z, lines, Nowhere);
    forall k | 0 <= k < |lines| ensures e[k] == lines[k] {
    }
  }
}
