/**
  What each control sequence that the terminal knows does, stated of the bytes as they are sent (ECMA-48 section 8.3):
  colours and attributes, cursor moves, erasing, private modes, and the operating system command that marks an
  administrator's session. Whatever a statement does not name stays as it was.
 */
module TerminalSequences {
  import opened Common
  import opened TerminalSpec
  import opened TerminalLaws

  // ---------------------------------------------------------------------------------------------
  // Sequences with their parameters in decimal
  // ---------------------------------------------------------------------------------------------

  function Decimal(n: nat): seq<Byte> {
    if n < 10 then [0x30 + n] else Decimal(n / 10) + [0x30 + n % 10]
  }

  lemma {:induction false} DecimalReads(n: nat)
    ensures Digits(Decimal(n)) && Decimal(n) != [] && Value(Decimal(n), 0) == n
    decreases n
  {
    if n >= 10 {
      DecimalReads(n / 10);
      ValueJoined(Decimal(n / 10), [0x30 + n % 10], 0);
      assert Value([0x30 + n % 10], n / 10) == n / 10 * 10 + n % 10;
    }
  }

  /** `vs` as the text between the introducer and the final byte. */
  function Written(vs: seq<nat>): seq<seq<Byte>> {
    if vs == [] then [[]] else seq(|vs|, i requires 0 <= i < |vs| => Decimal(vs[i]))
  }

  function Code(priv: bool, vs: seq<nat>, final: char): seq<Byte>
    requires final < '\U{100}'
  {
    Introducer(priv) + Joined(Written(vs)) + [final as int]
  }

  lemma WrittenArrives(vs: seq<nat>)
    requires |vs| <= 8
    ensures Fields(Written(vs)) && Arrived(Written(vs)) == vs
  {
    forall i | 0 <= i < |vs|
      ensures Digits(Decimal(vs[i])) && Decimal(vs[i]) != [] && Value(Decimal(vs[i]), 0) == vs[i]
    {
      DecimalReads(vs[i]);
    }
    if vs != [] {
      TakenAll(Written(vs), 8);
    }
  }

  /** The terminal just before the final byte, and that this byte is all that is left to do. */
  lemma CodeActs(z: Size, s: Screen, priv: bool, vs: seq<nat>, final: char) returns (u: Screen)
    requires Good(z, s) && s.c.parser.mode == Ground && |vs| <= 8 && '@' <= final <= '~'
    ensures Good(z, u) && Quiet(s, u) && Holds(u.c, vs) && u.c.parser.priv == priv
    ensures Feed(z, s, Code(priv, vs, final)) == Step(z, u, final as int)
  {
    hide Good, Holds, Step, Feed, Joined, Introducer, Arrived;
    WrittenArrives(vs);
    u := MarkedActs(z, s, Written(vs), final as int, priv);
  }

  lemma FirstHeld(c: Control, vs: seq<nat>)
    requires Holds(c, vs)
    ensures First(c.parser) == if vs == [] then 0 else vs[0]
  {
    if vs != [] {
      assert c.parser.params[..|vs|][0] == vs[0];
    }
  }

  /** At rest again, everything but the parser as in `c`. */
  ghost predicate AtRest(c: Control, d: Control) {
    d == c.(parser := d.parser) && d.parser.mode == Ground
  }

  // ---------------------------------------------------------------------------------------------
  // Colours and attributes
  // ---------------------------------------------------------------------------------------------

  /** The pen after ESC [ vs m. */
  function PenAfter(z: Size, s: Screen, vs: seq<nat>): Pen
    requires Good(z, s)
  {
    Feed(z, s, Code(false, vs, 'm')).c.pen
  }

  lemma {:induction false} SgrReadsOn(p: seq<nat>, q: seq<nat>, n: nat, i: nat, pen: Pen)
    requires n <= |p| && n <= |q| && p[..n] == q[..n]
    ensures Sgr(p, n, i, pen) == Sgr(q, n, i, pen)
    decreases n - i
  {
    if i < n {
      var (next, used) := SgrOne(p, n, i, pen);
      assert SgrOne(q, n, i, pen) == (next, used) by {
        assert forall k | 0 <= k < n :: p[k] == p[..n][k] == q[..n][k] == q[k];
      }
      hide SgrOne;
      SgrReadsOn(p, q, n, i + used, next);
    }
  }

  /** ESC [ vs m changes nothing but the pen. */
  lemma OnlyThePen(z: Size, s: Screen, vs: seq<nat>)
    requires Good(z, s) && s.c.parser.mode == Ground && |vs| <= 8
    ensures var t := Feed(z, s, Code(false, vs, 'm'));
      t.lines == s.lines && AtRest(s.c.(pen := PenAfter(z, s, vs)), t.c)
    ensures PenAfter(z, s, vs) == if vs == [] then PLAIN else Sgr(vs, |vs|, 0, s.c.pen)
  {
    hide Feed, Good, Sgr;
    var u := CodeActs(z, s, false, vs, 'm');
    ErasedNowhere(z, u.lines);
    SgrReadsOn(u.c.parser.params, vs, |vs|, 0, s.c.pen);
  }

  lemma OneCode(z: Size, s: Screen, n: nat)
    requires Good(z, s) && s.c.parser.mode == Ground
    ensures PenAfter(z, s, [n]) == SgrOne([n], 1, 0, s.c.pen).0
  {
    hide PenAfter;
    OnlyThePen(z, s, [n]);
  }

  /** 0, and no parameter at all, give the plain pen. */
  lemma PenReset(z: Size, s: Screen)
    requires Good(z, s) && s.c.parser.mode == Ground
    ensures PenAfter(z, s, [0]) == PenAfter(z, s, []) == Pen(DEFAULT_COLOR, DEFAULT_COLOR, Attrs(false, false, false))
  {
    hide PenAfter;
    OneCode(z, s, 0);
    OnlyThePen(z, s, []);
  }

  /** 1, 4 and 7 set one attribute, 22, 24 and 27 clear it, and nothing else of the pen changes. */
  lemma AttributesSet(z: Size, s: Screen)
    requires Good(z, s) && s.c.parser.mode == Ground
    ensures var p := s.c.pen;
      && PenAfter(z, s, [1]) == Pen(p.fg, p.bg, Attrs(true, p.attrs.underline, p.attrs.reverse))
      && PenAfter(z, s, [4]) == Pen(p.fg, p.bg, Attrs(p.attrs.bold, true, p.attrs.reverse))
      && PenAfter(z, s, [7]) == Pen(p.fg, p.bg, Attrs(p.attrs.bold, p.attrs.underline, true))
      && PenAfter(z, s, [22]) == Pen(p.fg, p.bg, Attrs(false, p.attrs.underline, p.attrs.reverse))
      && PenAfter(z, s, [24]) == Pen(p.fg, p.bg, Attrs(p.attrs.bold, false, p.attrs.reverse))
      && PenAfter(z, s, [27]) == Pen(p.fg, p.bg, Attrs(p.attrs.bold, p.attrs.underline, false))
  {
    hide PenAfter;
    OneCode(z, s, 1);
    OneCode(z, s, 4);
    OneCode(z, s, 7);
    OneCode(z, s, 22);
    OneCode(z, s, 24);
    OneCode(z, s, 27);
  }

  /** The first entry of the palette of 256. */
  const FIRST_COLOR: nat := 0x0100_0000

  /** 30 to 37, 90 to 97 and 39 set the foreground, 40 to 47, 100 to 107 and 49 the background, and nothing else. */
  lemma ColorsSet(z: Size, s: Screen, k: nat)
    requires Good(z, s) && s.c.parser.mode == Ground && k < 8
    ensures var p := s.c.pen;
      && PenAfter(z, s, [30 + k]) == Pen(FIRST_COLOR + k + (if p.attrs.bold then 8 else 0), p.bg, p.attrs)
      && PenAfter(z, s, [90 + k]) == Pen(FIRST_COLOR + 8 + k, p.bg, p.attrs)
      && PenAfter(z, s, [39]) == Pen(DEFAULT_COLOR, p.bg, p.attrs)
      && PenAfter(z, s, [40 + k]) == Pen(p.fg, FIRST_COLOR + k, p.attrs)
      && PenAfter(z, s, [100 + k]) == Pen(p.fg, FIRST_COLOR + 8 + k, p.attrs)
      && PenAfter(z, s, [49]) == Pen(p.fg, DEFAULT_COLOR, p.attrs)
  {
    hide PenAfter;
    OneCode(z, s, 30 + k);
    OneCode(z, s, 90 + k);
    OneCode(z, s, 39);
    OneCode(z, s, 40 + k);
    OneCode(z, s, 100 + k);
    OneCode(z, s, 49);
  }

  /** 38 and 48 set one colour: entry `n` of the palette, if there is one, or red, green and blue modulo 256. */
  lemma ExtendedColorsSet(z: Size, s: Screen, n: nat, r: nat, g: nat, b: nat)
    requires Good(z, s) && s.c.parser.mode == Ground
    ensures var p := s.c.pen;
      && PenAfter(z, s, [38, 5, n]) == Pen(if n < 256 then FIRST_COLOR + n else p.fg, p.bg, p.attrs)
      && PenAfter(z, s, [48, 5, n]) == Pen(p.fg, if n < 256 then FIRST_COLOR + n else p.bg, p.attrs)
      && PenAfter(z, s, [38, 2, r, g, b]) == Pen(r % 256 * 65536 + g % 256 * 256 + b % 256, p.bg, p.attrs)
      && PenAfter(z, s, [48, 2, r, g, b]) == Pen(p.fg, r % 256 * 65536 + g % 256 * 256 + b % 256, p.attrs)
  {
    hide PenAfter, Sgr;
    OnlyThePen(z, s, [38, 5, n]);
    OnlyThePen(z, s, [48, 5, n]);
    OnlyThePen(z, s, [38, 2, r, g, b]);
    OnlyThePen(z, s, [48, 2, r, g, b]);
    FromPalette(38, n, s.c.pen);
    FromPalette(48, n, s.c.pen);
    FromShades(38, r, g, b, s.c.pen);
    FromShades(48, r, g, b, s.c.pen);
  }

  lemma FromPalette(x: nat, n: nat, pen: Pen)
    requires x == 38 || x == 48
    ensures Sgr([x, 5, n], 3, 0, pen) ==
      if n >= 256 then pen else if x == 38 then pen.(fg := FIRST_COLOR + n) else pen.(bg := FIRST_COLOR + n)
  {
    assert SgrOne([x, 5, n], 3, 0, pen).1 == 3;
  }

  lemma FromShades(x: nat, r: nat, g: nat, b: nat, pen: Pen)
    requires x == 38 || x == 48
    ensures var color := r % 256 * 65536 + g % 256 * 256 + b % 256;
      Sgr([x, 2, r, g, b], 5, 0, pen) == if x == 38 then pen.(fg := color) else pen.(bg := color)
  {
    assert SgrOne([x, 2, r, g, b], 5, 0, pen).1 == 5;
  }

  /** Every other code leaves the pen alone. */
  lemma OtherCodes(z: Size, s: Screen, n: nat)
    requires Good(z, s) && s.c.parser.mode == Ground
    requires n !in {0, 1, 4, 7, 22, 24, 27, 39, 49} && !(30 <= n <= 37) && !(40 <= n <= 47) && !(90 <= n <= 97)
    requires !(100 <= n <= 107)
    ensures PenAfter(z, s, [n]) == s.c.pen
  {
    hide PenAfter;
    OneCode(z, s, n);
  }

  /** Codes of which no colour is cut off at the end. */
  predicate Closed(vs: seq<nat>) {
    vs == [] ||
    if vs[0] != 38 && vs[0] != 48 then Closed(vs[1..])
    else if |vs| >= 3 && vs[1] == 5 then Closed(vs[3..])
    else |vs| >= 5 && vs[1] == 2 && Closed(vs[5..])
  }

  lemma {:induction false} SgrShifts(a: seq<nat>, p: seq<nat>, i: nat, pen: Pen)
    ensures Sgr(a + p, |a + p|, |a| + i, pen) == Sgr(p, |p|, i, pen)
    decreases |p| - i
  {
    if i < |p| {
      var all := a + p;
      assert forall k | 0 <= k < |p| :: all[|a| + k] == p[k];
      var (next, used) := SgrOne(p, |p|, i, pen);
      assert SgrOne(all, |all|, |a| + i, pen) == (next, used);
      SgrShifts(a, p, i + used, next);
    }
  }

  /** The first code of a closed list takes the same parameters whatever follows the list. */
  lemma FirstOfClosed(a: seq<nat>, b: seq<nat>, pen: Pen)
    requires a != [] && Closed(a)
    ensures SgrOne(a + b, |a + b|, 0, pen) == SgrOne(a, |a|, 0, pen)
    ensures SgrOne(a, |a|, 0, pen).1 <= |a| && Closed(a[SgrOne(a, |a|, 0, pen).1..])
  {
    assert forall k | 0 <= k < |a| :: (a + b)[k] == a[k];
  }

  lemma {:induction false} SgrOneByOne(a: seq<nat>, b: seq<nat>, pen: Pen)
    requires Closed(a)
    ensures Sgr(a + b, |a + b|, 0, pen) == Sgr(b, |b|, 0, Sgr(a, |a|, 0, pen))
    decreases |a|
  {
    if a == [] {
      assert a + b == b;
    } else {
      hide SgrOne, Closed;
      FirstOfClosed(a, b, pen);
      var (next, used) := SgrOne(a, |a|, 0, pen);
      var head, tail := a[..used], a[used..];
      assert a == head + tail && a + b == head + (tail + b);
      SgrShifts(head, tail, 0, next);
      SgrShifts(head, tail + b, 0, next);
      SgrOneByOne(tail, b, next);
    }
  }

  /** A list of codes in one sequence does what the codes do one sequence after the other. */
  lemma ListsAct(z: Size, s: Screen, a: seq<nat>, b: seq<nat>)
    requires Good(z, s) && s.c.parser.mode == Ground && |a| + |b| <= 8 && Closed(a) && a != [] && b != []
    ensures PenAfter(z, s, a + b) == PenAfter(z, Feed(z, s, Code(false, a, 'm')), b)
  {
    hide Good, Sgr, Closed, Feed;
    OnlyThePen(z, s, a);
    OnlyThePen(z, s, a + b);
    OnlyThePen(z, Feed(z, s, Code(false, a, 'm')), b);
    SgrOneByOne(a, b, s.c.pen);
  }

  // ---------------------------------------------------------------------------------------------
  // The cursor
  // ---------------------------------------------------------------------------------------------

  /** How far a move goes: the parameter, and 1 where it is missing or 0. */
  function Far(vs: seq<nat>): nat {
    if vs == [] || vs[0] == 0 then 1 else vs[0]
  }

  lemma CursorCode(z: Size, s: Screen, vs: seq<nat>, final: char)
    requires Good(z, s) && s.c.parser.mode == Ground && |vs| <= 8 && final in "ABCD"
    ensures var t := Feed(z, s, Code(false, vs, final));
      t.lines == s.lines && AtRest(MoveCursor(z, s.c, final, Far(vs)), t.c)
  {
    hide Feed, Good, Code, Sgr, Position, SetPrivateMode, Erased;
    var u := CodeActs(z, s, false, vs, final);
    FirstHeld(u.c, vs);
    ErasedNowhere(z, u.lines);
  }

  /** A, B, C and D move the cursor up, down, right and left, at most to the edge. */
  lemma CursorMoves(z: Size, s: Screen, vs: seq<nat>)
    requires Good(z, s) && s.c.parser.mode == Ground && |vs| <= 8
    ensures var n := Far(vs);
      var up, down := Feed(z, s, Code(false, vs, 'A')), Feed(z, s, Code(false, vs, 'B'));
      var right, left := Feed(z, s, Code(false, vs, 'C')), Feed(z, s, Code(false, vs, 'D'));
      && up.lines == down.lines == right.lines == left.lines == s.lines
      && AtRest(s.c.(cy := if n <= s.c.cy then s.c.cy - n else 0), up.c)
      && AtRest(s.c.(cy := if s.c.cy + n < z.rows then s.c.cy + n else z.rows - 1), down.c)
      && AtRest(s.c.(cx := if s.c.cx + n < z.cols then s.c.cx + n else z.cols - 1), right.c)
      && AtRest(s.c.(cx := if n <= s.c.cx then s.c.cx - n else 0), left.c)
  {
    hide Feed, Code;
    CursorCode(z, s, vs, 'A');
    CursorCode(z, s, vs, 'B');
    CursorCode(z, s, vs, 'C');
    CursorCode(z, s, vs, 'D');
  }

  /** H and f put the cursor at a row and a column counted from 1, or at the start of it for what is missing. */
  lemma CursorPlaced(z: Size, s: Screen, vs: seq<nat>, final: char)
    requires Good(z, s) && s.c.parser.mode == Ground && |vs| <= 8 && (final == 'H' || final == 'f')
    ensures var t := Feed(z, s, Code(false, vs, final));
      var row, col := if |vs| > 0 && vs[0] > 0 then vs[0] else 1, if |vs| > 1 && vs[1] > 0 then vs[1] else 1;
      t.lines == s.lines && AtRest(s.c.(cy := Min(row, z.rows) - 1, cx := Min(col, z.cols) - 1), t.c)
  {
    hide Feed, Good, Code, Sgr, MoveCursor, SetPrivateMode, Erased;
    var u := CodeActs(z, s, false, vs, final);
    assert forall i | 0 <= i < |vs| :: u.c.parser.params[i] == u.c.parser.params[..|vs|][i] == vs[i];
    ErasedNowhere(z, u.lines);
  }

  // ---------------------------------------------------------------------------------------------
  // Erasing
  // ---------------------------------------------------------------------------------------------

  /** Exactly the visible cells for which `hit` says so are blank, the others as before. */
  ghost predicate Blanked(z: Size, before: seq<Line>, after: seq<Line>, hit: (int, int) -> bool) {
    && Rectangular(z, before) && Rectangular(z, after)
    && (forall k | 0 <= k < z.back :: after[k] == before[k])
    && (forall r, j | 0 <= r < z.rows && 0 <= j < z.cols ::
          after[z.back + r][j] == if hit(r, j) then Cell(32, PLAIN) else before[z.back + r][j])
  }

  lemma ErasedIs(z: Size, lines: seq<Line>, e: Region, hit: (int, int) -> bool)
    requires Rectangular(z, lines) && forall r, j | 0 <= r < z.rows && 0 <= j < z.cols :: hit(r, j) == Hit(e, r, j)
    ensures Blanked(z, lines, Erased(z, lines, e), hit)
  {
    ErasedMoves(z, lines, e);
  }

  /** J with 0 or nothing blanks from the cursor to the end of the screen. */
  lemma ScreenErased(z: Size, s: Screen, vs: seq<nat>)
    requires Good(z, s) && s.c.parser.mode == Ground && |vs| <= 8 && (vs == [] || vs[0] == 0)
    ensures var t := Feed(z, s, Code(false, vs, 'J'));
      && AtRest(s.c, t.c)
      && Blanked(z, s.lines, t.lines, (r, j) => r > s.c.cy || (r == s.c.cy && j >= s.c.cx))
  {
    hide Feed;
    var u := CodeActs(z, s, false, vs, 'J');
    FirstHeld(u.c, vs);
    ErasedIs(z, s.lines, Onward(s.c.cy, s.c.cx), (r, j) => r > s.c.cy || (r == s.c.cy && j >= s.c.cx));
  }

  /** K with 0 or nothing blanks from the cursor to the end of its line, with 2 the whole line. */
  lemma LineErased(z: Size, s: Screen, vs: seq<nat>)
    requires Good(z, s) && s.c.parser.mode == Ground && |vs| <= 8 && (vs == [] || vs[0] == 0 || vs[0] == 2)
    ensures var t := Feed(z, s, Code(false, vs, 'K'));
      && AtRest(s.c, t.c)
      && Blanked(z, s.lines, t.lines, (r, j) => r == s.c.cy && (j >= s.c.cx || (vs != [] && vs[0] == 2)))
  {
    hide Feed;
    var u := CodeActs(z, s, false, vs, 'K');
    FirstHeld(u.c, vs);
    var from := if vs != [] && vs[0] == 2 then 0 else s.c.cx;
    ErasedIs(z, s.lines, LineOnward(s.c.cy, from), (r, j) => r == s.c.cy && (j >= s.c.cx || (vs != [] && vs[0] == 2)));
  }

  /** J and K with any other parameter, and h and l without the private mark, do nothing. */
  lemma Unheeded(z: Size, s: Screen, vs: seq<nat>, final: char)
    requires Good(z, s) && s.c.parser.mode == Ground && |vs| <= 8
    requires (final in "JK" && vs != [] && vs[0] != 0 && vs[0] != 2) || final in "hl"
             || ('@' <= final <= '~' && final !in "ABCDHfJKmhl")
    ensures var t := Feed(z, s, Code(false, vs, final)); t.lines == s.lines && AtRest(s.c, t.c)
  {
    hide Feed, Good;
    var u := CodeActs(z, s, false, vs, final);
    FirstHeld(u.c, vs);
    NotALetter(final);
    ErasedNowhere(z, u.lines);
  }

  lemma NotALetter(final: char)
    ensures var all := "ABCDHfJKmhl";
      final !in all ==> && final != 'A' && final != 'B' && final != 'C' && final != 'D' && final != 'H' && final != 'f'
                        && final != 'J' && final != 'K' && final != 'm' && final != 'h' && final != 'l'
  {
    var all := "ABCDHfJKmhl";
    assert all[0] == 'A' && all[1] == 'B' && all[2] == 'C' && all[3] == 'D' && all[4] == 'H' && all[5] == 'f';
    assert all[6] == 'J' && all[7] == 'K' && all[8] == 'm' && all[9] == 'h' && all[10] == 'l';
  }

  // ---------------------------------------------------------------------------------------------
  // Private modes
  // ---------------------------------------------------------------------------------------------

  /** ESC [ ? 25 h shows the cursor and ESC [ ? 25 l hides it. */
  lemma CursorShown(z: Size, s: Screen)
    requires Good(z, s) && s.c.parser.mode == Ground
    ensures var t := Feed(z, s, Code(true, [25], 'h')); t.lines == s.lines && AtRest(s.c.(shown := true), t.c)
    ensures var t := Feed(z, s, Code(true, [25], 'l')); t.lines == s.lines && AtRest(s.c.(shown := false), t.c)
  {
    hide Feed, Good;
    var u := CodeActs(z, s, true, [25], 'h');
    FirstHeld(u.c, [25]);
    ErasedNowhere(z, u.lines);
    var v := CodeActs(z, s, true, [25], 'l');
    FirstHeld(v.c, [25]);
  }

  /** ESC [ ? 1049 h saves the cursor, blanks the screen and goes home; l blanks it too and brings the cursor back. */
  lemma AlternateScreen(z: Size, s: Screen)
    requires Good(z, s) && s.c.parser.mode == Ground
    ensures var t := Feed(z, s, Code(true, [1049], 'h'));
      && AtRest(s.c.(savedX := s.c.cx, savedY := s.c.cy, cx := 0, cy := 0), t.c)
      && Blanked(z, s.lines, t.lines, (r, j) => true)
    ensures var t := Feed(z, s, Code(true, [1049], 'l'));
      && AtRest(s.c.(cx := s.c.savedX, cy := s.c.savedY), t.c)
      && Blanked(z, s.lines, t.lines, (r, j) => true)
  {
    hide Feed;
    var u := CodeActs(z, s, true, [1049], 'h');
    FirstHeld(u.c, [1049]);
    ErasedIs(z, s.lines, Below(0), (r, j) => true);
    var v := CodeActs(z, s, true, [1049], 'l');
    FirstHeld(v.c, [1049]);
  }

  /** Any other private mode does nothing. */
  lemma OtherModes(z: Size, s: Screen, vs: seq<nat>, final: char)
    requires Good(z, s) && s.c.parser.mode == Ground && |vs| <= 8 && final in "hl"
    requires vs == [] || (vs[0] != 25 && vs[0] != 1049)
    ensures var t := Feed(z, s, Code(true, vs, final)); t.lines == s.lines && AtRest(s.c, t.c)
  {
    hide Feed, Good;
    var u := CodeActs(z, s, true, vs, final);
    FirstHeld(u.c, vs);
    ErasedNowhere(z, u.lines);
  }
}
