/**
  What everything but a complete control sequence does: text of any length flows over the screen as over an endless
  page of which the terminal keeps the last lines, the control bytes move the cursor, an operating system command sets
  the mark of an administrator's session, and a sequence that breaks off does nothing.
 */
module TerminalText {
  import opened Common
  import opened TerminalSpec
  import opened TerminalLaws
  import opened TerminalSequences

  // ---------------------------------------------------------------------------------------------
  // Control bytes
  // ---------------------------------------------------------------------------------------------

  lemma OneByte(z: Size, s: Screen, ch: Byte)
    requires Good(z, s)
    ensures Feed(z, s, [ch]) == Step(z, s, ch)
  {
    StepKeeps(z, s, ch);
    assert [ch][1..] == [];
  }

  /** Return goes to the first column; backspace and delete go one column left, if there is one. */
  lemma LeftwardBytes(z: Size, s: Screen)
    requires Good(z, s) && s.c.parser.mode == Ground
    ensures Feed(z, s, [13]) == s.(c := s.c.(cx := 0))
    ensures Feed(z, s, [8]) == Feed(z, s, [127]) == s.(c := s.c.(cx := if s.c.cx == 0 then 0 else s.c.cx - 1))
  {
    hide Feed;
    OneByte(z, s, 13);
    OneByte(z, s, 8);
    OneByte(z, s, 127);
  }

  /** A line feed goes down in the same column; on the last line every line moves up by one and a blank one follows. */
  lemma LineFeedMoves(z: Size, s: Screen)
    requires Good(z, s) && s.c.parser.mode == Ground
    ensures var t := Feed(z, s, [10]);
      if s.c.cy < z.rows - 1 then t == s.(c := s.c.(cy := s.c.cy + 1))
      else
        && t.c == s.c && |t.lines| == |s.lines| == z.Total()
        && (forall k | 0 <= k < z.Total() - 1 :: t.lines[k] == s.lines[k + 1])
        && t.lines[z.Total() - 1] == BlankLine(z.cols)
  {
    hide Feed;
    OneByte(z, s, 10);
  }

  /** A tab goes to the next column that is a multiple of eight, or, with none left, to the start of the next line. */
  lemma TabMoves(z: Size, s: Screen) returns (x: int)
    requires Good(z, s) && s.c.parser.mode == Ground
    ensures s.c.cx < x <= s.c.cx + 8 && x % 8 == 0
    ensures Feed(z, s, [9]) == if x < z.cols then s.(c := s.c.(cx := x)) else Feed(z, Feed(z, s, [13]), [10])
  {
    hide Feed, LineFeed;
    x := NextTab(s.c.cx);
    OneByte(z, s, 9);
    OneByte(z, s, 13);
    OneByte(z, s.(c := s.c.(cx := 0)), 10);
  }

  /** Every other byte that does not print is passed over. */
  lemma OtherBytes(z: Size, s: Screen, ch: Byte)
    requires Good(z, s) && s.c.parser.mode == Ground && (ch < 32 || ch > 126) && ch !in {8, 9, 10, 13, 27, 127}
    ensures Feed(z, s, [ch]) == s
  {
    OneByte(z, s, ch);
  }

  // ---------------------------------------------------------------------------------------------
  // Text
  // ---------------------------------------------------------------------------------------------

  /** Where a row and a column are on the endless page, counted from the top left cell of the screen as it was. */
  function Place(z: Size, row: int, col: int): int {
    row * z.cols + col
  }

  /**
    The cell in line `k` and column `j` after `n` lines have scrolled off: a character of the text, or the cell that
    has moved there, or a new blank one.
   */
  function Flown(z: Size, s: Screen, text: seq<Byte>, n: nat, k: nat, j: nat): Cell
    requires Rectangular(z, s.lines) && k < z.Total() && j < z.cols
  {
    var at := Place(z, k + n - z.back, j) - Place(z, s.c.cy, s.c.cx);
    if 0 <= at < |text| then Cell(text[at], s.c.pen)
    else if k + n < z.Total() then s.lines[k + n][j]
    else Cell(32, PLAIN)
  }

  ghost predicate Flowed(z: Size, s: Screen, text: seq<Byte>, n: nat, t: Screen)
    requires Good(z, s) && Good(z, t)
  {
    && t.c == s.c.(cx := t.c.cx, cy := t.c.cy)
    && Place(z, t.c.cy + n, t.c.cx) == Place(z, s.c.cy, s.c.cx) + |text|
    && (n > 0 ==> t.c.cy == z.rows - 1)
    && forall k, j | 0 <= k < z.Total() && 0 <= j < z.cols :: t.lines[k][j] == Flown(z, s, text, n, k, j)
  }

  lemma OnePlace(z: Size, a: int, x: int, b: int, y: int)
    requires 0 <= x < z.cols && 0 <= y < z.cols
    ensures Place(z, a, x) == Place(z, b, y) <==> a == b && x == y
  {
    if a < b {
      assert a * z.cols + z.cols <= b * z.cols by { Scaled(a + 1, b, z.cols); }
    } else if b < a {
      assert b * z.cols + z.cols <= a * z.cols by { Scaled(b + 1, a, z.cols); }
    }
  }

  lemma Scaled(a: int, b: int, c: nat)
    requires a <= b
    ensures a * c <= b * c && (a - 1) * c + c == a * c
  {
  }

  /** One more character lands in the cell where the cursor is, and every other cell is as before. */
  lemma PutFlows(z: Size, s: Screen, text: seq<Byte>, n: nat, t: Screen, ch: Byte)
    requires Good(z, s) && Good(z, t) && Flowed(z, s, text, n, t)
    ensures var lines := WithCell(z, t.lines, t.c.cy, t.c.cx, Cell(ch, t.c.pen));
      && Rectangular(z, lines)
      && forall k, j | 0 <= k < z.Total() && 0 <= j < z.cols :: lines[k][j] == Flown(z, s, text + [ch], n, k, j)
  {
    var lines := WithCell(z, t.lines, t.c.cy, t.c.cx, Cell(ch, t.c.pen));
    WithCellKeeps(z, t, Cell(ch, t.c.pen));
    forall k, j | 0 <= k < z.Total() && 0 <= j < z.cols
      ensures lines[k][j] == Flown(z, s, text + [ch], n, k, j)
    {
      OnePlace(z, k + n - z.back, j, t.c.cy + n, t.c.cx);
      assert t.lines[k][j] == Flown(z, s, text, n, k, j);
    }
  }

  /** The cell that a scroll brings in at the bottom lies behind all of the text. */
  lemma ScrollFlows(z: Size, s: Screen, text: seq<Byte>, n: nat, lines: seq<Line>)
    requires Good(z, s) && Rectangular(z, lines)
    requires Place(z, z.rows + n, 0) == Place(z, s.c.cy, s.c.cx) + |text|
    requires forall k, j | 0 <= k < z.Total() && 0 <= j < z.cols :: lines[k][j] == Flown(z, s, text, n, k, j)
    ensures var up := Scrolled(lines, z.cols);
      && Rectangular(z, up)
      && forall k, j | 0 <= k < z.Total() && 0 <= j < z.cols :: up[k][j] == Flown(z, s, text, n + 1, k, j)
  {
    var up := Scrolled(lines, z.cols);
    forall k, j | 0 <= k < z.Total() && 0 <= j < z.cols ensures up[k][j] == Flown(z, s, text, n + 1, k, j) {
      assert k + (n + 1) - z.back == (k + 1) + n - z.back;
      if k + 1 < z.Total() {
        assert up[k][j] == lines[k + 1][j] == Flown(z, s, text, n, k + 1, j);
      }
    }
  }

  /** One more character. */
  lemma CharacterFlows(z: Size, s: Screen, text: seq<Byte>, n: nat, t: Screen, ch: Byte) returns (m: nat)
    requires Good(z, s) && Good(z, t) && Flowed(z, s, text, n, t) && t.c.parser.mode == Ground && 32 <= ch <= 126
    ensures Good(z, Step(z, t, ch)) && Flowed(z, s, text + [ch], m, Step(z, t, ch))
    ensures m == n + if t.c.cy == z.rows - 1 && t.c.cx == z.cols - 1 then 1 else 0
  {
    hide Flown;
    StepKeeps(z, t, ch);
    PutFlows(z, s, text, n, t, ch);
    var u := t.(lines := WithCell(z, t.lines, t.c.cy, t.c.cx, Cell(ch, t.c.pen)));
    m := n;
    assert Step(z, t, ch) == MoveRight(z, u, t.c.cx + 1);
    if t.c.cx + 1 == z.cols {
      Scaled(t.c.cy + n + 1, t.c.cy + n + 1, z.cols);
      assert Place(z, t.c.cy + n + 1, 0) == Place(z, s.c.cy, s.c.cx) + |text + [ch]|;
      if t.c.cy == z.rows - 1 {
        ScrollFlows(z, s, text + [ch], n, u.lines);
        m := n + 1;
      }
    }
  }

  /**
    Text of any length, from anywhere: its characters follow one another over the page, what has scrolled is the page's
    first `n` lines, and the cursor is behind the last character.
   */
  lemma {:induction false} TextFlows(z: Size, s: Screen, text: seq<Byte>) returns (n: nat)
    requires Good(z, s) && s.c.parser.mode == Ground && Printable(text)
    ensures Flowed(z, s, text, n, Feed(z, s, text))
    decreases |text|
  {
    if text == [] {
      n := 0;
      forall k, j | 0 <= k < z.Total() && 0 <= j < z.cols ensures s.lines[k][j] == Flown(z, s, text, 0, k, j) {
      }
    } else {
      hide Flowed, Step, Good;
      var last := |text| - 1;
      var front := text[..last];
      n := TextFlows(z, s, front);
      FeedSplit(z, s, front, [text[last]]);
      assert text == front + [text[last]];
      var t := Feed(z, s, front);
      OneByte(z, t, text[last]);
      FlowedMode(z, s, front, n, t);
      n := CharacterFlows(z, s, front, n, t, text[last]);
    }
  }

  lemma FlowedMode(z: Size, s: Screen, text: seq<Byte>, n: nat, t: Screen)
    requires Good(z, s) && Good(z, t) && Flowed(z, s, text, n, t)
    ensures t.c.parser == s.c.parser
  {
  }

  // ---------------------------------------------------------------------------------------------
  // Operating system commands
  // ---------------------------------------------------------------------------------------------

  /** A command with its terminator: the string terminator ESC \, or BEL. */
  function Command(body: seq<Byte>, st: bool): seq<Byte> {
    [ESC, 0x5d] + (body + if st then [ESC, 0x5c] else [BEL])
  }

  predicate CommandBytes(body: seq<Byte>) {
    forall i | 0 <= i < |body| :: body[i] != ESC && body[i] != BEL
  }

  function Clipped(body: seq<Byte>): seq<Byte> {
    if |body| <= 63 then body else body[..63]
  }

  lemma {:induction false} CommandCollected(z: Size, s: Screen, had: seq<Byte>, body: seq<Byte>)
    requires Good(z, s) && s.c.parser.mode == Osc && s.c.parser.osc == Clipped(had) && CommandBytes(body)
    ensures Feed(z, s, body) == s.(c := s.c.(parser := s.c.parser.(osc := Clipped(had + body))))
    decreases |body|
  {
    if body == [] {
      assert had + body == had;
    } else {
      StepKeeps(z, s, body[0]);
      assert had + [body[0]] + body[1..] == had + body;
      CommandCollected(z, Step(z, s, body[0]), had + [body[0]], body[1..]);
    }
  }

  /** The command is 777;admin; and something behind it. */
  predicate AdminCommand(body: seq<Byte>) {
    |body| >= 10 && forall i | 0 <= i < 10 :: body[i] == "777;admin;"[i] as int
  }

  lemma AdminPrefix(body: seq<Byte>)
    ensures |body| >= 10 ==> (body[..10] == ADMIN <==> AdminCommand(body))
  {
    if |body| >= 10 && body[..10] == ADMIN {
      assert forall i | 0 <= i < 10 :: body[i] == body[..10][i];
    }
  }

  lemma CommandDone(c: Control, body: seq<Byte>)
    requires c.parser.osc == Clipped(body)
    ensures var d := OscDone(c);
      && d == c.(admin := d.admin, changed := d.changed)
      && d.admin == (if AdminCommand(body) then |body| > 10 && body[10] != '0' as int && body[10] != 0 else c.admin)
      && d.changed == (c.changed || d.admin != c.admin)
  {
    var o := Clipped(body);
    AdminPrefix(o);
    assert AdminCommand(o) == AdminCommand(body);
  }

  /**
    A whole command, of any length: 777;admin; turns the mark on, or off before a 0, and every other command changes
    nothing; the change is reported exactly when there is one.
   */
  lemma CommandActs(z: Size, s: Screen, body: seq<Byte>, st: bool)
    requires Good(z, s) && s.c.parser.mode == Ground && CommandBytes(body)
    ensures var t := Feed(z, s, Command(body, st));
      && t.lines == s.lines && AtRest(s.c.(admin := t.c.admin, changed := t.c.changed), t.c)
      && t.c.admin == (if AdminCommand(body) then |body| > 10 && body[10] != '0' as int && body[10] != 0 else s.c.admin)
      && t.c.changed == (s.c.changed || t.c.admin != s.c.admin)
  {
    var end := if st then [ESC, 0x5c] else [BEL];
    var u := CommandBegun(z, s, body + end);
    FeedSplit(z, u, body, end);
    CommandCollected(z, u, [], body);
    assert [] + body == body;
    var v := Feed(z, u, body);
    hide OscDone;
    CommandDone(v.c, body);
    StepKeeps(z, v, end[0]);
    if st {
      assert end[1..] == [0x5c];
      CommandDone(Step(z, v, ESC).c, body);
      OneByte(z, Step(z, v, ESC), 0x5c);
    } else {
      OneByte(z, v, BEL);
    }
  }

  lemma CommandBegun(z: Size, s: Screen, rest: seq<Byte>) returns (u: Screen)
    requires Good(z, s) && s.c.parser.mode == Ground
    ensures Good(z, u) && Quiet(s, u) && u.c.parser.mode == Osc && u.c.parser.osc == []
    ensures Feed(z, s, [ESC, 0x5d] + rest) == Feed(z, u, rest)
  {
    var t := Step(z, s, ESC);
    StepKeeps(z, s, ESC);
    u := Step(z, t, 0x5d);
    StepKeeps(z, t, 0x5d);
    var data := [ESC, 0x5d] + rest;
    assert Feed(z, s, data) == Feed(z, t, data[1..]) == Feed(z, u, data[1..][1..]);
    assert data[1..][1..] == rest;
  }

  // ---------------------------------------------------------------------------------------------
  // Sequences that break off
  // ---------------------------------------------------------------------------------------------

  /** ESC with anything but [ or ] behind it is dropped, and that byte with it. */
  lemma EscapeDropped(z: Size, s: Screen, ch: Byte)
    requires Good(z, s) && s.c.parser.mode == Ground && ch != 0x5b && ch != 0x5d
    ensures Feed(z, s, [ESC, ch]) == s
  {
    StepKeeps(z, s, ESC);
    assert [ESC, ch][1..] == [ch];
    OneByte(z, Step(z, s, ESC), ch);
  }

  /** A byte that has no place in a control sequence ends it without effect, and is dropped with it. */
  lemma SequenceDropped(z: Size, s: Screen, fs: seq<seq<Byte>>, ch: Byte)
    requires Good(z, s) && s.c.parser.mode == Ground && fs != [] && Fields(fs)
    requires !Final(ch) && !(0x30 <= ch <= 0x39) && ch != 0x3b && ch != 0x3f
    ensures var t := Feed(z, s, Introducer(false) + Joined(fs) + [ch]); t.lines == s.lines && AtRest(s.c, t.c)
  {
    var start := Introducer(false) + Joined(fs);
    hide Introducer, Joined;
    ParametersRead(z, s, fs, false);
    FeedSplit(z, s, start, [ch]);
    OneByte(z, Feed(z, s, start), ch);
  }

  /** A command in which ESC is not followed by \ does nothing. */
  lemma CommandDropped(z: Size, s: Screen, body: seq<Byte>, ch: Byte)
    requires Good(z, s) && s.c.parser.mode == Ground && CommandBytes(body) && ch != 0x5c
    ensures var t := Feed(z, s, [ESC, 0x5d] + (body + [ESC, ch])); t.lines == s.lines && AtRest(s.c, t.c)
  {
    var u := CommandBegun(z, s, body + [ESC, ch]);
    FeedSplit(z, u, body, [ESC, ch]);
    CommandCollected(z, u, [], body);
    var v := Feed(z, u, body);
    StepKeeps(z, v, ESC);
    assert [ESC, ch][1..] == [ch];
    OneByte(z, Step(z, v, ESC), ch);
  }
}
