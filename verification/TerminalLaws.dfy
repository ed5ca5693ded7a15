/**
  What holds of the terminal over any output: history only moves, typed text appears where the cursor is, and
  which parameters a control sequence (ECMA-48 section 5.4) delivers.
 */
module TerminalLaws {
  import opened Common
  import opened TerminalSpec

  // ---------------------------------------------------------------------------------------------
  // History
  // ---------------------------------------------------------------------------------------------

  /** How many lines a buffer of output scrolls by. */
  function ScrollCount(z: Size, s: Screen, data: seq<Byte>): nat
    requires Good(z, s)
    decreases |data|
  {
    if data == [] then 0
    else
      StepKeeps(z, s, data[0]);
      (if Scrolls(z, s.c, data[0]) then 1 else 0) + ScrollCount(z, Step(z, s, data[0]), data[1..])
  }

  /** The lines of `before` that were history moved up by `n`; those that fell off the top are gone. */
  ghost predicate Moved(z: Size, before: seq<Line>, after: seq<Line>, n: nat)
  {
    |before| == |after| >= z.back && forall j | 0 <= j && j + n < z.back :: after[j] == before[j + n]
  }

  lemma MoveRightMoves(z: Size, s: Screen, x: nat)
    requires Good(z, s)
    ensures Good(z, MoveRight(z, s, x)) && Good(z, LineFeed(z, s))
    ensures Moved(z, s.lines, LineFeed(z, s).lines, if s.c.cy + 1 >= z.rows then 1 else 0)
    ensures Moved(z, s.lines, MoveRight(z, s, x).lines, if s.c.cy + 1 >= z.rows && x >= z.cols then 1 else 0)
  {
    MoveRightKeeps(z, s, x);
  }

  lemma PutMoves(z: Size, s: Screen, cell: Cell)
    requires Good(z, s)
    ensures var t := s.(lines := WithCell(z, s.lines, s.c.cy, s.c.cx, cell));
      Good(z, t) && Moved(z, s.lines, t.lines, 0)
  {
    WithCellKeeps(z, s, cell);
  }

  lemma Unmoved(z: Size, s: Screen)
    requires Good(z, s)
    ensures Moved(z, s.lines, s.lines, 0)
  {
  }

  lemma MovedTwice(z: Size, a: seq<Line>, b: seq<Line>, c: seq<Line>, n: nat)
    requires Moved(z, a, b, 0) && Moved(z, b, c, n)
    ensures Moved(z, a, c, n)
  {
  }

  lemma GroundMoves(z: Size, s: Screen, ch: Byte)
    requires Good(z, s) && s.c.parser.mode == Ground
    ensures Moved(z, s.lines, GroundByte(z, s, ch).lines, if Scrolls(z, s.c, ch) then 1 else 0)
  {
    hide MoveRight, LineFeed, WithCell, NextTab, Moved;
    Unmoved(z, s);
    if ch == 10 {
      MoveRightMoves(z, s, 0);
    } else if ch == 9 {
      MoveRightMoves(z, s, NextTab(s.c.cx));
    } else if 32 <= ch <= 126 {
      var t := s.(lines := WithCell(z, s.lines, s.c.cy, s.c.cx, Cell(ch, s.c.pen)));
      PutMoves(z, s, Cell(ch, s.c.pen));
      MoveRightMoves(z, t, s.c.cx + 1);
      MovedTwice(z, s.lines, t.lines, MoveRight(z, t, s.c.cx + 1).lines, if Scrolls(z, s.c, ch) then 1 else 0);
    }
  }

  lemma ErasedMoves(z: Size, lines: seq<Line>, e: Region)
    requires Rectangular(z, lines)
    ensures Rectangular(z, Erased(z, lines, e)) && Moved(z, lines, Erased(z, lines, e), 0)
  {
    forall k | 0 <= k < z.back ensures Erased(z, lines, e)[k] == lines[k] {
      assert BlankIn(lines[k], e, k - z.back) == lines[k];
    }
  }

  lemma StepMoves(z: Size, s: Screen, ch: Byte)
    requires Good(z, s)
    ensures Good(z, Step(z, s, ch))
    ensures Moved(z, s.lines, Step(z, s, ch).lines, if Scrolls(z, s.c, ch) then 1 else 0)
  {
    StepKeeps(z, s, ch);
    hide GroundByte, ParserByte, CsiControl, CsiRegion;
    if s.c.parser.mode == Ground {
      GroundMoves(z, s, ch);
    } else if s.c.parser.mode == Csi && Final(ch) {
      ErasedMoves(z, s.lines, CsiRegion(s.c, ch));
    }
  }

  /** Whatever the output, history is never written: it only moves up, by one line for each scroll. */
  lemma {:induction false} HistoryOnlyMoves(z: Size, s: Screen, data: seq<Byte>)
    requires Good(z, s)
    ensures Moved(z, s.lines, Feed(z, s, data).lines, ScrollCount(z, s, data))
    decreases |data|
  {
    hide Step, Good, Scrolls;
    Unmoved(z, s);
    if data != [] {
      StepMoves(z, s, data[0]);
      HistoryOnlyMoves(z, Step(z, s, data[0]), data[1..]);
    }
  }

  // ---------------------------------------------------------------------------------------------
  // Text
  // ---------------------------------------------------------------------------------------------

  predicate Printable(text: seq<Byte>) {
    forall i | 0 <= i < |text| :: 32 <= text[i] <= 126
  }

  /** A line with the text written over it from a column on. */
  function Written(l: Line, at: nat, text: seq<Byte>, pen: Pen): (m: Line)
    requires at + |text| <= |l|
    ensures |m| == |l|
    ensures forall j | 0 <= j < |l| :: m[j] == if at <= j < at + |text| then Cell(text[j - at], pen) else l[j]
  {
    seq(|l|, j requires 0 <= j < |l| => if at <= j < at + |text| then Cell(text[j - at], pen) else l[j])
  }

  /** Text that fits appears at the cursor in the pen's colours, and nothing else on the screen changes. */
  lemma {:induction false} TextAppears(z: Size, s: Screen, text: seq<Byte>)
    requires Good(z, s) && s.c.parser.mode == Ground && Printable(text) && s.c.cx + |text| < z.cols
    ensures Feed(z, s, text) == Screen(s.c.(cx := s.c.cx + |text|),
      s.lines[z.back + s.c.cy := Written(s.lines[z.back + s.c.cy], s.c.cx, text, s.c.pen)])
    decreases |text|
  {
    var k, at, pen := z.back + s.c.cy, s.c.cx, s.c.pen;
    if text == [] {
      assert Written(s.lines[k], at, text, pen) == s.lines[k];
    } else {
      var t := Step(z, s, text[0]);
      StepKeeps(z, s, text[0]);
      assert t == Screen(s.c.(cx := at + 1), s.lines[k := s.lines[k][at := Cell(text[0], pen)]]);
      TextAppears(z, t, text[1..]);
      assert Written(t.lines[k], at + 1, text[1..], pen) == Written(s.lines[k], at, text, pen);
    }
  }

  // ---------------------------------------------------------------------------------------------
  // Parameters
  // ---------------------------------------------------------------------------------------------

  predicate Digits(ds: seq<Byte>) {
    forall i | 0 <= i < |ds| :: 0x30 <= ds[i] <= 0x39
  }

  function Value(ds: seq<Byte>, acc: nat): nat
    requires Digits(ds)
  {
    if ds == [] then acc else Value(ds[1..], acc * 10 + (ds[0] - 0x30))
  }

  predicate Fields(fs: seq<seq<Byte>>) {
    forall i | 0 <= i < |fs| :: Digits(fs[i])
  }

  function Values(fs: seq<seq<Byte>>): (vs: seq<nat>)
    requires Fields(fs)
    ensures |vs| == |fs|
  {
    seq(|fs|, i requires 0 <= i < |fs| => Value(fs[i], 0))
  }

  /** The fields with a semicolon between them. */
  function Joined(fs: seq<seq<Byte>>): seq<Byte>
    requires fs != []
  {
    if |fs| == 1 then fs[0] else fs[0] + [0x3b] + Joined(fs[1..])
  }

  /** The parameters that arrive: an empty first field leaves none. */
  function Kept(fs: seq<seq<Byte>>): seq<seq<Byte>>
    requires fs != []
  {
    if fs[0] == [] then fs[1..] else fs
  }

  /** In a control sequence with these parameters so far. */
  ghost predicate Holds(c: Control, vs: seq<nat>) {
    && c.parser.mode == Csi && |c.parser.params| == 8 && c.parser.count == |vs| <= 8
    && c.parser.params[..|vs|] == vs
  }

  /** Only the parser has moved. */
  ghost predicate Quiet(s: Screen, u: Screen) {
    u == s.(c := s.c.(parser := u.c.parser))
  }

  lemma {:induction false} FeedSplit(z: Size, s: Screen, a: seq<Byte>, b: seq<Byte>)
    requires Good(z, s)
    ensures Feed(z, s, a + b) == Feed(z, Feed(z, s, a), b)
    decreases |a|
  {
    hide Step, Good;
    if a == [] {
      assert a + b == b;
    } else {
      StepKeeps(z, s, a[0]);
      assert (a + b)[1..] == a[1..] + b && (a + b)[0] == a[0];
      FeedSplit(z, Step(z, s, a[0]), a[1..], b);
    }
  }

  lemma {:induction false} FieldRead(z: Size, s: Screen, ds: seq<Byte>, done: seq<nat>, v: nat)
    requires Good(z, s) && Digits(ds) && Holds(s.c, done + [v])
    ensures Holds(Feed(z, s, ds).c, done + [Value(ds, v)]) && Quiet(s, Feed(z, s, ds))
    decreases |ds|
  {
    if ds != [] {
      var t := Step(z, s, ds[0]);
      StepKeeps(z, s, ds[0]);
      assert s.c.parser.params[..|done| + 1][|done|] == v;
      assert t.c.parser.params[..|done| + 1] == done + [v * 10 + (ds[0] - 0x30)] by {
        assert done == s.c.parser.params[..|done| + 1][..|done|];
      }
      FieldRead(z, t, ds[1..], done, v * 10 + (ds[0] - 0x30));
    }
  }

  lemma SeparatorRead(z: Size, s: Screen, vs: seq<nat>)
    requires Good(z, s) && Holds(s.c, vs) && |vs| < 8
    ensures Good(z, Step(z, s, 0x3b)) && Holds(Step(z, s, 0x3b).c, vs + [0]) && Quiet(s, Step(z, s, 0x3b))
  {
    StepKeeps(z, s, 0x3b);
  }

  /** All the digits, run together. */
  function Flat(fs: seq<seq<Byte>>): (ds: seq<Byte>)
    requires Fields(fs)
    ensures Digits(ds)
  {
    if fs == [] then [] else fs[0] + Flat(fs[1..])
  }

  /** The values of the fields where there is room for them; the last place takes all further digits. */
  function Taken(fs: seq<seq<Byte>>, room: nat): (vs: seq<nat>)
    requires fs != [] && Fields(fs) && room > 0
    ensures 0 < |vs| <= room && |vs| <= |fs| && (|fs| <= room ==> |vs| == |fs|)
  {
    if room == 1 then [Value(Flat(fs), 0)]
    else if |fs| == 1 then [Value(fs[0], 0)]
    else [Value(fs[0], 0)] + Taken(fs[1..], room - 1)
  }

  lemma {:induction false} TakenAll(fs: seq<seq<Byte>>, room: nat)
    requires fs != [] && Fields(fs) && |fs| <= room
    ensures Taken(fs, room) == Values(fs)
    decreases room
  {
    if |fs| == 1 {
      assert Flat(fs[1..]) == [] && fs[0] + [] == fs[0];
    } else {
      TakenAll(fs[1..], room - 1);
    }
  }

  lemma {:induction false} ValueJoined(a: seq<Byte>, b: seq<Byte>, v: nat)
    requires Digits(a) && Digits(b)
    ensures Digits(a + b) && Value(a + b, v) == Value(b, Value(a, v))
    decreases |a|
  {
    if a == [] {
      assert a + b == b;
    } else {
      assert (a + b)[1..] == a[1..] + b;
      ValueJoined(a[1..], b, v * 10 + (a[0] - 0x30));
    }
  }

  /** In the eighth parameter a semicolon is passed over. */
  lemma SeparatorIgnored(z: Size, s: Screen, vs: seq<nat>)
    requires Good(z, s) && Holds(s.c, vs) && |vs| == 8
    ensures Step(z, s, 0x3b) == s
  {
  }

  lemma {:induction false} LastRead(z: Size, s: Screen, fs: seq<seq<Byte>>, done: seq<nat>, v: nat)
    requires Good(z, s) && fs != [] && Fields(fs) && |done| == 7 && Holds(s.c, done + [v])
    ensures Holds(Feed(z, s, Joined(fs)).c, done + [Value(Flat(fs), v)]) && Quiet(s, Feed(z, s, Joined(fs)))
    decreases |fs|
  {
    hide Step, Good, Holds;
    FieldRead(z, s, fs[0], done, v);
    ValueJoined(fs[0], Flat(fs[1..]), v);
    var t := Feed(z, s, fs[0]);
    if |fs| == 1 {
      assert Flat(fs[1..]) == [] && fs[0] + [] == fs[0];
    } else {
      var rest := [0x3b] + Joined(fs[1..]);
      assert Joined(fs) == fs[0] + rest;
      FeedSplit(z, s, fs[0], rest);
      SeparatorIgnored(z, t, done + [Value(fs[0], v)]);
      assert rest[1..] == Joined(fs[1..]) && rest[0] == 0x3b;
      LastRead(z, t, fs[1..], done, Value(fs[0], v));
    }
  }

  lemma {:induction false} FieldsRead(z: Size, s: Screen, fs: seq<seq<Byte>>, done: seq<nat>)
    requires Good(z, s) && fs != [] && Fields(fs) && |done| < 8 && Holds(s.c, done + [0])
    ensures Holds(Feed(z, s, Joined(fs)).c, done + Taken(fs, 8 - |done|)) && Quiet(s, Feed(z, s, Joined(fs)))
    decreases |fs|
  {
    hide Step, Good, Holds;
    if |done| == 7 {
      LastRead(z, s, fs, done, 0);
    } else {
      FieldRead(z, s, fs[0], done, 0);
      var t := Feed(z, s, fs[0]);
      var one := done + [Value(fs[0], 0)];
      if |fs| > 1 {
        var rest := [0x3b] + Joined(fs[1..]);
        assert Joined(fs) == fs[0] + rest;
        FeedSplit(z, s, fs[0], rest);
        SeparatorRead(z, t, one);
        assert rest[1..] == Joined(fs[1..]) && rest[0] == 0x3b;
        FieldsRead(z, Step(z, t, 0x3b), fs[1..], one);
        assert one + Taken(fs[1..], 7 - |done|) == done + Taken(fs, 8 - |done|);
      }
    }
  }

  /** The first digit opens the first parameter. */
  lemma FirstDigit(z: Size, s: Screen, data: seq<Byte>)
    requires Good(z, s) && Holds(s.c, []) && s.c.parser.params[0] == 0 && data != [] && 0x30 <= data[0] <= 0x39
    ensures var o := s.(c := s.c.(parser := s.c.parser.(count := 1)));
      Good(z, o) && Holds(o.c, [0]) && Feed(z, s, data) == Feed(z, o, data)
  {
    var o := s.(c := s.c.(parser := s.c.parser.(count := 1)));
    assert o.c.parser.params[..1] == [0];
    assert Step(z, s, data[0]) == Step(z, o, data[0]);
  }

  lemma JoinedStart(fs: seq<seq<Byte>>)
    requires fs != [] && fs[0] != []
    ensures Joined(fs) != [] && Joined(fs)[0] == fs[0][0]
  {
  }

  /**
    The parameters that arrive: none for an empty first field, and from the eighth on all the digits in one.
   */
  function Arrived(fs: seq<seq<Byte>>): (vs: seq<nat>)
    requires fs != [] && Fields(fs)
    ensures |vs| <= 8
  {
    if Kept(fs) == [] then [] else Taken(Kept(fs), 8)
  }

  /** The introducer, with or without the private mark behind it. */
  function Introducer(priv: bool): seq<Byte> {
    if priv then [ESC, 0x5b, 0x3f] else [ESC, 0x5b]
  }

  lemma Introduced(z: Size, s: Screen, priv: bool, rest: seq<Byte>) returns (u: Screen)
    requires Good(z, s) && s.c.parser.mode == Ground
    ensures Good(z, u) && Quiet(s, u) && Holds(u.c, []) && u.c.parser.params[0] == 0 && u.c.parser.priv == priv
    ensures Feed(z, s, Introducer(priv) + rest) == Feed(z, u, rest)
  {
    var t := Step(z, s, ESC);
    StepKeeps(z, s, ESC);
    u := Step(z, t, 0x5b);
    StepKeeps(z, t, 0x5b);
    var data := Introducer(priv) + rest;
    assert Feed(z, s, data) == Feed(z, t, data[1..]) == Feed(z, u, data[1..][1..]);
    if priv {
      assert data[1..][1..] == [0x3f] + rest && ([0x3f] + rest)[1..] == rest;
      u := Step(z, u, 0x3f);
    } else {
      assert data[1..][1..] == rest;
    }
  }

  /** Parameter bytes leave the mark of a private sequence alone. */
  lemma {:induction false} MarkKept(z: Size, s: Screen, data: seq<Byte>)
    requires Good(z, s) && s.c.parser.mode == Csi
    requires forall i | 0 <= i < |data| :: 0x30 <= data[i] <= 0x39 || data[i] == 0x3b
    ensures Feed(z, s, data).c.parser.priv == s.c.parser.priv
    decreases |data|
  {
    if data != [] {
      StepKeeps(z, s, data[0]);
      MarkKept(z, Step(z, s, data[0]), data[1..]);
    }
  }

  lemma {:induction false} JoinedBytes(fs: seq<seq<Byte>>)
    requires fs != [] && Fields(fs)
    ensures forall i | 0 <= i < |Joined(fs)| :: 0x30 <= Joined(fs)[i] <= 0x39 || Joined(fs)[i] == 0x3b
    decreases |fs|
  {
    assert Digits(fs[0]);
    if |fs| > 1 {
      JoinedBytes(fs[1..]);
    }
  }

  /** The parameters of any sequence that has been introduced, however many there are. */
  lemma ParametersFollow(z: Size, u: Screen, fs: seq<seq<Byte>>)
    requires Good(z, u) && Holds(u.c, []) && u.c.parser.params[0] == 0 && fs != [] && Fields(fs)
    ensures var v := Feed(z, u, Joined(fs));
      Holds(v.c, Arrived(fs)) && Quiet(u, v) && v.c.parser.priv == u.c.parser.priv
  {
    hide Taken, Step;
    JoinedBytes(fs);
    MarkKept(z, u, Joined(fs));
    if fs[0] != [] {
      JoinedStart(fs);
      FirstDigit(z, u, Joined(fs));
      FieldsRead(z, u.(c := u.c.(parser := u.c.parser.(count := 1))), fs, []);
      assert [] + Taken(fs, 8) == Taken(fs, 8);
    } else if |fs| > 1 {
      var rest := [0x3b] + Joined(fs[1..]);
      assert Joined(fs) == rest;
      SeparatorRead(z, u, []);
      assert rest[1..] == Joined(fs[1..]);
      FieldsRead(z, Step(z, u, 0x3b), fs[1..], []);
      assert [] + Taken(fs[1..], 8) == Taken(fs[1..], 8);
    }
  }

  /** The text of any control sequence, however many parameters it has, from its introducer on. */
  lemma ParametersRead(z: Size, s: Screen, fs: seq<seq<Byte>>, priv: bool)
    requires Good(z, s) && s.c.parser.mode == Ground && fs != [] && Fields(fs)
    ensures var u := Feed(z, s, Introducer(priv) + Joined(fs));
      Holds(u.c, Arrived(fs)) && Quiet(s, u) && u.c.parser.priv == priv
  {
    hide Step, Good, Holds, Arrived, Feed;
    var u := Introduced(z, s, priv, Joined(fs));
    ParametersFollow(z, u, fs);
  }

  /** Every parameter arrives in its place exactly when the first one is written out and there are at most eight. */
  lemma ParametersRight(z: Size, s: Screen, fs: seq<seq<Byte>>)
    requires Good(z, s) && s.c.parser.mode == Ground && fs != [] && Fields(fs)
    ensures Holds(Feed(z, s, Introducer(false) + Joined(fs)).c, Values(fs)) <==> fs[0] != [] && |fs| <= 8
  {
    hide Feed, Good, Taken, Introducer;
    ParametersRead(z, s, fs, false);
    if fs[0] != [] && |fs| <= 8 {
      TakenAll(fs, 8);
    }
  }

  // ---------------------------------------------------------------------------------------------
  // Control sequences
  // ---------------------------------------------------------------------------------------------

  /** A control sequence as it is sent. */
  function Sequence(fs: seq<seq<Byte>>, final: Byte): seq<Byte>
    requires fs != []
  {
    Introducer(false) + Joined(fs) + [final]
  }

  /** And one with the private mark. */
  function PrivateSequence(fs: seq<seq<Byte>>, final: Byte): seq<Byte>
    requires fs != []
  {
    Introducer(true) + Joined(fs) + [final]
  }

  /** A whole control sequence acts once, with the parameters that arrived, and leaves the parser at rest. */
  lemma SequenceActs(z: Size, s: Screen, fs: seq<seq<Byte>>, final: Byte) returns (u: Screen)
    requires Good(z, s) && s.c.parser.mode == Ground && fs != [] && Fields(fs) && Final(final)
    ensures Good(z, u) && Quiet(s, u) && Holds(u.c, Arrived(fs)) && !u.c.parser.priv
    ensures Feed(z, s, Sequence(fs, final)) == Step(z, u, final)
  {
    u := MarkedActs(z, s, fs, final, false);
  }

  lemma MarkedActs(z: Size, s: Screen, fs: seq<seq<Byte>>, final: Byte, priv: bool) returns (u: Screen)
    requires Good(z, s) && s.c.parser.mode == Ground && fs != [] && Fields(fs) && Final(final)
    ensures Good(z, u) && Quiet(s, u) && Holds(u.c, Arrived(fs)) && u.c.parser.priv == priv
    ensures Feed(z, s, Introducer(priv) + Joined(fs) + [final]) == Step(z, u, final)
  {
    hide Step, Good, Holds, Introducer, Joined;
    var start := Introducer(priv) + Joined(fs);
    u := Feed(z, s, start);
    ParametersRead(z, s, fs, priv);
    FeedSplit(z, s, start, [final]);
    assert [final][1..] == [];
    StepKeeps(z, u, final);
  }

  /** Row and column, both written out, put the cursor there, as far as the screen goes; nothing is drawn. */
  lemma CursorAddressed(z: Size, s: Screen, row: seq<Byte>, col: seq<Byte>)
    requires Good(z, s) && s.c.parser.mode == Ground && Digits(row) && Digits(col) && row != []
    ensures var t := Feed(z, s, Sequence([row, col], 0x48));
      && t.lines == s.lines && t.c.parser.mode == Ground && t.c.pen == s.c.pen
      && t.c.cy == Min(Max(Value(row, 0), 1), z.rows) - 1 && t.c.cx == Min(Max(Value(col, 0), 1), z.cols) - 1
  {
    var fs := [row, col];
    assert Fields(fs);
    var u := SequenceActs(z, s, fs, 0x48);
    TakenAll(fs, 8);
    var vs := Values(fs);
    assert u.c.parser.params[..2][0] == vs[0] && u.c.parser.params[..2][1] == vs[1];
    ErasedNowhere(z, u.lines);
  }

  /** With the row left empty, the column is taken for it. */
  lemma RowLost(z: Size, s: Screen, col: seq<Byte>)
    requires Good(z, s) && s.c.parser.mode == Ground && Digits(col)
    ensures var t := Feed(z, s, Sequence([[], col], 0x48));
      t.c.cy == Min(Max(Value(col, 0), 1), z.rows) - 1 && t.c.cx == 0
  {
    var fs := [[], col];
    assert Fields(fs) && fs[1..] == [col];
    var u := SequenceActs(z, s, fs, 0x48);
    TakenAll([col], 8);
    assert u.c.parser.params[..1][0] == Value(col, 0);
  }

  /** Clearing the screen blanks every visible line, keeps history and brings the cursor home. */
  lemma ScreenCleared(z: Size, s: Screen)
    requires Good(z, s) && s.c.parser.mode == Ground
    ensures var t := Feed(z, s, Sequence([[0x32]], 0x4a));
      && |t.lines| == |s.lines| && (t.c.cx, t.c.cy) == (0, 0) && t.c.pen == s.c.pen && t.c.parser.mode == Ground
      && (forall k | 0 <= k < z.back :: t.lines[k] == s.lines[k])
      && (forall k | z.back <= k < z.Total() :: t.lines[k] == BlankLine(z.cols))
  {
    var fs: seq<seq<Byte>> := [[0x32]];
    assert Fields(fs);
    var u := SequenceActs(z, s, fs, 0x4a);
    TakenAll(fs, 8);
    assert Value([0x32], 0) == 2;
    assert u.c.parser.params[..1][0] == 2;
    var t := Feed(z, s, Sequence(fs, 0x4a));
    assert t.lines == Erased(z, s.lines, Below(0));
    ErasedMoves(z, s.lines, Below(0));
    forall k | z.back <= k < z.Total() ensures t.lines[k] == BlankLine(z.cols) {
    }
  }

  /** A move out and back returns exactly when the edge did not cut it short or lies at the start. */
  lemma CursorReturns(z: Size, c: Control, n: nat)
    requires 0 <= c.cy < z.rows && 0 <= c.cx < z.cols
    ensures MoveCursor(z, MoveCursor(z, c, 'A', n), 'B', n) == c <==> n <= c.cy || c.cy == z.rows - 1
    ensures MoveCursor(z, MoveCursor(z, c, 'B', n), 'A', n) == c <==> c.cy + n < z.rows || c.cy == 0
    ensures MoveCursor(z, MoveCursor(z, c, 'D', n), 'C', n) == c <==> n <= c.cx || c.cx == z.cols - 1
    ensures MoveCursor(z, MoveCursor(z, c, 'C', n), 'D', n) == c <==> c.cx + n < z.cols || c.cx == 0
  {
    hide *;
    BackAndForth(c.cy, z.rows, n);
    BackAndForth(c.cx, z.cols, n);
    OutAndBack(z, c, n);
  }

  lemma OutAndBack(z: Size, c: Control, n: nat)
    requires 0 <= c.cy < z.rows && 0 <= c.cx < z.cols
    ensures MoveCursor(z, MoveCursor(z, c, 'A', n), 'B', n) == c.(cy := Min(Max(c.cy - n, 0) + n, z.rows - 1))
    ensures MoveCursor(z, MoveCursor(z, c, 'B', n), 'A', n) == c.(cy := Max(Min(c.cy + n, z.rows - 1) - n, 0))
    ensures MoveCursor(z, MoveCursor(z, c, 'D', n), 'C', n) == c.(cx := Min(Max(c.cx - n, 0) + n, z.cols - 1))
    ensures MoveCursor(z, MoveCursor(z, c, 'C', n), 'D', n) == c.(cx := Max(Min(c.cx + n, z.cols - 1) - n, 0))
  {
  }

  lemma BackAndForth(at: nat, size: nat, n: nat)
    requires at < size
    ensures Min(Max(at - n, 0) + n, size - 1) == at <==> n <= at || at == size - 1
    ensures Max(Min(at + n, size - 1) - n, 0) == at <==> at + n < size || at == 0
  {
  }
}
