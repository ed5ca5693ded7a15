/**
  Programs that leave loops and functions in good order. The rules are about the text alone: which commands may
  leave a break, continue or return, and where such a command may stand. A program that keeps them is executed
  as its tree means for every oracle, with nothing run out of turn.
 */
module ShellOrderly {
  import opened ShellSkip
  import opened ShellRun
  import opened ShellGrammar
  import opened ShellHalts
  import opened ShellMeaning
  import opened ShellProof
  import opened ShellCalm

  // ---------------------------------------------------------------------------------------------
  // The rules
  // ---------------------------------------------------------------------------------------------

  /** One of the words break, continue and return is among the tokens. */
  predicate Holds(cmd: seq<Token>) {
    exists k | 0 <= k < |cmd| :: cmd[k] in LEAVING
  }

  /** A single command with such a word, or a compound one that contains it; a child cannot leave anything. */
  predicate LeavingPipeline(p: Pipeline) {
    match p
    case Plain(stages) => stages.Final? && Holds(WriteSimple(stages.s))
    case Compound(c) => LeavingCommand(c)
  }

  predicate LeavingChain(a: AndOr) {
    LeavingPipeline(a.p) || (a.Chain? && LeavingChain(a.rest))
  }

  predicate LeavingList(l: List) {
    match l
    case Empty => false
    case Blank(rest) => LeavingList(rest)
    case Bare(a) => LeavingChain(a)
    case Item(a, _, rest) => LeavingChain(a) || LeavingList(rest)
  }

  predicate LeavingTail(tail: Branches) {
    match tail
    case Fi => false
    case Else(body) => LeavingList(body)
    case When(cond, thn, rest) => LeavingList(cond) || LeavingList(thn) || LeavingTail(rest)
  }

  predicate LeavingArms(arms: Arms) {
    arms.Arm? && (LeavingList(arms.body) || LeavingArms(arms.rest))
  }

  predicate LeavingCommand(c: Command) {
    match c
    case If(branches) => LeavingTail(branches)
    case For(_, _, body) => LeavingList(body)
    case ForParams(_, body) => LeavingList(body)
    case While(_, cond, body) => LeavingList(cond) || LeavingList(body)
    case Case(_, _, arms) => LeavingArms(arms)
    case Brace(body) => LeavingList(body)
    case Subshell(_) => false
    case Function(_, _, _) => false
  }

  predicate OrderlyPipeline(p: Pipeline) {
    p.Compound? ==> OrderlyCommand(p.c)
  }

  /** Only the last pipeline of a chain may leave. */
  predicate OrderlyChain(a: AndOr) {
    OrderlyPipeline(a.p) && (a.Chain? ==> !LeavingPipeline(a.p) && OrderlyChain(a.rest))
  }

  predicate OrderlyList(l: List) {
    match l
    case Empty => true
    case Blank(rest) => OrderlyList(rest)
    case Bare(a) => OrderlyChain(a)
    case Item(a, _, rest) => OrderlyChain(a) && OrderlyList(rest)
  }

  /** No condition leaves. */
  predicate OrderlyTail(tail: Branches) {
    match tail
    case Fi => true
    case Else(body) => OrderlyList(body)
    case When(cond, thn, rest) => !LeavingList(cond) && OrderlyList(cond) && OrderlyList(thn) && OrderlyTail(rest)
  }

  predicate EndsPlain(a: AndOr) {
    if a.Only? then a.p.Plain? else EndsPlain(a.rest)
  }

  predicate NoCommands(l: List) {
    l.Empty? || (l.Blank? && NoCommands(l.rest))
  }

  /** In an arm only the last command may leave, a single one by itself. */
  predicate OrderlyArm(l: List) {
    match l
    case Empty => true
    case Blank(rest) => OrderlyArm(rest)
    case Bare(a) => OrderlyChain(a) && (LeavingChain(a) ==> EndsPlain(a))
    case Item(a, sep, rest) =>
      OrderlyChain(a) && OrderlyArm(rest) && (LeavingChain(a) ==> EndsPlain(a) && sep != Amp && NoCommands(rest))
  }

  predicate OrderlyArms(arms: Arms) {
    arms.Arm? ==> OrderlyArm(arms.body) && OrderlyArms(arms.rest)
  }

  predicate OrderlyCommand(c: Command) {
    match c
    case If(branches) => OrderlyTail(branches)
    case For(_, _, body) => OrderlyList(body)
    case ForParams(_, body) => OrderlyList(body)
    case While(_, cond, body) => !LeavingList(cond) && OrderlyList(cond) && OrderlyList(body)
    case Case(_, _, arms) => OrderlyArms(arms)
    case Brace(body) => OrderlyList(body)
    case Subshell(_) => true
    case Function(_, _, _) => true
  }

  /** Every && and || stands behind a word that is not reserved, a `2>&1` or a subshell. */
  predicate Unjoined(t: seq<Token>) {
    forall k | 0 <= k < |t| && Joins(t[k]) :: k > 0 && Ends(t[k - 1])
  }

  predicate Ends(tok: Token) {
    tok.RParen? || tok.ErrToOut? || (tok.Word? && tok.w.Text?)
  }

  /** The rules for a whole program. */
  predicate Orderly(l: List) {
    OrderlyList(l) && (LeavingList(l) ==> Unjoined(WriteList(l)))
  }

  // ---------------------------------------------------------------------------------------------
  // Where the parser stands
  // ---------------------------------------------------------------------------------------------

  lemma {:induction false} RestStops(o: Oracle, t: seq<Token>, i: nat, run: bool, status: int, s: State)
    requires i <= |t|
    ensures !Joins(At(t, RunAndOrRest(o, t, i, run, status, s).next))
    decreases |t| - i
  {
    hide RunPipeline;
    if Joins(At(t, i)) {
      var doRun := run && (At(t, i) == AndIf <==> status == 0);
      var r := RunPipeline(o, t, SkipNewlines(t, i + 1), doRun, s);
      RestStops(o, t, r.next, run, if doRun then r.status else status, r.s);
    }
  }

  lemma {:induction false} ListStops(o: Oracle, t: seq<Token>, i: nat, run: bool, status: int, s: State)
    requires i <= |t|
    ensures !Joins(At(t, RunListFrom(o, t, i, run, status, s).next))
    decreases |t| - i
  {
    hide RunPipeline, RunAndOrRest, RunListFrom, SkipSeps;
    ListRuns(o, t, i, run, status, s);
    var j := SkipSeps(t, i);
    if !BlockEnd(t, j) {
      var m := RunPipeline(o, t, j, run, s);
      var r := RunAndOr(o, t, j, run, s);
      RestStops(o, t, m.next, run, m.status, m.s);
      if !(r.s.flow != NoFlow || (At(t, r.next) != Amp && BlockEnd(t, r.next))) {
        ListStops(o, t, if At(t, r.next) == Amp then r.next + 1 else r.next, run, r.status, r.s);
      }
    }
  }

  lemma {:induction false} SepsStop(t: seq<Token>, i: nat)
    requires Unjoined(t) && !Joins(At(t, i))
    ensures !Joins(At(t, SkipSeps(t, i)))
    decreases |t| - i
  {
    if Sep(At(t, i)) {
      SepsStop(t, i + 1);
    }
  }

  lemma ClauseStops(o: Oracle, t: seq<Token>, i: nat, run: bool, s: State)
    requires Unjoined(t) && i <= |t|
    ensures !Joins(At(t, RunClause(o, t, i, run, s).r.next))
  {
    hide RunListFrom, Unjoined, SkipSeps, Steady, Agrees;
    var c := RunList(o, t, i, run, s);
    var a := SkipSeps(t, c.next);
    var n := if Kw(t, a, ThenWord) then a + 1 else a;
    ListStops(o, t, n, run && c.status == 0, c.s.last, c.s);
    SepsStop(t, RunList(o, t, n, run && c.status == 0, c.s).next);
  }

  lemma {:induction false} IfStops(o: Oracle, t: seq<Token>, i: nat, run: bool, taken: bool, s: State)
    requires Unjoined(t) && i <= |t|
    ensures !Joins(At(t, RunIf(o, t, i, run, taken, s).next))
    decreases |t| - i
  {
    hide RunClause, RunIf, RunElse, Unjoined;
    var c := RunClause(o, t, i, run && !taken, s);
    ClauseStops(o, t, i, run && !taken, s);
    IfRuns(o, t, i, run, taken, s);
    if Kw(t, c.r.next, ElifWord) {
      IfStops(o, t, c.r.next + 1, run, taken || c.taken, c.r.s);
    } else {
      ElseStops(o, t, c.r.next, run, taken || c.taken, c.r.status, c.r.s);
    }
  }

  lemma ElseStops(o: Oracle, t: seq<Token>, i: nat, run: bool, taken: bool, result: int, s: State)
    requires Unjoined(t) && i <= |t| && !Joins(At(t, i))
    ensures !Joins(At(t, RunElse(o, t, i, run, taken, result, s).next))
  {
    hide RunListFrom;
    if Kw(t, i, ElseWord) {
      ListStops(o, t, i + 1, run && !taken, s.last, s);
      SepsStop(t, RunList(o, t, i + 1, run && !taken, s).next);
    }
  }

  /** Wherever a compound command other than a subshell is left, no && or || follows. */
  lemma CommandStops(o: Oracle, t: seq<Token>, i: nat, run: bool, s: State)
    requires Unjoined(t) && CompoundStart(t, i) && At(t, i) != LParen && !Definition(t, i)
    requires run && s.flow != NoFlow ==> s.intruded
    ensures !Joins(At(t, RunCommand(o, t, i, run, s).next))
  {
    hide RunIf, RunListFrom, RunFor, RunWhile, RunCase, SkipList, CaseArms, Steady, Agrees;
    if Kw(t, i, IfWord) {
      IfStops(o, t, i + 1, run, false, s);
    } else if Kw(t, i, OpenBrace) {
      ListStops(o, t, i + 1, run, s.last, s);
    } else if Kw(t, i, CaseWord) {
      CaseStops(o, t, i, run, s);
    } else if Kw(t, i, ForWord) {
      ForStops(o, t, i, run, s);
    } else if Kw(t, i, WhileWord) {
      WhileStops(o, t, i, run, false, s);
    } else {
      WhileStops(o, t, i, run, true, s);
    }
  }

  lemma {:induction false} ArmsStop(o: Oracle, t: seq<Token>, i: nat, run: bool, word: Token, matched: bool,
                                    status: int,
                                    s: State)
    requires i <= |t|
    ensures var n := RunArms(o, t, i, run, word, matched, status, s).next; At(t, n) == Eof || Kw(t, n, EsacWord)
    decreases |t| - i
  {
    hide RunArm, ArmPatterns;
    if At(t, i) != Eof && !Kw(t, i, EsacWord) {
      var now := run && !matched && o.fits(s.history, word, ArmPatterns(t, i));
      var b := RunArm(o, t, i, now, status, s);
      ArmsStop(o, t, b.next, run, word, matched || now, b.status, b.s);
    }
  }

  lemma CaseStops(o: Oracle, t: seq<Token>, i: nat, run: bool, s: State)
    requires Unjoined(t) && i < |t| && (run && s.flow != NoFlow ==> s.intruded)
    ensures !Joins(At(t, RunCase(o, t, i, run, s).next))
  {
    hide RunArms;
    ArmsStop(o, t, CaseArms(t, i), run, At(t, i + 1), false, s.last, s);
  }

  lemma {:induction false} PassStops(o: Oracle, t: seq<Token>, i: nat, closer: Lexeme, s: State)
    requires i <= |t|
    ensures var n := PassTo(o, t, i, closer, s).next; At(t, n) == Eof || Kw(t, n, closer)
    decreases |t| - i
  {
    hide RunAndOr;
    if At(t, i) != Eof && !Kw(t, i, closer) {
      var r := RunAndOr(o, t, i, false, s);
      var j := SkipSeps(t, r.next);
      PassStops(o, t, if j == i then i + 1 else j, closer, r.s);
    }
  }

  lemma BodyStops(o: Oracle, t: seq<Token>, i: nat, status: int, s: State)
    requires Unjoined(t) && i <= |t|
    ensures !Joins(At(t, PassBody(o, t, i, status, s).next))
  {
    hide PassTo;
    PassStops(o, t, i, DoneWord, s);
  }

  lemma ForStops(o: Oracle, t: seq<Token>, i: nat, run: bool, s: State)
    requires Unjoined(t) && i < |t| && (run && s.flow != NoFlow ==> s.intruded)
    ensures !Joins(At(t, RunFor(o, t, i, run, s).next))
  {
    hide PassBody, ForPasses, Unjoined, ForBody, ForCount;
    var body := ForBody(t, i);
    var p := if run then ForPasses(o, t, At(t, i + 1), body, 0, ForCount(o, t, i, s.history), s.last, s)
             else Out(body, s.last, s);
    BodyStops(o, t, body, p.status, p.s);
  }

  lemma WhileStops(o: Oracle, t: seq<Token>, i: nat, run: bool, until: bool, s: State)
    requires Unjoined(t) && i < |t| && (run && s.flow != NoFlow ==> s.intruded)
    ensures !Joins(At(t, RunWhile(o, t, i, run, until, s).next))
  {
    hide PassBody, WhilePasses, Unjoined, RunList, Steady;
    var c := RunList(o, t, i + 1, false, s);
    SteadyFlow(t, s, c.s);
    var body := if Kw(t, c.next, DoWord) then c.next + 1 else c.next;
    var p := if run then WhilePasses(o, t, i + 1, body, until, GUARD, c.s.last, c.s) else Out(body, c.s.last, c.s);
    BodyStops(o, t, body, p.status, p.s);
    assert RunWhile(o, t, i, run, until, s) == WhileFrom(o, t, i + 1, body, until, run, c.s);
  }

  // ---------------------------------------------------------------------------------------------
  // Nothing is run out of turn
  // ---------------------------------------------------------------------------------------------

  ghost predicate Fit(o: Oracle, t: seq<Token>, s: State) {
    Ready(o, t, s) && OnlyBuiltins(o) && Still(s)
  }

  /** In turn, and something is pending only where the tree may leave it. */
  predicate Fine(leaving: bool, s: State) {
    Clear(s) && (s.flow != NoFlow ==> leaving)
  }

  lemma OrderStages(o: Oracle, t: seq<Token>, i: nat, e: nat, st: Stages, s: State)
    requires GoodStages(st) && Spans(t, i, e, WriteStages(st)) && Follows(t, e) && At(t, e) != Pipe && Fit(o, t, s)
    ensures i <= |t| && RunPipeline(o, t, i, true, s).next == e
    ensures Fine(LeavingPipeline(Plain(st)), RunPipeline(o, t, i, true, s).s)
  {
    hide Spans, RunPipeline, WriteSimple;
    MeansStages(o, t, i, e, st, s);
  }

  lemma {:induction false} OrderPipeline(o: Oracle, t: seq<Token>, i: nat, e: nat, p: Pipeline, s: State)
    requires GoodPipeline(p) && OrderlyPipeline(p) && Spans(t, i, e, WritePipeline(p)) && Fit(o, t, s)
    requires FollowsList(t, e) || (Joins(At(t, e)) && !(p.Compound? && p.c.Function?) && !LeavingPipeline(p))
    requires LeavingPipeline(p) ==> Unjoined(t)
    ensures i <= |t|
    ensures var r := RunPipeline(o, t, i, true, s);
      && Fine(LeavingPipeline(p), r.s)
      && (p.Plain? ==> r.next == e)
      && (r.s.flow != NoFlow ==> !Joins(At(t, r.next)))
    decreases p, 0
  {
    hide Spans, RunCommand, RunSimple, RunStages, Honest, NoDefinitions, OnlyBuiltins, Unjoined, LeavingCommand,
         WriteSimple;
    Bounded(t, i, e, WritePipeline(p));
    match p
    case Plain(stages) =>
      OrderStages(o, t, i, e, stages, s);
    case Compound(c) =>
      ReadCommand(t, i, e, c);
      OrderCommand(o, t, i, e, c, s);
  }

  lemma {:induction false} OrderFirst(o: Oracle, t: seq<Token>, i: nat, e: nat, p: Pipeline, run: bool, status: int,
                                      s: State)
    requires GoodPipeline(p) && OrderlyPipeline(p) && Spans(t, i, e, WritePipeline(p)) && Fit(o, t, s)
    requires FollowsList(t, e) || (Joins(At(t, e)) && !(p.Compound? && p.c.Function?) && !LeavingPipeline(p))
    requires LeavingPipeline(p) ==> Unjoined(t)
    ensures i <= |t|
    ensures var m := First(o, t, i, run, status, s);
      && Fine(LeavingPipeline(p), m.s)
      && (m.s.flow == NoFlow || p.Plain? ==> m.next == e)
      && (m.s.flow != NoFlow ==> !Joins(At(t, m.next)))
    decreases p, 1
  {
    hide Spans, RunPipeline, Honest, NoDefinitions, OnlyBuiltins, Unjoined, LeavingPipeline;
    MeansFirst(o, t, i, e, p, run, status, s);
    if run {
      OrderPipeline(o, t, i, e, p, s);
    } else {
      PassedPipeline(o, t, i, e, p, s);
    }
  }

  /** Where the parts of a chain lie. */
  lemma JointParts(t: seq<Token>, i: nat, e: nat, a: AndOr) returns (j: nat, n: nat)
    requires a.Chain? && GoodAndOr(a) && Spans(t, i, e, WriteAndOr(a)) && FollowsList(t, e)
    ensures i <= j < n <= e <= |t| && At(t, j) == (if a.isAnd then AndIf else OrIf) && SkipNewlines(t, j + 1) == n
    ensures Spans(t, i, j, WritePipeline(a.p)) && Spans(t, n, e, WriteAndOr(a.rest))
  {
    hide Spans, SkipNewlines, WritePipeline;
    Bounded(t, i, e, WriteAndOr(a));
    var op := if a.isAnd then AndIf else OrIf;
    j := Split(t, i, e, WritePipeline(a.p), [op] + (Newlines(a.breaks) + WriteAndOr(a.rest)));
    Take(t, j, e, op, Newlines(a.breaks) + WriteAndOr(a.rest));
    n := Split(t, j + 1, e, Newlines(a.breaks), WriteAndOr(a.rest));
    ReadAndOr(t, n, e, a.rest);
    ReadNewlines(t, j + 1, n, a.breaks);
  }

  lemma {:induction false} OrderRest(o: Oracle, t: seq<Token>, i: nat, e: nat, a: AndOr, run: bool, status: int,
                                     s: State)
    requires GoodAndOr(a) && OrderlyChain(a) && Spans(t, i, e, WriteAndOr(a)) && FollowsList(t, e) && Fit(o, t, s)
    requires LeavingChain(a) ==> Unjoined(t)
    ensures i <= |t|
    ensures var m := First(o, t, i, run, status, s);
      var r := RunAndOrRest(o, t, m.next, true, m.status, m.s);
      Fine(LeavingChain(a), r.s) && (EndsPlain(a) ==> r.next == e)
    decreases a, 2
  {
    hide Spans, First, RunAndOrRest, Honest, NoDefinitions, OnlyBuiltins, Unjoined, LeavingPipeline, SkipNewlines;
    Bounded(t, i, e, WriteAndOr(a));
    var j, k := e, e;
    if a.Chain? {
      j, k := JointParts(t, i, e, a);
    }
    OrderFirst(o, t, i, j, a.p, run, status, s);
    var m := First(o, t, i, run, status, s);
    if a.Only? {
      RestEnds(o, t, m.next, m.status, m.s);
    } else {
      var doRun := a.isAnd <==> m.status == 0;
      StillReady(o, t, s, m.s);
      OrderRest(o, t, k, e, a.rest, doRun, m.status, m.s);
      RestGoes(o, t, j, k, m.status, m.s);
      FirstIs(o, t, k, doRun, m.status, m.s);
    }
  }

  lemma StillReady(o: Oracle, t: seq<Token>, s: State, u: State)
    requires Fit(o, t, s) && Clear(u) && u.flow == NoFlow
    ensures Fit(o, t, u)
  {
  }

  lemma {:induction false} OrderChain(o: Oracle, t: seq<Token>, i: nat, e: nat, a: AndOr, s: State)
    requires GoodAndOr(a) && OrderlyChain(a) && Spans(t, i, e, WriteAndOr(a)) && FollowsList(t, e) && Fit(o, t, s)
    requires LeavingChain(a) ==> Unjoined(t)
    ensures i < e <= |t| && Starts(t, i)
    ensures var r := RunAndOr(o, t, i, true, s);
      && Fine(LeavingChain(a), r.s) && (EndsPlain(a) ==> r.next == e)
      && Means(r, DoChain(o, a, true, 0, At(t, e) == Amp, s), e)
    decreases a, 3
  {
    hide Spans, RunPipeline, RunAndOrRest, DoChain, Honest, NoDefinitions, OnlyBuiltins, Unjoined, LeavingChain;
    MeansAndOr(o, t, i, e, a, s);
    OrderRest(o, t, i, e, a, true, 0, s);
    FirstIs(o, t, i, true, 0, s);
  }

  lemma {:induction false} OrderList(o: Oracle, t: seq<Token>, i: nat, e: nat, l: List, status: int, s: State)
    requires GoodList(l) && OrderlyList(l) && Spans(t, i, e, WriteList(l)) && BlockEnd(t, e)
    requires (EndsBare(l) ==> FollowsList(t, e)) && Fit(o, t, s)
    requires LeavingList(l) ==> Unjoined(t)
    ensures i <= |t| && Fine(LeavingList(l), RunListFrom(o, t, i, true, status, s).s)
    decreases l, 0
  {
    hide Spans, RunAndOr, RunListFrom, DoChain, Steady, Honest, NoDefinitions, OnlyBuiltins, Unjoined, LeavingChain;
    Bounded(t, i, e, WriteList(l));
    match l
    case Empty =>
      Nothing(t, i, e);
      ListEnds(o, t, i, true, status, s);
    case Blank(rest) =>
      Take(t, i, e, Newline, WriteList(rest));
      OrderList(o, t, i + 1, e, rest, status, s);
      ListBlank(o, t, i, true, status, s);
    case Bare(a) =>
      OrderChain(o, t, i, e, a, s);
      ListItem(o, t, i, true, status, s);
    case Item(a, sep, rest) =>
      var j := Split(t, i, e, WriteAndOr(a), [sep] + WriteList(rest));
      Take(t, j, e, sep, WriteList(rest));
      OrderChain(o, t, i, j, a, s);
      ListItem(o, t, i, true, status, s);
      var m := RunAndOr(o, t, i, true, s);
      if m.s.flow == NoFlow {
        if Sep(sep) { ListBlank(o, t, j, true, m.status, m.s); }
        StillReady(o, t, s, m.s);
        OrderList(o, t, j + 1, e, rest, m.status, m.s);
      }
  }

  lemma {:induction false} OrderTail(o: Oracle, t: seq<Token>, i: nat, e: nat, tail: Branches, result: int, s: State)
    requires GoodTail(tail) && OrderlyTail(tail) && Spans(t, i, e, WriteTail(tail)) && Fit(o, t, s)
    requires LeavingTail(tail) ==> Unjoined(t)
    ensures i <= |t| && Fine(LeavingTail(tail), RunAfter(o, t, i, true, false, result, s).s)
    decreases tail, 1
  {
    hide Spans, RunList, RunListFrom, RunIf, Honest, NoDefinitions, OnlyBuiltins, Unjoined, LeavingList;
    match tail
    case Fi =>
      Last(t, i, e, Word(FiWord));
      Bounded(t, i, e, WriteTail(tail));
    case Else(body) =>
      var m := Inside(t, i, e, Word(ElseWord), WriteList(body), Word(FiWord));
      OrderList(o, t, i + 1, m, body, s.last, s);
      ListIs(o, t, i + 1, true, s);
    case When(_, _, _) =>
      Take(t, i, e, Word(ElifWord), WriteWhen(tail));
      OrderIf(o, t, i + 1, e, tail, s);
  }

  lemma {:induction false} OrderIf(o: Oracle, t: seq<Token>, i: nat, e: nat, b: Branches, s: State)
    requires b.When? && GoodTail(b) && OrderlyTail(b) && Spans(t, i, e, WriteWhen(b)) && Fit(o, t, s)
    requires LeavingTail(b) ==> Unjoined(t)
    ensures i <= |t| && Fine(LeavingTail(b), RunIf(o, t, i, true, false, s).s)
    decreases b, 0
  {
    hide Spans, RunList, RunListFrom, RunIf, RunAfter, DoList, Honest, NoDefinitions, OnlyBuiltins, Unjoined,
         LeavingList, Steady;
    var c, d := WhenParts(t, i, e, b);
    MeansList(o, t, i, c, b.cond, s.last, s);
    OrderList(o, t, i, c, b.cond, s.last, s);
    ListIs(o, t, i, true, s);
    var m := RunList(o, t, i, true, s);
    StillReady(o, t, s, m.s);
    ClauseRuns(o, t, i, true, s, c);
    IfRuns(o, t, i, true, false, s);
    ListIs(o, t, c + 1, m.status == 0, m.s);
    var q := RunList(o, t, c + 1, m.status == 0, m.s);
    if m.status == 0 {
      OrderList(o, t, c + 1, d, b.thn, m.s.last, m.s);
      var n := SkipSeps(t, q.next);
      SteadyFlow(t, q.s, RunAfter(o, t, n, true, true, q.status, q.s).s);
    } else {
      PassedList(o, t, c + 1, d, b.thn, m.s.last, m.s);
      OrderTail(o, t, d, e, b.tail, q.status, m.s);
    }
  }

  lemma {:induction false} OrderPasses(o: Oracle, t: seq<Token>, name: Token, body: nat, m: nat, l: List, n: nat,
                                       count: nat,
                                       status: int, s: State)
    requires GoodBlock(l) && OrderlyList(l) && Spans(t, body, m, WriteList(l)) && BlockEnd(t, m) && Fit(o, t, s)
    requires n <= count
    requires LeavingList(l) ==> Unjoined(t)
    ensures body <= |t| && Fine(LeavingList(l), ForPasses(o, t, name, body, n, count, status, s).s)
    decreases l, 1, count - n
  {
    hide Spans, RunList, RunListFrom, Honest, NoDefinitions, OnlyBuiltins, Unjoined, LeavingList;
    Bounded(t, body, m, WriteList(l));
    if n < count {
      var b := Bind(s, name, n);
      OrderList(o, t, body, m, l, b.last, b);
      ListIs(o, t, body, true, b);
      var r := RunList(o, t, body, true, b);
      var (u, on) := Caught(r.s);
      if on {
        OrderPasses(o, t, name, body, m, l, n + 1, count, r.status, u);
      }
    }
  }

  lemma {:induction false} OrderWhilePasses(o: Oracle, t: seq<Token>, cond: nat, k: nat, body: nat, m: nat, c: Command,
                                            left: nat, status: int, s: State)
    requires c.While? && GoodCommand(c) && OrderlyCommand(c) && Fit(o, t, s) && cond <= body <= |t|
    requires Spans(t, cond, k, WriteList(c.cond)) && BlockEnd(t, k)
    requires Spans(t, body, m, WriteList(c.body)) && BlockEnd(t, m)
    requires LeavingCommand(c) ==> Unjoined(t)
    ensures Fine(LeavingCommand(c), WhilePasses(o, t, cond, body, c.until, left, status, s).s)
    decreases c, 1, left
  {
    hide Spans, RunList, RunListFrom, Steady, Agrees, Honest, NoDefinitions, OnlyBuiltins, Unjoined, LeavingList;
    if left > 0 {
      OrderList(o, t, cond, k, c.cond, s.last, s);
      ListIs(o, t, cond, true, s);
      var g := RunList(o, t, cond, true, s);
      assert Marked(g.s) == g.s;
      StillReady(o, t, s, g.s);
      if (g.status == 0) != c.until {
        OrderList(o, t, body, m, c.body, g.s.last, g.s);
        ListIs(o, t, body, true, g.s);
        var r := RunList(o, t, body, true, g.s);
        var (u, on) := Caught(r.s);
        if on {
          OrderWhilePasses(o, t, cond, k, body, m, c, left - 1, r.status, u);
        }
      }
    }
  }

  lemma {:induction false} OrderFor(o: Oracle, t: seq<Token>, i: nat, e: nat, c: Command, s: State)
    requires (c.For? || c.ForParams?) && GoodCommand(c) && OrderlyCommand(c) && Spans(t, i, e, WriteCommand(c))
    requires Fit(o, t, s)
    requires LeavingCommand(c) ==> Unjoined(t)
    ensures i < |t| && Fine(LeavingCommand(c), RunFor(o, t, i, true, s).s)
    decreases c, 2
  {
    hide Spans, WriteCommand, ForPasses, PassBody, SkipFor, ForCount, ForBody, Honest, NoDefinitions, OnlyBuiltins,
         Unjoined,
         LeavingList;
    var body, q := ForParts(o, t, i, e, c, s);
    var count := ForCount(o, t, i, s.history);
    OrderPasses(o, t, At(t, i + 1), body, q, c.body, 0, count, s.last, s);
    var p := ForPasses(o, t, At(t, i + 1), body, 0, count, s.last, s);
    BodyPassed(o, t, body, p.status, p.s);
  }

  lemma {:induction false} OrderWhile(o: Oracle, t: seq<Token>, i: nat, e: nat, c: Command, s: State)
    requires c.While? && GoodCommand(c) && OrderlyCommand(c) && Spans(t, i, e, WriteCommand(c)) && Fit(o, t, s)
    requires LeavingCommand(c) ==> Unjoined(t)
    ensures i < |t| && Fine(LeavingCommand(c), RunWhile(o, t, i, true, c.until, s).s)
    decreases c, 2
  {
    hide Spans, WriteList, LoopAround, WhilePasses, PassBody, SkipWhile, RunList, RunListFrom, Honest, NoDefinitions,
         OnlyBuiltins, Unjoined, LeavingCommand, Steady, Agrees, LeavingList, OrderlyList, GoodList;
    var loop := LoopAround(WriteList(c.body));
    Bounded(t, i, e, WriteCommand(c));
    Take(t, i, e, Word(if c.until then UntilWord else WhileWord), WriteList(c.cond) + loop);
    var k := Split(t, i + 1, e, WriteList(c.cond), loop);
    var body, q := LoopParts(t, k, e, c.body);
    PassedList(o, t, i + 1, k, c.cond, s.last, s);
    ListIs(o, t, i + 1, false, s);
    OrderWhilePasses(o, t, i + 1, k, body, q, c, GUARD, s.last, s);
    var p := WhilePasses(o, t, i + 1, body, c.until, GUARD, s.last, s);
    BodyPassed(o, t, body, p.status, p.s);
    assert RunWhile(o, t, i, true, c.until, s) == WhileFrom(o, t, i + 1, body, c.until, true, s);
  }

  /** Behind the last command of an arm only newlines come before the `;;`. */
  lemma {:induction false} ArmOver(o: Oracle, t: seq<Token>, i: nat, e: nat, l: List, status: int, s: State)
    requires NoCommands(l) && Spans(t, i, e, WriteList(l)) && DoubleSemi(t, e)
    ensures i <= |t| && RunArmBody(o, t, i, true, status, s) == Out(e, status, s)
    decreases l
  {
    hide Spans, RunAndOr, RunArmBody;
    Bounded(t, i, e, WriteList(l));
    ArmRuns(o, t, i, true, status, s);
    if l.Empty? {
      Nothing(t, i, e);
    } else {
      Take(t, i, e, Newline, WriteList(l.rest));
      ArmOver(o, t, i + 1, e, l.rest, status, s);
      ArmBlank(o, t, i, status, s);
    }
  }

  lemma {:induction false} OrderArm(o: Oracle, t: seq<Token>, i: nat, e: nat, l: List, status: int, s: State)
    requires GoodList(l) && OrderlyArm(l) && !EndsSemi(l) && Spans(t, i, e, WriteList(l)) && DoubleSemi(t, e)
    requires Fit(o, t, s)
    requires LeavingList(l) ==> Unjoined(t)
    ensures i <= |t| && Fine(LeavingList(l), RunArmBody(o, t, i, true, status, s).s)
    decreases l, 1
  {
    hide Spans, RunAndOr, RunArmBody, DoChain, Steady, Honest, NoDefinitions, OnlyBuiltins, Unjoined, LeavingChain,
         SkipNewlines;
    Bounded(t, i, e, WriteList(l));
    match l
    case Empty =>
      Nothing(t, i, e);
      ArmRuns(o, t, i, true, status, s);
    case Blank(rest) =>
      Take(t, i, e, Newline, WriteList(rest));
      OrderArm(o, t, i + 1, e, rest, status, s);
      ArmBlank(o, t, i, status, s);
    case Bare(a) =>
      OrderChain(o, t, i, e, a, s);
      ArmGoes(o, t, i, e, status, s);
    case Item(_, _, _) =>
      OrderArmItem(o, t, i, e, l, status, s);
  }

  lemma {:induction false} OrderArmItem(o: Oracle, t: seq<Token>, i: nat, e: nat, l: List, status: int, s: State)
    requires l.Item? && GoodList(l) && OrderlyArm(l) && !EndsSemi(l) && Spans(t, i, e, WriteList(l)) && DoubleSemi(t, e)
    requires Fit(o, t, s)
    requires LeavingList(l) ==> Unjoined(t)
    ensures i <= |t| && Fine(LeavingList(l), RunArmBody(o, t, i, true, status, s).s)
    decreases l, 0
  {
    hide Spans, RunAndOr, RunArmBody, DoChain, Steady, Honest, NoDefinitions, OnlyBuiltins, Unjoined, LeavingChain,
         SkipNewlines,
         WriteAndOr, OrderlyChain, GoodAndOr, EndsPlain;
    var Item(a, sep, rest) := l;
    Bounded(t, i, e, WriteList(l));
    var j := Split(t, i, e, WriteAndOr(a), [sep] + WriteList(rest));
    Take(t, j, e, sep, WriteList(rest));
    ReadArmBody(t, j + 1, e, rest);
    OrderChain(o, t, i, j, a, s);
    ArmGoes(o, t, i, j, status, s);
    var m := RunAndOr(o, t, i, true, s);
    if DoubleSemi(t, j) {
    } else if m.s.flow != NoFlow {
      ArmOver(o, t, j + 1, e, rest, m.status, m.s);
    } else {
      StillReady(o, t, s, m.s);
      if sep == Amp { AmpRuns(o, t, j, m.status, m.s); }
      OrderArm(o, t, j + 1, e, rest, if sep == Amp then m.s.last else m.status, m.s);
    }
  }

  lemma {:induction false} OrderArms(o: Oracle, t: seq<Token>, i: nat, e: nat, word: Token, arms: Arms, s: State)
    requires GoodArms(arms) && OrderlyArms(arms) && Spans(t, i, e, WriteArms(arms)) && Kw(t, e, EsacWord)
    requires Fit(o, t, s)
    requires LeavingArms(arms) ==> Unjoined(t)
    ensures i <= |t| && Fine(LeavingArms(arms), RunArms(o, t, i, true, word, false, s.last, s).s)
    decreases arms
  {
    hide Spans, RunArm, WriteList, Steady, Honest, NoDefinitions, OnlyBuiltins, Unjoined, ArmPatterns, SkipArm,
         LeavingList;
    Bounded(t, i, e, WriteArms(arms));
    match arms
    case NoArms =>
      Nothing(t, i, e);
    case Arm(paren, patterns, body, breaks, rest) =>
      var m := Split(t, i, e, ArmAround(paren, patterns, WriteList(body), breaks), WriteArms(rest));
      ReadArms(t, m, e, rest);
      ReadArm(t, i, m, arms);
      if o.fits(s.history, word, ArmPatterns(t, i)) {
        OrderArmText(o, t, i, m, arms, s);
        var b := RunArm(o, t, i, true, s.last, s);
        MatchedStays(o, t, b.next, word, b.status, b.s);
      } else {
        ArmPassed(o, t, i, m, s);
        OrderArms(o, t, m, e, word, rest, s);
      }
  }

  lemma {:induction false} OrderArmText(o: Oracle, t: seq<Token>, i: nat, e: nat, arms: Arms, s: State)
    requires arms.Arm? && GoodArms(arms) && OrderlyArms(arms) && !Sep(At(t, e)) && Fit(o, t, s)
    requires At(t, i) != Eof && !Kw(t, i, EsacWord)
    requires Spans(t, i, e, ArmAround(arms.paren, arms.patterns, WriteList(arms.body), arms.breaks))
    requires LeavingArms(arms) ==> Unjoined(t)
    ensures i <= |t| && Fine(LeavingList(arms.body), RunArm(o, t, i, true, s.last, s).s)
    decreases arms, 0
  {
    hide Spans, WriteList, RunArmBody, Honest, NoDefinitions, OnlyBuiltins, Unjoined, LeavingList;
    var p, r, b := ArmParts(t, i, e, arms);
    OrderArm(o, t, r + 1, b, arms.body, s.last, s);
  }

  lemma {:induction false} OrderCase(o: Oracle, t: seq<Token>, i: nat, e: nat, c: Command, s: State)
    requires c.Case? && GoodCommand(c) && OrderlyCommand(c) && Spans(t, i, e, WriteCommand(c)) && Fit(o, t, s)
    requires LeavingCommand(c) ==> Unjoined(t)
    ensures i < |t| && Fine(LeavingCommand(c), RunCase(o, t, i, true, s).s)
    decreases c, 2
  {
    hide Spans, RunArms, SkipArms, SkipCase, WriteArms, Newlines, Honest, NoDefinitions, OnlyBuiltins, Unjoined,
         LeavingArms;
    var Case(word, breaks, arms) := c;
    Bounded(t, i, e, WriteCommand(c));
    var rest := Newlines(breaks) + (WriteArms(arms) + [Word(EsacWord)]);
    Take(t, i, e, Word(CaseWord), [Word(word)] + ([Word(InWord)] + rest));
    Take(t, i + 1, e, Word(word), [Word(InWord)] + rest);
    Take(t, i + 2, e, Word(InWord), rest);
    var m := Split(t, i + 3, e, Newlines(breaks), WriteArms(arms) + [Word(EsacWord)]);
    var a := Split(t, m, e, WriteArms(arms), [Word(EsacWord)]);
    Last(t, a, e, Word(EsacWord));
    ReadArms(t, m, a, arms);
    ReadNewlines(t, i + 3, m, breaks);
    assert CaseArms(t, i) == m;
    OrderArms(o, t, m, a, Word(word), arms, s);
  }

  lemma {:induction false} OrderCommand(o: Oracle, t: seq<Token>, i: nat, e: nat, c: Command, s: State)
    requires GoodCommand(c) && OrderlyCommand(c) && Spans(t, i, e, WriteCommand(c)) && Fit(o, t, s)
    requires c.Function? ==> FollowsList(t, e)
    requires LeavingCommand(c) ==> Unjoined(t)
    ensures i <= |t|
    ensures var r := RunCommand(o, t, i, true, s);
      Fine(LeavingCommand(c), r.s) && (r.s.flow != NoFlow ==> !Joins(At(t, r.next)))
    decreases c, 3
  {
    hide Spans, WriteCommand, GoodCommand, RunIf, RunFor, RunWhile, RunCase, RunList, RunSubshell, Honest, OnlyBuiltins,
         Unjoined, OrderlyCommand, LeavingCommand, DoCommand;
    Bounded(t, i, e, WriteCommand(c));
    NoDefinitionAt(t, 0, i);
    match c
    case If(_) =>
      ReadIf(t, i, e, c);
      OrderIfCommand(o, t, i, e, c, s);
      if LeavingCommand(c) { CommandStops(o, t, i, true, s); }
    case For(_, _, _) =>
      ReadFor(t, i, e, c);
      OrderFor(o, t, i, e, c, s);
      if LeavingCommand(c) { CommandStops(o, t, i, true, s); }
    case ForParams(_, _) =>
      ReadFor(t, i, e, c);
      OrderFor(o, t, i, e, c, s);
      if LeavingCommand(c) { CommandStops(o, t, i, true, s); }
    case While(_, _, _) =>
      ReadWhile(t, i, e, c);
      OrderWhile(o, t, i, e, c, s);
      if LeavingCommand(c) { CommandStops(o, t, i, true, s); }
    case Case(_, _, _) =>
      ReadCase(t, i, e, c);
      OrderCase(o, t, i, e, c, s);
      if LeavingCommand(c) { CommandStops(o, t, i, true, s); }
    case Brace(_) =>
      OrderBrace(o, t, i, e, c, s);
      if LeavingCommand(c) { CommandStops(o, t, i, true, s); }
    case Subshell(_) =>
      OrderSubshell(o, t, i, e, c, s);
    case Function(_, _, _) =>
      ReadFunction(t, i, e, c);
  }

  lemma {:induction false} OrderIfCommand(o: Oracle, t: seq<Token>, i: nat, e: nat, c: Command, s: State)
    requires c.If? && GoodCommand(c) && OrderlyCommand(c) && Spans(t, i, e, WriteCommand(c)) && Fit(o, t, s)
    requires LeavingCommand(c) ==> Unjoined(t)
    ensures i + 1 <= |t| && Fine(LeavingCommand(c), RunIf(o, t, i + 1, true, false, s).s)
    decreases c, 2
  {
    hide Spans, WriteWhen, RunIf, LeavingTail;
    Take(t, i, e, Word(IfWord), WriteWhen(c.branches));
    OrderIf(o, t, i + 1, e, c.branches, s);
  }

  lemma {:induction false} OrderBrace(o: Oracle, t: seq<Token>, i: nat, e: nat, c: Command, s: State)
    requires c.Brace? && GoodCommand(c) && OrderlyCommand(c) && Spans(t, i, e, WriteCommand(c)) && Fit(o, t, s)
    requires LeavingCommand(c) ==> Unjoined(t)
    ensures i < |t| && Kw(t, i, OpenBrace) && Fine(LeavingCommand(c), RunList(o, t, i + 1, true, s).s)
    decreases c, 2
  {
    hide Spans, RunList, RunListFrom, LeavingList;
    var m := Inside(t, i, e, Word(OpenBrace), WriteList(c.body), Word(CloseBrace));
    OrderList(o, t, i + 1, m, c.body, s.last, s);
    ListIs(o, t, i + 1, true, s);
  }

  lemma OrderSubshell(o: Oracle, t: seq<Token>, i: nat, e: nat, c: Command, s: State)
    requires c.Subshell? && GoodCommand(c) && Spans(t, i, e, WriteCommand(c)) && Fit(o, t, s)
    ensures At(t, i) == LParen && i < |t| && Still(RunSubshell(o, t, i, true, s).s)
  {
    hide Spans, RunSubshell, WriteCommand;
    MeansSubshell(o, t, i, e, c, s);
    StillSubshell(o, t, i, true, s);
  }

  // A tree without leaving commands is orderly.

  lemma {:induction false} QuietChain(a: AndOr)
    requires !LeavingChain(a)
    ensures OrderlyChain(a)
    decreases a, 1
  {
    if a.p.Compound? { QuietCommand(a.p.c); }
    if a.Chain? { QuietChain(a.rest); }
  }

  lemma {:induction false} QuietList(l: List)
    requires !LeavingList(l)
    ensures OrderlyList(l) && OrderlyArm(l)
    decreases l, 0
  {
    match l
    case Empty =>
    case Blank(rest) => QuietList(rest);
    case Bare(a) => QuietChain(a);
    case Item(a, _, rest) =>
      QuietChain(a);
      QuietList(rest);
  }

  lemma {:induction false} QuietTail(tail: Branches)
    requires !LeavingTail(tail)
    ensures OrderlyTail(tail)
    decreases tail
  {
    match tail
    case Fi =>
    case Else(body) => QuietList(body);
    case When(cond, thn, rest) =>
      QuietList(cond);
      QuietList(thn);
      QuietTail(rest);
  }

  lemma {:induction false} QuietArms(arms: Arms)
    requires !LeavingArms(arms)
    ensures OrderlyArms(arms)
    decreases arms
  {
    if arms.Arm? {
      QuietList(arms.body);
      QuietArms(arms.rest);
    }
  }

  lemma {:induction false} QuietCommand(c: Command)
    requires !LeavingCommand(c)
    ensures OrderlyCommand(c)
    decreases c
  {
    match c
    case If(branches) => QuietTail(branches);
    case For(_, _, body) => QuietList(body);
    case ForParams(_, body) => QuietList(body);
    case While(_, cond, body) =>
      QuietList(cond);
      QuietList(body);
    case Case(_, _, arms) => QuietArms(arms);
    case Brace(body) => QuietList(body);
    case Subshell(_) =>
    case Function(_, _, _) =>
  }

  /** Every orderly program is executed as its tree means, whatever its commands do: same state, status and end. */
  lemma OrderlyProgramMeans(o: Oracle, l: List, s: State)
    requires GoodList(l) && NoDefinitions(WriteList(l)) && Orderly(l)
    requires Honest(o) && OnlyBuiltins(o) && Still(s)
    ensures var r := RunList(o, WriteList(l), 0, true, s);
      var d := DoList(o, l, s.last, s);
      && Still(r.s.(flow := NoFlow)) && r.s == d.s
      && (r.s.flow == NoFlow ==> r.next == |WriteList(l)|)
      && (r.s.flow != Return ==> r.status == d.status)
  {
    hide RunListFrom, DoList, Honest, NoDefinitions, OnlyBuiltins, Unjoined, LeavingList;
    var t := WriteList(l);
    assert t[0..|t|] == t;
    OrderList(o, t, 0, |t|, l, s.last, s);
    ListIs(o, t, 0, true, s);
    ProgramMeans(o, l, s);
  }

  /** In particular every program none of whose commands may leave, to its last token. */
  lemma PlainProgramMeans(o: Oracle, l: List, s: State)
    requires GoodList(l) && NoDefinitions(WriteList(l)) && !LeavingList(l)
    requires Honest(o) && OnlyBuiltins(o) && Still(s)
    ensures var d := DoList(o, l, s.last, s);
      RunList(o, WriteList(l), 0, true, s) == Out(|WriteList(l)|, d.status, d.s) && Still(d.s)
  {
    hide RunListFrom, DoList, Honest, NoDefinitions, OnlyBuiltins, LeavingList;
    QuietList(l);
    var t := WriteList(l);
    assert t[0..|t|] == t;
    OrderList(o, t, 0, |t|, l, s.last, s);
    ListIs(o, t, 0, true, s);
    ProgramMeans(o, l, s);
  }
}
