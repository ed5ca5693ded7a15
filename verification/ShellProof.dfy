/** The executor of run.c means what the grammar tree means. */
module ShellProof {
  import opened ShellSkip
  import opened ShellRun
  import opened ShellHalts
  import opened ShellGrammar
  import opened ShellMeaning

  /** As long as nothing ran out of turn: the tree's state, its status, and the token behind it. */
  ghost predicate Means(r: Out, d: Did, e: nat) {
    Clear(r.s) ==>
      && r.s == d.s
      && (r.s.flow == NoFlow ==> r.next == e)
      && (r.s.flow != Return ==> r.status == d.status)
  }

  /** The same without a place: what loops hand on. */
  ghost predicate MeansState(r: Out, d: Did) {
    Clear(r.s) ==> r.s == d.s && (r.s.flow != Return ==> r.status == d.status)
  }

  ghost predicate Ready(o: Oracle, t: seq<Token>, s: State) {
    Honest(o) && NoDefinitions(t) && Calm(s)
  }

  /** Something pending stays pending: the rest changes neither state nor, for a break or continue, status. */
  lemma StillPending(t: seq<Token>, run: bool, s: State, m: Out, d: Did, status: int, r: Out)
    requires NoDefinitions(t) && Calm(s) && Steady(t, run, m.s, r.s) && Zero(s, status, m) && Zero(s, status, r)
    requires m.s.flow != NoFlow && (Clear(m.s) ==> m.s == d.s && (m.s.flow != Return ==> m.status == d.status))
    ensures MeansState(r, d) && (Clear(r.s) ==> r.s.flow != NoFlow)
  {
  }

  lemma ClearBefore(t: seq<Token>, run: bool, m: State, u: State)
    requires Steady(t, run, m, u) && Clear(u)
    ensures Clear(m)
  {
  }

  // ---------------------------------------------------------------------------------------------
  // Pipelines and lists
  // ---------------------------------------------------------------------------------------------

  lemma SliceIs(t: seq<Token>, i: nat, e: nat, x: seq<Token>)
    requires Spans(t, i, e, x)
    ensures Slice(t, i, e) == x
  {
  }

  lemma MeansStages(o: Oracle, t: seq<Token>, i: nat, e: nat, st: Stages, s: State)
    requires GoodStages(st) && Spans(t, i, e, WriteStages(st)) && Follows(t, e) && At(t, e) != Pipe && Calm(s)
    ensures i <= |t|
    ensures var d := DoStages(o, st, At(t, e) == Amp, s);
      RunPipeline(o, t, i, true, s) == Out(e, d.status, d.s)
  {
    hide Spans, SkipStages, SkipSimple, Perform, PerformChild, Slice, WriteSimple;
    Bounded(t, i, e, WriteStages(st));
    ReadStages(t, i, e, st);
    SliceIs(t, i, e, WriteStages(st));
    if st.Final? {
      ReadSimple(t, i, e, st.s);
    } else {
      var j := Split(t, i, e, WriteSimple(st.s), [Pipe] + (Newlines(st.breaks) + WriteStages(st.rest)));
      Take(t, j, e, Pipe, Newlines(st.breaks) + WriteStages(st.rest));
      ReadSimple(t, i, j, st.s);
    }
  }

  lemma {:induction false} MeansPipeline(o: Oracle, t: seq<Token>, i: nat, e: nat, p: Pipeline, s: State)
    requires GoodPipeline(p) && Spans(t, i, e, WritePipeline(p)) && Ready(o, t, s)
    requires FollowsList(t, e) || (Joins(At(t, e)) && !(p.Compound? && p.c.Function?))
    ensures i <= |t| && Means(RunPipeline(o, t, i, true, s), DoPipeline(o, p, At(t, e) == Amp, s), e)
    decreases p, 0
  {
    hide Spans, RunCommand, RunSimple, RunStages, DoCommand, DoStages;
    Bounded(t, i, e, WritePipeline(p));
    match p
    case Plain(stages) =>
      MeansStages(o, t, i, e, stages, s);
    case Compound(c) =>
      ReadCommand(t, i, e, c);
      MeansCommand(o, t, i, e, c, s);
  }

  lemma RestEnds(o: Oracle, t: seq<Token>, i: nat, status: int, s: State)
    requires i <= |t| && !Joins(At(t, i))
    ensures RunAndOrRest(o, t, i, true, status, s) == Out(i, status, s)
  {
  }

  lemma RestGoes(o: Oracle, t: seq<Token>, i: nat, k: nat, status: int, s: State)
    requires i < |t| && Joins(At(t, i)) && k == SkipNewlines(t, i + 1)
    ensures k <= |t|
    ensures var run := At(t, i) == AndIf <==> status == 0;
      var m := RunPipeline(o, t, k, run, s);
      RunAndOrRest(o, t, i, true, status, s) == RunAndOrRest(o, t, m.next, true, if run then m.status else status, m.s)
  {
    hide RunPipeline;
  }

  /** The first pipeline of a chain, with the status it leaves. */
  function First(o: Oracle, t: seq<Token>, i: nat, run: bool, status: int, s: State): (m: Out)
    requires i <= |t|
    ensures i <= m.next <= |t|
  {
    var m := RunPipeline(o, t, i, run, s);
    Out(m.next, if run then m.status else status, m.s)
  }

  function DoFirst(o: Oracle, p: Pipeline, run: bool, status: int, background: bool, s: State): Did {
    if run then DoPipeline(o, p, background, s) else Did(status, s)
  }

  lemma {:induction false} MeansFirst(o: Oracle, t: seq<Token>, i: nat, e: nat, p: Pipeline, run: bool, status: int,
                                      s: State)
    requires GoodPipeline(p) && Spans(t, i, e, WritePipeline(p)) && Ready(o, t, s)
    requires FollowsList(t, e) || (Joins(At(t, e)) && !(p.Compound? && p.c.Function?))
    ensures i <= |t| && Means(First(o, t, i, run, status, s), DoFirst(o, p, run, status, At(t, e) == Amp, s), e)
    ensures Zero(s, 0, First(o, t, i, run, status, s))
    decreases p, 1
  {
    hide Spans, RunPipeline, DoPipeline, Honest, NoDefinitions;
    Bounded(t, i, e, WritePipeline(p));
    if run {
      MeansPipeline(o, t, i, e, p, s);
      ZeroPipeline(o, t, i, run, s);
    } else {
      PassedPipeline(o, t, i, e, p, s);
    }
  }

  lemma RestPending(o: Oracle, t: seq<Token>, m: Out, d: Did, j: nat, e: nat, s: State)
    requires Ready(o, t, s) && m.next <= |t| && m.s.flow != NoFlow && Means(m, d, j) && Zero(s, 0, m)
    ensures Means(RunAndOrRest(o, t, m.next, true, m.status, m.s), d, e)
  {
    hide Honest, NoDefinitions, RunAndOrRest, Steady;
    var r := RunAndOrRest(o, t, m.next, true, m.status, m.s);
    ZeroAndOrRest(o, t, m.next, true, m.status, m.s);
    ZeroNext(t, s, 0, m, m.status, true, r);
    StillPending(t, true, s, m, d, 0, r);
  }

  /** A chain from a pipeline that is run or stepped over. */
  lemma {:induction false} MeansChain(o: Oracle, t: seq<Token>, i: nat, e: nat, a: AndOr, run: bool, status: int,
                                      s: State)
    requires GoodAndOr(a) && Spans(t, i, e, WriteAndOr(a)) && FollowsList(t, e) && Ready(o, t, s)
    ensures i <= |t|
    ensures var m := First(o, t, i, run, status, s);
      Means(RunAndOrRest(o, t, m.next, true, m.status, m.s), DoChain(o, a, run, status, At(t, e) == Amp, s), e)
    decreases a, 2
  {
    hide Spans, First, DoPipeline, RunAndOrRest, Steady, Honest, NoDefinitions, Zero, SkipNewlines;
    Bounded(t, i, e, WriteAndOr(a));
    var op := if a.Chain? && a.isAnd then AndIf else OrIf;
    var j := e;
    if a.Chain? {
      j := Split(t, i, e, WritePipeline(a.p), [op] + (Newlines(a.breaks) + WriteAndOr(a.rest)));
      Take(t, j, e, op, Newlines(a.breaks) + WriteAndOr(a.rest));
    }
    MeansFirst(o, t, i, j, a.p, run, status, s);
    var m := First(o, t, i, run, status, s);
    var d := DoFirst(o, a.p, run, status, At(t, j) == Amp, s);
    var r := RunAndOrRest(o, t, m.next, true, m.status, m.s);
    if Clear(r.s) {
      ClearBefore(t, true, m.s, r.s);
      if m.s.flow != NoFlow {
        RestPending(o, t, m, d, j, e, s);
      } else if a.Only? {
        RestEnds(o, t, j, m.status, m.s);
      } else {
        MeansJoined(o, t, j, e, a, m.status, m.s);
      }
    }
  }

  /** The rest of a chain, from its joint. */
  lemma {:induction false} MeansJoined(o: Oracle, t: seq<Token>, j: nat, e: nat, a: AndOr, status: int, s: State)
    requires a.Chain? && GoodAndOr(a) && FollowsList(t, e) && Ready(o, t, s) && j < e <= |t|
    requires At(t, j) == (if a.isAnd then AndIf else OrIf)
    requires Spans(t, j + 1, e, Newlines(a.breaks) + WriteAndOr(a.rest))
    ensures Means(RunAndOrRest(o, t, j, true, status, s),
                  DoChain(o, a.rest, a.isAnd <==> status == 0, status, At(t, e) == Amp, s), e)
    decreases a, 0
  {
    hide Spans, First, DoChain, RunAndOrRest, Means, Honest, NoDefinitions, SkipNewlines;
    var run := a.isAnd <==> status == 0;
    var k := Split(t, j + 1, e, Newlines(a.breaks), WriteAndOr(a.rest));
    ReadAndOr(t, k, e, a.rest);
    ReadNewlines(t, j + 1, k, a.breaks);
    MeansChain(o, t, k, e, a.rest, run, status, s);
    RestGoes(o, t, j, k, status, s);
    FirstIs(o, t, k, run, status, s);
  }

  lemma FirstIs(o: Oracle, t: seq<Token>, i: nat, run: bool, status: int, s: State)
    requires i <= |t|
    ensures var m := RunPipeline(o, t, i, run, s);
      First(o, t, i, run, status, s) == Out(m.next, if run then m.status else status, m.s)
  {
  }

  lemma {:induction false} MeansAndOr(o: Oracle, t: seq<Token>, i: nat, e: nat, a: AndOr, s: State)
    requires GoodAndOr(a) && Spans(t, i, e, WriteAndOr(a)) && FollowsList(t, e) && Ready(o, t, s)
    ensures i < e <= |t| && Starts(t, i)
    ensures Means(RunAndOr(o, t, i, true, s), DoChain(o, a, true, 0, At(t, e) == Amp, s), e)
    decreases a, 3
  {
    hide Spans, RunPipeline, RunAndOrRest, Means, DoChain;
    Bounded(t, i, e, WriteAndOr(a));
    ReadAndOr(t, i, e, a);
    MeansChain(o, t, i, e, a, true, 0, s);
  }

  /** A list from the middle: its first command has been run. */
  lemma ListGoes(o: Oracle, t: seq<Token>, i: nat, status: int, s: State, d: Did, j: nat)
    requires i < |t| && Starts(t, i) && j < |t| && Means(RunAndOr(o, t, i, true, s), d, j)
    ensures var r := RunListFrom(o, t, i, true, status, s);
      Clear(r.s) ==>
        if d.s.flow != NoFlow || (At(t, j) != Amp && BlockEnd(t, j)) then Means(r, d, j)
        else r == RunListFrom(o, t, if At(t, j) == Amp then j + 1 else j, true, d.status, d.s)
  {
    hide RunAndOr, RunListFrom, Steady, Starts;
    ListItem(o, t, i, true, status, s);
    var m := RunAndOr(o, t, i, true, s);
    var r := RunListFrom(o, t, i, true, status, s);
    if Clear(r.s) && r != m {
      var n := if At(t, m.next) == Amp then m.next + 1 else m.next;
      ClearBefore(t, true, m.s, RunListFrom(o, t, n, true, m.status, m.s).s);
    }
  }

  lemma {:induction false} MeansList(o: Oracle, t: seq<Token>, i: nat, e: nat, l: List, status: int, s: State)
    requires GoodList(l) && Spans(t, i, e, WriteList(l)) && BlockEnd(t, e) && (EndsBare(l) ==> FollowsList(t, e))
    requires Ready(o, t, s)
    ensures i <= |t| && Means(RunListFrom(o, t, i, true, status, s), DoList(o, l, status, s), e)
    decreases l, 0
  {
    hide Spans, RunAndOr, RunListFrom, DoChain, Steady, Honest, NoDefinitions;
    Bounded(t, i, e, WriteList(l));
    match l
    case Empty =>
      Nothing(t, i, e);
      ListEnds(o, t, i, true, status, s);
    case Blank(rest) =>
      Take(t, i, e, Newline, WriteList(rest));
      MeansList(o, t, i + 1, e, rest, status, s);
      ListBlank(o, t, i, true, status, s);
    case Bare(a) =>
      MeansBare(o, t, i, e, a, status, s);
    case Item(a, sep, rest) =>
      var j := Split(t, i, e, WriteAndOr(a), [sep] + WriteList(rest));
      Take(t, j, e, sep, WriteList(rest));
      MeansAndOr(o, t, i, j, a, s);
      var d := DoChain(o, a, true, 0, sep == Amp, s);
      ListGoes(o, t, i, status, s, d, j);
      var r := RunListFrom(o, t, i, true, status, s);
      if Clear(r.s) && d.s.flow == NoFlow {
        if Sep(sep) { ListBlank(o, t, j, true, d.status, d.s); }
        ClearBefore(t, true, d.s, r.s);
        MeansList(o, t, j + 1, e, rest, d.status, d.s);
      }
  }

  lemma {:induction false} MeansBare(o: Oracle, t: seq<Token>, i: nat, e: nat, a: AndOr, status: int, s: State)
    requires GoodAndOr(a) && Spans(t, i, e, WriteAndOr(a)) && BlockEnd(t, e) && FollowsList(t, e) && Ready(o, t, s)
    ensures i <= |t| && Means(RunListFrom(o, t, i, true, status, s), DoChain(o, a, true, 0, false, s), e)
    decreases a, 4
  {
    hide Spans, RunAndOr, RunListFrom, DoChain, Steady, Honest, NoDefinitions;
    MeansAndOr(o, t, i, e, a, s);
    ListItem(o, t, i, true, status, s);
    var m := RunAndOr(o, t, i, true, s);
    var r := RunListFrom(o, t, i, true, status, s);
    if Clear(r.s) && r != m {
      var n := if At(t, m.next) == Amp then m.next + 1 else m.next;
      ClearBefore(t, true, m.s, RunListFrom(o, t, n, true, m.status, m.s).s);
    }
  }

  // ---------------------------------------------------------------------------------------------
  // if
  // ---------------------------------------------------------------------------------------------

  lemma IfRuns(o: Oracle, t: seq<Token>, i: nat, run: bool, taken: bool, s: State)
    requires i <= |t|
    ensures var c := RunClause(o, t, i, run && !taken, s);
      RunIf(o, t, i, run, taken, s) == RunAfter(o, t, c.r.next, run, taken || c.taken, c.r.status, c.r.s)
  {
    hide RunClause, RunAfter;
  }

  /** A clause whose condition ends at its `then`. */
  lemma ClauseRuns(o: Oracle, t: seq<Token>, i: nat, run: bool, s: State, c: nat)
    requires i <= |t| && c < |t| && RunList(o, t, i, run, s).next == c && Kw(t, c, ThenWord)
    ensures var m := RunList(o, t, i, run, s);
      var b := RunList(o, t, c + 1, run && m.status == 0, m.s);
      RunClause(o, t, i, run, s) == Clause(b.(next := SkipSeps(t, b.next)), run && m.status == 0)
  {
    hide RunList;
  }

  lemma ListIs(o: Oracle, t: seq<Token>, i: nat, run: bool, s: State)
    requires i <= |t|
    ensures RunList(o, t, i, run, s) == RunListFrom(o, t, i, run, s.last, s)
  {
  }

  /** Where the parts of a condition and its commands lie. */
  lemma WhenParts(t: seq<Token>, i: nat, e: nat, b: Branches) returns (c: nat, d: nat)
    requires b.When? && GoodTail(b) && Spans(t, i, e, WriteWhen(b))
    ensures i <= c < d < e <= |t| && Kw(t, c, ThenWord) && At(t, d).Word? && BlockEnd(t, d)
    ensures Spans(t, i, c, WriteList(b.cond)) && Spans(t, c + 1, d, WriteList(b.thn))
    ensures Spans(t, d, e, WriteTail(b.tail))
  {
    hide Spans, WriteList, WriteTail;
    c := Split(t, i, e, WriteList(b.cond), [Word(ThenWord)] + (WriteList(b.thn) + WriteTail(b.tail)));
    Take(t, c, e, Word(ThenWord), WriteList(b.thn) + WriteTail(b.tail));
    d := Split(t, c + 1, e, WriteList(b.thn), WriteTail(b.tail));
    ReadTail(t, d, e, b.tail);
  }

  lemma ElsePassed(o: Oracle, t: seq<Token>, i: nat, e: nat, body: List, result: int, s: State)
    requires GoodBlock(body) && Spans(t, i, e, [Word(ElseWord)] + (WriteList(body) + [Word(FiWord)]))
    requires NoDefinitions(t) && Calm(s)
    ensures i <= |t| && RunAfter(o, t, i, true, true, result, s) == Out(e, PassList(body, s.last, s.last), s)
  {
    hide Spans, RunList, RunListFrom, RunIf, NoDefinitions;
    var m := Inside(t, i, e, Word(ElseWord), WriteList(body), Word(FiWord));
    PassedList(o, t, i + 1, m, body, s.last, s);
    ListIs(o, t, i + 1, false, s);
  }

  /** A condition with its commands, stepped over. */
  lemma ClausePassed(o: Oracle, t: seq<Token>, i: nat, c: nat, d: nat, b: Branches, s: State)
    requires b.When? && GoodTail(b) && NoDefinitions(t) && Calm(s)
    requires i <= c < d <= |t| && Kw(t, c, ThenWord) && At(t, d).Word? && BlockEnd(t, d)
    requires Spans(t, i, c, WriteList(b.cond)) && Spans(t, c + 1, d, WriteList(b.thn))
    ensures RunClause(o, t, i, false, s) == Clause(Out(d, PassList(b.thn, s.last, s.last), s), false)
  {
    hide Spans, RunList, RunListFrom, RunClause, NoDefinitions, PassList, WriteList;
    PassedList(o, t, i, c, b.cond, s.last, s);
    ListIs(o, t, i, false, s);
    PassedList(o, t, c + 1, d, b.thn, s.last, s);
    ListIs(o, t, c + 1, false, s);
    ClauseRuns(o, t, i, false, s, c);
  }

  /** One more condition with its commands, after a branch was taken. */
  lemma ElifPassed(o: Oracle, t: seq<Token>, i: nat, c: nat, d: nat, b: Branches, result: int, s: State)
    requires b.When? && GoodTail(b) && NoDefinitions(t) && Calm(s) && Kw(t, i, ElifWord)
    requires i + 1 <= c < d <= |t| && Kw(t, c, ThenWord) && At(t, d).Word? && BlockEnd(t, d)
    requires Spans(t, i + 1, c, WriteList(b.cond)) && Spans(t, c + 1, d, WriteList(b.thn))
    ensures RunAfter(o, t, i, true, true, result, s)
         == RunAfter(o, t, d, true, true, PassList(b.thn, s.last, s.last), s)
  {
    hide Spans, RunClause, RunIf, RunElse, NoDefinitions, PassList, WriteList;
    ClausePassed(o, t, i + 1, c, d, b, s);
    IfRuns(o, t, i + 1, true, true, s);
    assert RunAfter(o, t, i, true, true, result, s) == RunIf(o, t, i + 1, true, true, s);
  }

  /** The branches after the taken one are stepped over. */
  lemma {:induction false} TailPassed(o: Oracle, t: seq<Token>, i: nat, e: nat, tail: Branches, result: int, s: State)
    requires GoodTail(tail) && Spans(t, i, e, WriteTail(tail)) && NoDefinitions(t) && Calm(s)
    ensures i <= |t| && RunAfter(o, t, i, true, true, result, s) == Out(e, PassTail(tail, result, s.last), s)
    decreases tail
  {
    hide Spans, RunList, RunIf, NoDefinitions;
    match tail
    case Fi =>
      Last(t, i, e, Word(FiWord));
      Bounded(t, i, e, WriteTail(tail));
    case Else(body) =>
      ElsePassed(o, t, i, e, body, result, s);
    case When(_, _, _) =>
      hide RunAfter;
      Take(t, i, e, Word(ElifWord), WriteWhen(tail));
      var c, d := WhenParts(t, i + 1, e, tail);
      ElifPassed(o, t, i, c, d, tail, result, s);
      TailPassed(o, t, d, e, tail.tail, PassList(tail.thn, s.last, s.last), s);
  }

  lemma {:induction false} MeansTail(o: Oracle, t: seq<Token>, i: nat, e: nat, tail: Branches, result: int, s: State)
    requires GoodTail(tail) && Spans(t, i, e, WriteTail(tail)) && Ready(o, t, s)
    ensures i <= |t| && Means(RunAfter(o, t, i, true, false, result, s), DoTail(o, tail, s), e)
    decreases tail, 1
  {
    hide Spans, RunList, RunListFrom, RunIf, DoList, Honest, NoDefinitions;
    match tail
    case Fi =>
      Last(t, i, e, Word(FiWord));
      Bounded(t, i, e, WriteTail(tail));
    case Else(body) =>
      var m := Inside(t, i, e, Word(ElseWord), WriteList(body), Word(FiWord));
      MeansList(o, t, i + 1, m, body, s.last, s);
      ListIs(o, t, i + 1, true, s);
    case When(_, _, _) =>
      Take(t, i, e, Word(ElifWord), WriteWhen(tail));
      MeansIf(o, t, i + 1, e, tail, s);
  }

  lemma {:induction false} MeansIf(o: Oracle, t: seq<Token>, i: nat, e: nat, b: Branches, s: State)
    requires b.When? && GoodTail(b) && Spans(t, i, e, WriteWhen(b)) && Ready(o, t, s)
    ensures i <= |t| && Means(RunIf(o, t, i, true, false, s), DoIf(o, b, s), e)
    decreases b, 0
  {
    hide Spans, RunList, RunListFrom, RunIf, DoList, Honest, NoDefinitions, Steady, DoTail;
    var c, d := WhenParts(t, i, e, b);
    MeansList(o, t, i, c, b.cond, s.last, s);
    ListIs(o, t, i, true, s);
    var m := RunList(o, t, i, true, s);
    var g := DoList(o, b.cond, s.last, s);
    var r := RunIf(o, t, i, true, false, s);
    if Clear(r.s) {
      IfSteady(o, t, i, s);
      ClearBefore(t, true, m.s, r.s);
      if m.s.flow != NoFlow {
        ZeroList(o, t, i, true, s);
        ZeroIf(o, t, i, true, false, s);
        StillPending(t, true, s, m, g, 0, r);
      } else {
        MeansThen(o, t, i, c, d, e, b, s);
      }
    }
  }

  /** After the condition of an `if`, its state only goes on. */
  lemma IfSteady(o: Oracle, t: seq<Token>, i: nat, s: State)
    requires i <= |t|
    ensures Steady(t, true, RunList(o, t, i, true, s).s, RunIf(o, t, i, true, false, s).s)
  {
    hide RunList, RunAfter, Steady;
    IfRuns(o, t, i, true, false, s);
    var m := RunList(o, t, i, true, s);
    var c := RunClause(o, t, i, true, s);
    var a := SkipSeps(t, m.next);
    var n := if Kw(t, a, ThenWord) then a + 1 else a;
    var b := RunList(o, t, n, m.status == 0, m.s);
    SteadyMore(t, m.status == 0, true, m.s, b.s);
    var r := RunAfter(o, t, c.r.next, true, c.taken, c.r.status, c.r.s);
    SteadyNext(t, true, m.s, b.s, true && !c.taken, r.s);
  }

  /** Behind a condition that left nothing pending. */
  lemma {:induction false} MeansThen(o: Oracle, t: seq<Token>, i: nat, c: nat, d: nat, e: nat, b: Branches, s: State)
    requires b.When? && GoodTail(b) && Ready(o, t, s) && i <= c < d < e <= |t| && Kw(t, c, ThenWord)
    requires BlockEnd(t, d) && At(t, d).Word?
    requires Spans(t, c + 1, d, WriteList(b.thn)) && Spans(t, d, e, WriteTail(b.tail))
    requires var m := RunList(o, t, i, true, s);
      Calm(m.s) && Means(m, DoList(o, b.cond, s.last, s), c) && Clear(m.s)
    ensures Means(RunIf(o, t, i, true, false, s), DoIf(o, b, s), e)
    decreases b, 0, 0
  {
    hide Spans, RunList, RunListFrom, RunIf, RunAfter, RunClause, DoList, Honest, NoDefinitions, Steady, Agrees, DoTail,
         PassList, PassTail, WriteList, WriteTail;
    var m := RunList(o, t, i, true, s);
    ClauseRuns(o, t, i, true, s, c);
    IfRuns(o, t, i, true, false, s);
    var r := RunIf(o, t, i, true, false, s);
    ListIs(o, t, c + 1, m.status == 0, m.s);
    if m.status == 0 {
      MeansList(o, t, c + 1, d, b.thn, m.s.last, m.s);
      MeansTaken(o, t, c + 1, d, e, b, m.s);
    } else {
      PassedList(o, t, c + 1, d, b.thn, m.s.last, m.s);
      MeansTail(o, t, d, e, b.tail, PassList(b.thn, m.s.last, m.s.last), m.s);
    }
  }

  lemma MeansTaken(o: Oracle, t: seq<Token>, i: nat, d: nat, e: nat, b: Branches, s: State)
    requires b.When? && GoodTail(b) && Ready(o, t, s) && i <= d < e <= |t| && BlockEnd(t, d) && At(t, d).Word?
    requires Spans(t, d, e, WriteTail(b.tail)) && Means(RunList(o, t, i, true, s), DoList(o, b.thn, s.last, s), d)
    ensures var m := RunList(o, t, i, true, s);
      var g := DoList(o, b.thn, s.last, s);
      Means(RunAfter(o, t, SkipSeps(t, m.next), true, true, m.status, m.s),
            if g.s.flow != NoFlow then g else Did(PassTail(b.tail, g.status, g.s.last), g.s), e)
  {
    hide Spans, RunList, RunAfter, DoList, Honest, NoDefinitions, Steady, PassTail;
    var m := RunList(o, t, i, true, s);
    var g := DoList(o, b.thn, s.last, s);
    var n := SkipSeps(t, m.next);
    var r := RunAfter(o, t, n, true, true, m.status, m.s);
    if Clear(r.s) {
      ClearBefore(t, false, m.s, r.s);
      if m.s.flow != NoFlow {
        ZeroList(o, t, i, true, s);
        ZeroAfter(o, t, n, true, true, m.status, m.s);
        ZeroNext(t, s, 0, m, m.status, false, r);
        StillPending(t, false, s, m, g, 0, r);
      } else {
        TailPassed(o, t, d, e, b.tail, m.status, m.s);
      }
    }
  }

  // ---------------------------------------------------------------------------------------------
  // Loops
  // ---------------------------------------------------------------------------------------------

  lemma {:induction false} MeansPasses(o: Oracle, t: seq<Token>, name: Lexeme, body: nat, m: nat, l: List,
                                       n: nat, count: nat, status: int, s: State)
    requires GoodBlock(l) && Spans(t, body, m, WriteList(l)) && BlockEnd(t, m) && Ready(o, t, s) && n <= count
    ensures body <= |t|
    ensures MeansState(ForPasses(o, t, Word(name), body, n, count, status, s),
                       DoPasses(o, name, l, n, count, status, s))
    decreases l, 1, count - n
  {
    hide Spans, RunList, RunListFrom, DoList, Steady, Honest, NoDefinitions;
    Bounded(t, body, m, WriteList(l));
    if n < count {
      var b := Bind(s, Word(name), n);
      MeansList(o, t, body, m, l, b.last, b);
      ListIs(o, t, body, true, b);
      var r := RunList(o, t, body, true, b);
      var (u, on) := Caught(r.s);
      if on && Clear(u) {
        MeansPasses(o, t, name, body, m, l, n + 1, count, r.status, u);
      } else if on {
        PassesStay(o, t, Word(name), body, n + 1, count, r.status, u);
      }
    }
  }

  lemma PassesStay(o: Oracle, t: seq<Token>, name: Token, body: nat, n: nat, count: nat, status: int, s: State)
    requires body <= |t| && n <= count && s.flow == NoFlow && !Clear(s)
    ensures !Clear(ForPasses(o, t, name, body, n, count, status, s).s)
  {
    hide ForPasses;
    var r := ForPasses(o, t, name, body, n, count, status, s);
  }

  lemma {:induction false} MeansWhilePasses(o: Oracle, t: seq<Token>, cond: nat, k: nat, body: nat, m: nat, c: Command,
                                            left: nat, status: int, s: State)
    requires c.While? && GoodCommand(c) && Ready(o, t, s) && cond <= body <= |t|
    requires Spans(t, cond, k, WriteList(c.cond)) && BlockEnd(t, k)
    requires Spans(t, body, m, WriteList(c.body)) && BlockEnd(t, m)
    ensures MeansState(WhilePasses(o, t, cond, body, c.until, left, status, s), DoWhile(o, c, left, status, s))
    decreases c, 1, left
  {
    hide Spans, RunList, RunListFrom, DoList, Steady, Honest, NoDefinitions;
    if left > 0 {
      MeansList(o, t, cond, k, c.cond, s.last, s);
      ListIs(o, t, cond, true, s);
      var g := RunList(o, t, cond, true, s);
      if Clear(g.s) && g.s.flow == NoFlow {
        if (g.status == 0) != c.until {
          MeansList(o, t, body, m, c.body, g.s.last, g.s);
          ListIs(o, t, body, true, g.s);
          var r := RunList(o, t, body, true, g.s);
          var (u, on) := Caught(r.s);
          if on && Clear(u) {
            MeansWhilePasses(o, t, cond, k, body, m, c, left - 1, r.status, u);
          } else if on {
            WhileStays(o, t, cond, body, c.until, left - 1, r.status, u);
          }
        }
      } else {
        StraysOn(o, t, cond, body, c.until, left, status, s);
      }
    }
  }

  lemma WhileStays(o: Oracle, t: seq<Token>, cond: nat, body: nat, until: bool, left: nat, status: int, s: State)
    requires cond <= body <= |t| && s.flow == NoFlow && !Clear(s)
    ensures !Clear(WhilePasses(o, t, cond, body, until, left, status, s).s)
  {
    hide WhilePasses;
    var r := WhilePasses(o, t, cond, body, until, left, status, s);
  }

  /** A condition that was out of turn, or left something pending, marks the whole loop. */
  lemma StraysOn(o: Oracle, t: seq<Token>, cond: nat, body: nat, until: bool, left: nat, status: int, s: State)
    requires cond <= body <= |t| && left > 0 && s.flow == NoFlow
    requires var g := RunList(o, t, cond, true, s); !Clear(g.s) || g.s.flow != NoFlow
    ensures !Clear(WhilePasses(o, t, cond, body, until, left, status, s).s)
  {
    hide RunList;
    var g := RunList(o, t, cond, true, s);
    if (g.status == 0) != until {
      var r := RunList(o, t, body, true, Marked(g.s));
      var (u, on) := Caught(r.s);
      if on {
        WhileStays(o, t, cond, body, until, left - 1, r.status, u);
      }
    }
  }

  /** With its place, when nothing is left pending. */
  lemma Placed(s: State, r: Out, d: Did, e: nat)
    requires MeansState(r, d) && Agrees(true, s, r, e) && s.flow == NoFlow
    ensures Means(r, d, e)
  {
  }

  /** Where the body of a `for` lies, and how often it is run. */
  lemma ForParts(o: Oracle, t: seq<Token>, i: nat, e: nat, c: Command, s: State) returns (body: nat, q: nat)
    requires (c.For? || c.ForParams?) && GoodCommand(c) && Spans(t, i, e, WriteCommand(c))
    ensures i < |t| && At(t, i + 1) == Word(c.name) && ForBody(t, i) == body && i < body <= q < |t|
    ensures Spans(t, body, q, WriteList(c.body)) && BlockEnd(t, q)
    ensures ForCount(o, t, i, s.history) ==
      if c.For? then o.words(s.history, WriteWords(c.words)) else o.parameters(s.history)
  {
    hide Spans, WriteList, LoopAround, WriteWords, SkipForWords, Slice;
    var loop := LoopAround(WriteList(c.body));
    Bounded(t, i, e, WriteCommand(c));
    match c
    case For(name, words, _) =>
      Take(t, i, e, Word(ForWord), [Word(name)] + ([Word(InWord)] + (WriteWords(words) + ([Semi] + loop))));
      Take(t, i + 1, e, Word(name), [Word(InWord)] + (WriteWords(words) + ([Semi] + loop)));
      Take(t, i + 2, e, Word(InWord), WriteWords(words) + ([Semi] + loop));
      var m := Split(t, i + 3, e, WriteWords(words), [Semi] + loop);
      Take(t, m, e, Semi, loop);
      ReadWords(t, i + 3, m, words);
      SliceIs(t, i + 3, m, WriteWords(words));
      body, q := LoopParts(t, m + 1, e, c.body);
      assert SkipSeps(t, m) == m + 1;
    case ForParams(name, _) =>
      Take(t, i, e, Word(ForWord), [Word(name)] + ([Semi] + loop));
      Take(t, i + 1, e, Word(name), [Semi] + loop);
      Take(t, i + 2, e, Semi, loop);
      body, q := LoopParts(t, i + 3, e, c.body);
      assert SkipSeps(t, i + 2) == i + 3;
  }

  lemma LoopParts(t: seq<Token>, i: nat, e: nat, l: List) returns (body: nat, q: nat)
    requires Spans(t, i, e, LoopAround(WriteList(l)))
    ensures Kw(t, i, DoWord) && body == i + 1 <= q < e <= |t| && Spans(t, body, q, WriteList(l)) && BlockEnd(t, q)
  {
    q := Inside(t, i, e, Word(DoWord), WriteList(l), Word(DoneWord));
    body := i + 1;
  }

  lemma {:induction false} MeansFor(o: Oracle, t: seq<Token>, i: nat, e: nat, c: Command, s: State)
    requires (c.For? || c.ForParams?) && GoodCommand(c) && Spans(t, i, e, WriteCommand(c)) && Ready(o, t, s)
    ensures i < |t| && Means(RunFor(o, t, i, true, s), DoCommand(o, c, s), e)
    decreases c, 2
  {
    hide Spans, WriteCommand, ForPasses, DoPasses, PassBody, SkipFor, ForCount, ForBody, Means, MeansState, Honest,
         NoDefinitions;
    var body, q := ForParts(o, t, i, e, c, s);
    var count := ForCount(o, t, i, s.history);
    MeansPasses(o, t, c.name, body, q, c.body, 0, count, s.last, s);
    var p := ForPasses(o, t, At(t, i + 1), body, 0, count, s.last, s);
    BodyPassed(o, t, body, p.status, p.s);
    ReadFor(t, i, e, c);
    var r := RunFor(o, t, i, true, s);
    SameState(p, r, DoCommand(o, c, s));
    Placed(s, r, DoCommand(o, c, s), e);
  }

  lemma SameState(p: Out, r: Out, d: Did)
    requires MeansState(p, d) && r.s == p.s && r.status == p.status
    ensures MeansState(r, d)
  {
  }

  lemma {:induction false} MeansWhile(o: Oracle, t: seq<Token>, i: nat, e: nat, c: Command, s: State)
    requires c.While? && GoodCommand(c) && Spans(t, i, e, WriteCommand(c)) && Ready(o, t, s)
    ensures i < |t| && Means(RunWhile(o, t, i, true, c.until, s), DoCommand(o, c, s), e)
    decreases c, 2
  {
    hide Spans, WriteList, LoopAround, WhilePasses, DoWhile, PassBody, SkipWhile, RunList, RunListFrom, Means,
         MeansState,
         Honest, NoDefinitions;
    var loop := LoopAround(WriteList(c.body));
    ReadWhile(t, i, e, c);
    Bounded(t, i, e, WriteCommand(c));
    Take(t, i, e, Word(if c.until then UntilWord else WhileWord), WriteList(c.cond) + loop);
    var k := Split(t, i + 1, e, WriteList(c.cond), loop);
    var body, q := LoopParts(t, k, e, c.body);
    PassedList(o, t, i + 1, k, c.cond, s.last, s);
    ListIs(o, t, i + 1, false, s);
    MeansWhilePasses(o, t, i + 1, k, body, q, c, GUARD, s.last, s);
    var p := WhilePasses(o, t, i + 1, body, c.until, GUARD, s.last, s);
    BodyPassed(o, t, body, p.status, p.s);
    var r := RunWhile(o, t, i, true, c.until, s);
    assert r == WhileFrom(o, t, i + 1, body, c.until, true, s);
    SameState(p, r, DoCommand(o, c, s));
    Placed(s, r, DoCommand(o, c, s), e);
  }

  // ---------------------------------------------------------------------------------------------
  // case
  // ---------------------------------------------------------------------------------------------

  lemma {:induction false} ArmBodyPassed(o: Oracle, t: seq<Token>, i: nat, status: int, s: State)
    requires i <= |t|
    ensures RunArmBody(o, t, i, false, status, s).status == status
    decreases |t| - i
  {
    hide RunAndOr, RunArmBody, SkipNewlines, DoubleSemi;
    ArmRuns(o, t, i, false, status, s);
    var j := SkipNewlines(t, i);
    if !(DoubleSemi(t, j) || At(t, j) == Eof || Kw(t, j, EsacWord)) {
      var r := RunAndOr(o, t, j, false, s);
      if !DoubleSemi(t, r.next) {
        var k := if Sep(At(t, r.next)) then r.next + 1 else r.next;
        ArmBodyPassed(o, t, if k == j then j + 1 else k, status, r.s);
      }
    }
  }

  /** Once an arm has matched, the others report its status. */
  lemma {:induction false} ArmsMatched(o: Oracle, t: seq<Token>, i: nat, run: bool, word: Token, status: int, s: State)
    requires i <= |t|
    ensures RunArms(o, t, i, run, word, true, status, s).status == status
    decreases |t| - i
  {
    hide RunArmBody;
    if At(t, i) != Eof && !Kw(t, i, EsacWord) {
      ArmBodyPassed(o, t, ArmBody(t, i), status, s);
      var b := RunArm(o, t, i, false, status, s);
      ArmsMatched(o, t, b.next, run, word, status, b.s);
    }
  }

  /** A background mark inside an arm is stepped over by itself. */
  lemma AmpRuns(o: Oracle, t: seq<Token>, i: nat, status: int, s: State)
    requires i < |t| && At(t, i) == Amp && Calm(s)
    ensures RunArmBody(o, t, i, true, status, s) == RunArmBody(o, t, i + 1, true, s.last, s)
  {
    hide RunArmBody;
    ArmRuns(o, t, i, true, status, s);
    assert SkipNewlines(t, i) == i;
    assert RunPipeline(o, t, i, true, s) == Out(i, s.last, s);
    assert RunAndOr(o, t, i, true, s) == Out(i, s.last, s);
  }

  lemma ArmBlank(o: Oracle, t: seq<Token>, i: nat, status: int, s: State)
    requires i < |t| && At(t, i) == Newline
    ensures RunArmBody(o, t, i, true, status, s) == RunArmBody(o, t, i + 1, true, status, s)
  {
    hide RunAndOr, RunArmBody;
    ArmRuns(o, t, i, true, status, s);
    ArmRuns(o, t, i + 1, true, status, s);
    assert SkipNewlines(t, i) == SkipNewlines(t, i + 1);
  }

  /** An arm from the middle: its first command has been run and left nothing pending. */
  lemma ArmGoes(o: Oracle, t: seq<Token>, i: nat, j: nat, status: int, s: State)
    requires i < j < |t| && Starts(t, i) && RunAndOr(o, t, i, true, s).next == j
    requires DoubleSemi(t, j) || Sep(At(t, j)) || At(t, j) == Amp
    ensures var m := RunAndOr(o, t, i, true, s);
      RunArmBody(o, t, i, true, status, s) ==
        if DoubleSemi(t, j) then m
        else RunArmBody(o, t, if Sep(At(t, j)) then j + 1 else j, true, m.status, m.s)
  {
    hide RunAndOr, RunArmBody;
    ArmRuns(o, t, i, true, status, s);
    assert SkipNewlines(t, i) == i;
  }

  lemma ArmSteady(o: Oracle, t: seq<Token>, i: nat, status: int, s: State)
    requires i < |t| && Starts(t, i)
    ensures Steady(t, true, RunAndOr(o, t, i, true, s).s, RunArmBody(o, t, i, true, status, s).s)
  {
    hide RunAndOr, RunArmBody, Steady;
    ArmRuns(o, t, i, true, status, s);
    assert SkipNewlines(t, i) == i;
    SteadySame(t, true, RunAndOr(o, t, i, true, s).s);
  }

  lemma {:induction false} MeansArmBody(o: Oracle, t: seq<Token>, i: nat, e: nat, l: List, status: int, s: State)
    requires GoodList(l) && !EndsSemi(l) && Spans(t, i, e, WriteList(l)) && DoubleSemi(t, e) && Ready(o, t, s)
    ensures i <= |t| && Means(RunArmBody(o, t, i, true, status, s), DoArm(o, l, status, s), e)
    decreases l, 1
  {
    hide Spans, RunAndOr, RunArmBody, DoChain, Steady, Honest, NoDefinitions, SkipNewlines;
    Bounded(t, i, e, WriteList(l));
    match l
    case Empty =>
      Nothing(t, i, e);
      ArmRuns(o, t, i, true, status, s);
    case Blank(rest) =>
      Take(t, i, e, Newline, WriteList(rest));
      MeansArmBody(o, t, i + 1, e, rest, status, s);
      ArmBlank(o, t, i, status, s);
    case Bare(a) =>
      ArmNext(o, t, i, e, a, status, s);
    case Item(_, _, _) =>
      MeansArmRest(o, t, i, e, l, status, s);
  }

  lemma {:induction false} MeansArmRest(o: Oracle, t: seq<Token>, i: nat, e: nat, l: List, status: int, s: State)
    requires l.Item? && GoodList(l) && !EndsSemi(l) && Spans(t, i, e, WriteList(l)) && DoubleSemi(t, e)
    requires Ready(o, t, s)
    ensures i <= |t| && Means(RunArmBody(o, t, i, true, status, s), DoArm(o, l, status, s), e)
    decreases l, 0
  {
    hide Spans, RunAndOr, RunArmBody, DoChain, Steady, Honest, NoDefinitions, SkipNewlines, WriteAndOr;
    var Item(a, sep, rest) := l;
    Bounded(t, i, e, WriteList(l));
    var j := Split(t, i, e, WriteAndOr(a), [sep] + WriteList(rest));
    Take(t, j, e, sep, WriteList(rest));
    ReadArmBody(t, j + 1, e, rest);
    ArmNext(o, t, i, j, a, status, s);
    var d := DoChain(o, a, true, 0, sep == Amp, s);
    if Clear(RunArmBody(o, t, i, true, status, s).s) && d.s.flow == NoFlow {
      if sep == Amp { AmpRuns(o, t, j, d.status, d.s); }
      MeansArmBody(o, t, j + 1, e, rest, if sep == Amp then d.s.last else d.status, d.s);
    }
  }

  /** What follows the first command of an arm. */
  lemma {:induction false} ArmNext(o: Oracle, t: seq<Token>, i: nat, j: nat, a: AndOr, status: int, s: State)
    requires GoodAndOr(a) && Spans(t, i, j, WriteAndOr(a)) && FollowsList(t, j) && Ready(o, t, s) && j < |t|
    requires DoubleSemi(t, j) || Sep(At(t, j)) || At(t, j) == Amp
    ensures i < j && var r := RunArmBody(o, t, i, true, status, s);
      var d := DoChain(o, a, true, 0, At(t, j) == Amp, s);
      Clear(r.s) ==>
        && Clear(d.s)
        && if d.s.flow != NoFlow then MeansState(r, d)
           else if DoubleSemi(t, j) then r == Out(j, d.status, d.s)
           else r == RunArmBody(o, t, if Sep(At(t, j)) then j + 1 else j, true, d.status, d.s)
    decreases a, 5
  {
    hide Spans, RunAndOr, RunArmBody, DoChain, Steady, Honest, NoDefinitions;
    MeansArmItem(o, t, i, j, a, status, s);
    var m := RunAndOr(o, t, i, true, s);
    var r := RunArmBody(o, t, i, true, status, s);
    if Clear(r.s) {
      ArmSteady(o, t, i, status, s);
      ClearBefore(t, true, m.s, r.s);
      if m.s.flow == NoFlow {
        ArmGoes(o, t, i, j, status, s);
      }
    }
  }

  /** The first command of an arm; if it leaves something pending, that is the arm's result. */
  lemma {:induction false} MeansArmItem(o: Oracle, t: seq<Token>, i: nat, j: nat, a: AndOr, status: int, s: State)
    requires GoodAndOr(a) && Spans(t, i, j, WriteAndOr(a)) && FollowsList(t, j) && Ready(o, t, s)
    ensures i < j <= |t| && Starts(t, i)
    ensures Means(RunAndOr(o, t, i, true, s), DoChain(o, a, true, 0, At(t, j) == Amp, s), j)
    ensures RunAndOr(o, t, i, true, s).s.flow != NoFlow ==>
      var r := RunArmBody(o, t, i, true, status, s);
      var d := DoChain(o, a, true, 0, At(t, j) == Amp, s);
      Clear(r.s) ==> MeansState(r, d) && r.s.flow != NoFlow && d.s.flow != NoFlow
    decreases a, 4
  {
    hide Spans, RunAndOr, RunArmBody, DoChain, Steady, Honest, NoDefinitions;
    MeansAndOr(o, t, i, j, a, s);
    var m := RunAndOr(o, t, i, true, s);
    var r := RunArmBody(o, t, i, true, status, s);
    var d := DoChain(o, a, true, 0, At(t, j) == Amp, s);
    if m.s.flow != NoFlow && Clear(r.s) {
      ArmSteady(o, t, i, status, s);
      ClearBefore(t, true, m.s, r.s);
      ZeroAndOr(o, t, i, true, s);
      ZeroArmBody(o, t, i, true, status, s);
      ZeroAnyStatus(s, status, r);
      StillPending(t, true, s, m, d, 0, r);
    }
  }

  /** From a state with nothing pending, what was carried does not matter. */
  lemma ZeroAnyStatus(s: State, status: int, r: Out)
    requires Zero(s, status, r) && Calm(s)
    ensures Zero(s, 0, r)
  {
  }

  lemma {:induction false} MeansArms(o: Oracle, t: seq<Token>, i: nat, e: nat, word: Lexeme, arms: Arms, s: State)
    requires GoodArms(arms) && Spans(t, i, e, WriteArms(arms)) && Kw(t, e, EsacWord) && Ready(o, t, s)
    ensures i <= |t| && MeansState(RunArms(o, t, i, true, Word(word), false, s.last, s), DoArms(o, word, arms, s))
    decreases arms
  {
    hide Spans, RunArm, WriteList, DoArm, Steady, Honest, NoDefinitions, ArmPatterns, SkipArm;
    Bounded(t, i, e, WriteArms(arms));
    match arms
    case NoArms =>
      Nothing(t, i, e);
    case Arm(paren, patterns, body, breaks, rest) =>
      var m := Split(t, i, e, ArmAround(paren, patterns, WriteList(body), breaks), WriteArms(rest));
      ReadArms(t, m, e, rest);
      ReadArm(t, i, m, arms);
      ArmMatches(t, i, m, arms);
      if o.fits(s.history, Word(word), WritePatterns(patterns)) {
        MeansArm(o, t, i, m, arms, s);
        var b := RunArm(o, t, i, true, s.last, s);
        ArmsMatched(o, t, b.next, true, Word(word), b.status, b.s);
        MatchedStays(o, t, b.next, Word(word), b.status, b.s);
      } else {
        ArmPassed(o, t, i, m, s);
        MeansArms(o, t, m, e, word, rest, s);
      }
  }

  lemma MatchedStays(o: Oracle, t: seq<Token>, i: nat, word: Token, status: int, s: State)
    requires i <= |t| && NoDefinitions(t)
    ensures RunArms(o, t, i, true, word, true, status, s).s == s
  {
    hide RunArms, NoDefinitions;
    SteadyFlow(t, s, RunArms(o, t, i, true, word, true, status, s).s);
  }

  lemma ArmPassed(o: Oracle, t: seq<Token>, i: nat, m: nat, s: State)
    requires i <= |t| && At(t, i) != Eof && !Kw(t, i, EsacWord) && SkipArm(t, i) == m && NoDefinitions(t) && Calm(s)
    ensures RunArm(o, t, i, false, s.last, s) == Out(m, s.last, s)
  {
    hide RunArmBody, NoDefinitions, SkipArm;
    ArmBodyPassed(o, t, ArmBody(t, i), s.last, s);
    Skipped(t, s, RunArm(o, t, i, false, s.last, s), m);
  }

  /** Where the parts of an arm lie. */
  lemma ArmParts(t: seq<Token>, i: nat, e: nat, arms: Arms) returns (p: nat, r: nat, b: nat)
    requires arms.Arm? && GoodArms(arms) && !Sep(At(t, e))
    requires Spans(t, i, e, ArmAround(arms.paren, arms.patterns, WriteList(arms.body), arms.breaks))
    ensures i <= p <= r < b + 1 <= |t| && p == (if At(t, i) == LParen then i + 1 else i)
    ensures SkipPatterns(t, p) == r && ArmBody(t, i) == r + 1
    ensures Spans(t, p, r, WritePatterns(arms.patterns)) && Spans(t, r + 1, b, WriteList(arms.body)) && DoubleSemi(t, b)
  {
    hide Spans, WriteList, WritePatterns, SkipPatterns, Newlines;
    var Arm(paren, patterns, body, breaks, _) := arms;
    var close := [Semi] + ([Semi] + Newlines(breaks));
    var written := WritePatterns(patterns) + ([RParen] + (WriteList(body) + close));
    p := if paren then i + 1 else i;
    if paren { Take(t, i, e, LParen, written); } else { assert [] + written == written; }
    r := Split(t, p, e, WritePatterns(patterns), [RParen] + (WriteList(body) + close));
    Take(t, r, e, RParen, WriteList(body) + close);
    ReadPatterns(t, p, r, patterns);
    b := Split(t, r + 1, e, WriteList(body), close);
    ReadArmClose(t, b, e, breaks);
    Bounded(t, b, e, close);
  }

  lemma ArmMatches(t: seq<Token>, i: nat, e: nat, arms: Arms)
    requires arms.Arm? && GoodArms(arms) && !Sep(At(t, e))
    requires Spans(t, i, e, ArmAround(arms.paren, arms.patterns, WriteList(arms.body), arms.breaks))
    ensures ArmPatterns(t, i) == WritePatterns(arms.patterns)
  {
    hide Spans, WriteList, WritePatterns, SkipPatterns, Slice;
    var p, r, b := ArmParts(t, i, e, arms);
    SliceIs(t, p, r, WritePatterns(arms.patterns));
  }

  lemma {:induction false} MeansArm(o: Oracle, t: seq<Token>, i: nat, e: nat, arms: Arms, s: State)
    requires arms.Arm? && GoodArms(arms) && !Sep(At(t, e)) && Ready(o, t, s)
    requires At(t, i) != Eof && !Kw(t, i, EsacWord)
    requires Spans(t, i, e, ArmAround(arms.paren, arms.patterns, WriteList(arms.body), arms.breaks))
    ensures i <= |t| && MeansState(RunArm(o, t, i, true, s.last, s), DoArm(o, arms.body, s.last, s))
    decreases arms, 0
  {
    hide Spans, WriteList, RunArmBody, DoArm, Honest, NoDefinitions;
    var p, r, b := ArmParts(t, i, e, arms);
    MeansArmBody(o, t, r + 1, b, arms.body, s.last, s);
  }

  lemma {:induction false} MeansCase(o: Oracle, t: seq<Token>, i: nat, e: nat, c: Command, s: State)
    requires c.Case? && GoodCommand(c) && Spans(t, i, e, WriteCommand(c)) && Ready(o, t, s)
    ensures i < |t| && Means(RunCase(o, t, i, true, s), DoCommand(o, c, s), e)
    decreases c, 2
  {
    hide Spans, RunArms, SkipArms, SkipCase, WriteArms, Newlines, DoArms, Means, MeansState, Honest, NoDefinitions;
    var Case(word, breaks, arms) := c;
    ReadCase(t, i, e, c);
    Bounded(t, i, e, WriteCommand(c));
    var rest := Newlines(breaks) + (WriteArms(arms) + [Word(EsacWord)]);
    Take(t, i, e, Word(CaseWord), [Word(word)] + ([Word(InWord)] + rest));
    Take(t, i + 1, e, Word(word), [Word(InWord)] + rest);
    Take(t, i + 2, e, Word(InWord), rest);
    var m := Split(t, i + 3, e, Newlines(breaks), WriteArms(arms) + [Word(EsacWord)]);
    var a := Split(t, m, e, WriteArms(arms), [Word(EsacWord)]);
    Last(t, a, e, Word(EsacWord));
    ReadArms(t, m, a, arms);
    ReadNewlines(t, i + 3, m, breaks);
    assert CaseArms(t, i) == m;
    MeansArms(o, t, m, a, word, arms, s);
    var r := RunCase(o, t, i, true, s);
    SameState(RunArms(o, t, m, true, Word(word), false, s.last, s), r, DoCommand(o, c, s));
    Placed(s, r, DoCommand(o, c, s), e);
  }

  // ---------------------------------------------------------------------------------------------
  // Commands and programs
  // ---------------------------------------------------------------------------------------------

  lemma {:induction false} MeansBrace(o: Oracle, t: seq<Token>, i: nat, e: nat, c: Command, s: State)
    requires c.Brace? && GoodCommand(c) && Spans(t, i, e, WriteCommand(c)) && Ready(o, t, s)
    ensures i < |t| && Kw(t, i, OpenBrace)
    ensures var r := RunList(o, t, i + 1, true, s);
      Means(r.(next := if Kw(t, r.next, CloseBrace) then r.next + 1 else r.next), DoCommand(o, c, s), e)
    decreases c, 2
  {
    hide Spans, RunList, RunListFrom, DoList;
    var m := Inside(t, i, e, Word(OpenBrace), WriteList(c.body), Word(CloseBrace));
    MeansList(o, t, i + 1, m, c.body, s.last, s);
    ListIs(o, t, i + 1, true, s);
  }

  lemma MeansSubshell(o: Oracle, t: seq<Token>, i: nat, e: nat, c: Command, s: State)
    requires c.Subshell? && GoodCommand(c) && Spans(t, i, e, WriteCommand(c)) && Ready(o, t, s)
    ensures At(t, i) == LParen && i < |t| && Means(RunSubshell(o, t, i, true, s), DoCommand(o, c, s), e)
  {
    hide Spans, RunList, RunListFrom, WriteList;
    var m := Inside(t, i, e, LParen, WriteList(c.body), RParen);
    PassedList(o, t, i + 1, m, c.body, s.last, s);
    ListIs(o, t, i + 1, false, s);
    SliceIs(t, i + 1, m, WriteList(c.body));
  }

  lemma {:induction false} MeansCommand(o: Oracle, t: seq<Token>, i: nat, e: nat, c: Command, s: State)
    requires GoodCommand(c) && Spans(t, i, e, WriteCommand(c)) && Ready(o, t, s)
    requires c.Function? ==> FollowsList(t, e)
    ensures i <= |t| && Means(RunCommand(o, t, i, true, s), DoCommand(o, c, s), e)
    decreases c, 3
  {
    hide Spans, WriteCommand, GoodCommand, RunIf, RunFor, RunWhile, RunCase, RunList, RunSubshell, DoCommand, Means,
         Honest;
    Bounded(t, i, e, WriteCommand(c));
    NoDefinitionAt(t, 0, i);
    match c
    case If(_) =>
      ReadIf(t, i, e, c);
      MeansIfCommand(o, t, i, e, c, s);
    case For(_, _, _) =>
      ReadFor(t, i, e, c);
      MeansFor(o, t, i, e, c, s);
    case ForParams(_, _) =>
      ReadFor(t, i, e, c);
      MeansFor(o, t, i, e, c, s);
    case While(_, _, _) =>
      ReadWhile(t, i, e, c);
      MeansWhile(o, t, i, e, c, s);
    case Case(_, _, _) =>
      ReadCase(t, i, e, c);
      MeansCase(o, t, i, e, c, s);
    case Brace(_) =>
      MeansBrace(o, t, i, e, c, s);
    case Subshell(_) =>
      MeansSubshell(o, t, i, e, c, s);
    case Function(_, _, _) =>
      ReadFunction(t, i, e, c);
  }

  lemma {:induction false} MeansIfCommand(o: Oracle, t: seq<Token>, i: nat, e: nat, c: Command, s: State)
    requires c.If? && GoodCommand(c) && Spans(t, i, e, WriteCommand(c)) && Ready(o, t, s)
    ensures i + 1 <= |t| && Means(RunIf(o, t, i + 1, true, false, s), DoCommand(o, c, s), e)
    decreases c, 2
  {
    hide Spans, WriteWhen, RunIf, DoIf;
    Take(t, i, e, Word(IfWord), WriteWhen(c.branches));
    MeansIf(o, t, i + 1, e, c.branches, s);
  }

  /**
    The text of every program without definitions is executed as its tree says: the same commands in the same
    order, the same final state and status, up to the last token, unless something was run while a break,
    continue or return was pending, or a loop's condition left one pending.
   */
  lemma ProgramMeans(o: Oracle, l: List, s: State)
    requires GoodList(l) && Honest(o) && NoDefinitions(WriteList(l)) && Calm(s)
    ensures Means(RunList(o, WriteList(l), 0, true, s), DoList(o, l, s.last, s), |WriteList(l)|)
  {
    hide RunListFrom, DoList, Honest, NoDefinitions;
    var t := WriteList(l);
    assert t[0..|t|] == t;
    MeansList(o, t, 0, |t|, l, s.last, s);
    ListIs(o, t, 0, true, s);
  }
}
