/** Where the executor of run.c and the meaning of a program part ways, and what an `if` reports. */
module ShellLimits {
  import opened ShellSkip
  import opened ShellRun
  import opened ShellGrammar
  import opened ShellHalts
  import opened ShellMeaning
  import opened ShellProof
  import opened ShellCalm
  import opened ShellOrderly

  const BREAK := Word(Text("break"))
  const ECHO := Word(Text("echo"))

  /** `break && echo`. */
  const BREAK_AND: List :=
    Bare(Chain(Plain(Final(Simple(Text("break"), NoArgs))), true, 0, Only(Plain(Final(Simple(Text("echo"), NoArgs))))))

  lemma BreakAndText()
    ensures WriteList(BREAK_AND) == [BREAK, AndIf, ECHO] && GoodList(BREAK_AND)
  {
    var b, e := Simple(Text("break"), NoArgs), Simple(Text("echo"), NoArgs);
    assert WriteSimple(b) == [BREAK] && WriteSimple(e) == [ECHO];
    assert WriteAndOr(Only(Plain(Final(e)))) == [ECHO];
    assert Newlines(0) == [];
    assert WriteAndOr(BREAK_AND.a) == [BREAK] + ([AndIf] + ([] + [ECHO]));
  }

  /** A command of one word. */
  lemma RunWord(o: Oracle, t: seq<Token>, i: nat, run: bool, s: State)
    requires i < |t| && At(t, i).Word? && !BlockEnd(t, i) && !CompoundStart(t, i) && At(t, i + 1) in {AndIf, Semi, Eof}
    ensures var w := if run && s.flow != NoFlow then s.(intruded := true) else s;
      var u := if run then Perform(o, w, Ran([t[i]], false)) else w;
      RunPipeline(o, t, i, run, s) == Out(i + 1, u.last, u)
  {
    assert RedirectLength(t, i + 1) == 0;
    assert SkipSimple(t, i, false) == i + 1;
    assert Slice(t, i, i + 1) == [t[i]];
    assert !Definition(t, i);
  }

  /** The same as a whole chain. */
  lemma RunWordAlone(o: Oracle, t: seq<Token>, i: nat, run: bool, s: State)
    requires i < |t| && At(t, i).Word? && !BlockEnd(t, i) && !CompoundStart(t, i) && At(t, i + 1) in {Semi, Eof}
    ensures RunAndOr(o, t, i, run, s) == RunPipeline(o, t, i, run, s) && RunPipeline(o, t, i, run, s).next == i + 1
  {
    hide RunPipeline;
    RunWord(o, t, i, run, s);
  }

  /** A break in front of `&&` does not stop what follows: the executor starts a command that the tree does not. */
  lemma BreakRunsOn(o: Oracle, s: State)
    requires Calm(s)
    requires var r := o.outcome(s.history + [Ran([BREAK], false)]); r.flow == Break && r.status == 0
    ensures var h := s.history + [Ran([BREAK], false)];
      && DoList(o, BREAK_AND, s.last, s).s.history == h
      && RunList(o, WriteList(BREAK_AND), 0, true, s).s.history == h + [Ran([ECHO], false)]
  {
    BreakAndText();
    BreakAndMeans(o, s);
    BreakAndRuns(o, [BREAK, AndIf, ECHO], s);
    hide RunListFrom, DoList, WriteList;
  }

  lemma BreakAndRuns(o: Oracle, t: seq<Token>, s: State)
    requires t == [BREAK, AndIf, ECHO] && Calm(s)
    requires var r := o.outcome(s.history + [Ran([BREAK], false)]); r.flow == Break && r.status == 0
    ensures RunList(o, t, 0, true, s).s.history == s.history + [Ran([BREAK], false)] + [Ran([ECHO], false)]
  {
    hide RunPipeline, RunAndOrRest, RunListFrom, SkipNewlines, SkipSeps;
    var u := Perform(o, s, Ran([BREAK], false));
    var v := Perform(o, u.(intruded := true), Ran([ECHO], false));
    BreakAndStops(t);
    RunWord(o, t, 0, true, s);
    RunWord(o, t, 2, true, u);
    RestGoes(o, t, 1, 2, 0, u);
    RestEnds(o, t, 3, v.last, v);
    ListRuns(o, t, 0, true, s.last, s);
  }

  lemma BreakAndStops(t: seq<Token>)
    requires t == [BREAK, AndIf, ECHO]
    ensures SkipNewlines(t, 2) == 2 && SkipSeps(t, 0) == 0
  {
  }

  lemma BreakAndMeans(o: Oracle, s: State)
    requires o.outcome(s.history + [Ran([BREAK], false)]).flow != NoFlow
    ensures DoList(o, BREAK_AND, s.last, s).s == Perform(o, s, Ran([BREAK], false))
  {
    assert WriteSimple(Simple(Text("break"), NoArgs)) == [BREAK];
  }

  // ---------------------------------------------------------------------------------------------
  // Where skipping and running part
  // ---------------------------------------------------------------------------------------------

  const F := Word(Text("f"))
  const X := Word(Text("x"))

  /** `if break; f; then x; fi`. */
  const IF_BREAK: seq<Token> :=
    [Word(IfWord), BREAK, Semi, F, Semi, Word(ThenWord), X, Semi, Word(FiWord)]

  /** With an f that clears the break, it is left at its `then` with nothing pending; skipped, it ends behind `fi`. */
  lemma IfStrays(o: Oracle, s: State)
    requires Calm(s)
    requires var h := s.history + [Ran([BREAK], false)];
      && o.outcome(h).flow == Break && o.outcome(h).status == 0
      && o.outcome(h + [Ran([F], false)]).flow == NoFlow
    ensures var r := RunPipeline(o, IF_BREAK, 0, true, s);
      r.s.flow == NoFlow && r.next == 5 && At(IF_BREAK, 5) == Word(ThenWord) && SkipPipeline(IF_BREAK, 0) == 9
  {
    var t := IF_BREAK;
    var u := Perform(o, s, Ran([BREAK], false));
    var v := Perform(o, u.(intruded := true), Ran([F], false));
    IfBreakText();
    IfBreakHead(o, s);
    hide RunAndOr, RunListFrom, SkipIf, SkipSeps;
    IfRuns(o, t, 1, true, false, s);
    assert RunIf(o, t, 1, true, false, s) == Out(5, v.last, v);
  }

  lemma SkipWord(t: seq<Token>, i: nat)
    requires i < |t| && At(t, i).Word? && !BlockEnd(t, i) && !CompoundStart(t, i) && At(t, i + 1) in {Semi, Eof}
    ensures SkipAndOr(t, i) == i + 1
  {
    assert RedirectLength(t, i + 1) == 0;
    assert SkipSimple(t, i, false) == i + 1;
  }

  lemma IfBreakSeps()
    ensures var t := IF_BREAK;
      && SkipSeps(t, 1) == 1 && SkipSeps(t, 2) == 3 && SkipSeps(t, 3) == 3 && SkipSeps(t, 4) == 5 && SkipSeps(t, 5) == 5
      && SkipSeps(t, 6) == 6 && SkipSeps(t, 7) == 8 && SkipSeps(t, 8) == 8
  {
  }

  lemma IfBreakText()
    ensures SkipPipeline(IF_BREAK, 0) == 9
  {
    hide SkipList, SkipAndOr, SkipSeps, SkipAfter;
    var t := IF_BREAK;
    IfBreakSeps();
    SkipWord(t, 1);
    SkipWord(t, 3);
    SkipWord(t, 6);
    ListStep(t, 1);
    ListStep(t, 2);
    ListStep(t, 4);
    ListStep(t, 6);
    ListStep(t, 7);
    assert SkipClause(t, 1) == 8;
    SkipFi(t, 8);
    assert SkipIf(t, 1) == 9;
  }

  lemma SkipFi(t: seq<Token>, i: nat)
    requires i < |t| && t[i] == Word(FiWord)
    ensures SkipAfter(t, i) == i + 1
  {
  }

  lemma IfBreakHead(o: Oracle, s: State)
    requires Calm(s)
    requires var h := s.history + [Ran([BREAK], false)];
      && o.outcome(h).flow == Break && o.outcome(h).status == 0
      && o.outcome(h + [Ran([F], false)]).flow == NoFlow
    ensures var u := Perform(o, s, Ran([BREAK], false));
      var v := Perform(o, u.(intruded := true), Ran([F], false));
      RunClause(o, IF_BREAK, 1, true, s) == Clause(Out(5, v.last, v), true)
  {
    var t := IF_BREAK;
    var u := Perform(o, s, Ran([BREAK], false));
    var v := Perform(o, u.(intruded := true), Ran([F], false));
    IfBreakSeps();
    RunWord(o, t, 1, true, s);
    RunWordAlone(o, t, 1, true, s);
    RunWord(o, t, 3, true, u);
    RunWordAlone(o, t, 3, true, u);
    hide RunPipeline, RunAndOr, RunListFrom, SkipSeps;
    ListRuns(o, t, 1, true, s.last, s);
    ListRuns(o, t, 3, true, u.last, u);
    ListRuns(o, t, 4, true, v.last, v);
  }

  // ---------------------------------------------------------------------------------------------
  // What an `if` reports
  // ---------------------------------------------------------------------------------------------

  /** Stepping over the pipeline reports 0: it is an `if` or `case`, or a group that ends in one. */
  predicate ResetsPipeline(p: Pipeline) {
    p.Compound? && (p.c.If? || p.c.Case? || (p.c.Brace? && ResetsList(p.c.body, false)))
  }

  predicate ResetsList(l: List, before: bool) {
    match l
    case Empty => before
    case Blank(rest) => ResetsList(rest, before)
    case Bare(a) => ResetsPipeline(a.p)
    case Item(a, _, rest) => ResetsList(rest, ResetsPipeline(a.p))
  }

  /** The last branch stepped over ends in a command that resets the status. */
  predicate ResetsTail(tail: Branches) {
    match tail
    case Fi => false
    case Else(body) => ResetsList(body, false)
    case When(_, thn, rest) => if rest.Fi? then ResetsList(thn, false) else ResetsTail(rest)
  }

  lemma {:induction false} PipelineReports(p: Pipeline, last: int)
    ensures PassPipeline(p, last) == if ResetsPipeline(p) then 0 else last
    decreases p, 1
  {
    if p.Compound? && p.c.Brace? {
      ListReports(p.c.body, false, last);
    }
  }

  lemma {:induction false} ListReports(l: List, before: bool, last: int)
    ensures PassList(l, if before then 0 else last, last) == if ResetsList(l, before) then 0 else last
    decreases l, 0
  {
    match l
    case Empty =>
    case Blank(rest) => ListReports(rest, before, last);
    case Bare(a) => PipelineReports(a.p, last);
    case Item(a, _, rest) =>
      PipelineReports(a.p, last);
      ListReports(rest, ResetsPipeline(a.p), last);
  }

  /** What the branches behind the taken one make of its status. */
  lemma {:induction false} TailReports(tail: Branches, result: int, last: int)
    ensures PassTail(tail, result, last) == if tail.Fi? then result else if ResetsTail(tail) then 0 else last
    decreases tail
  {
    match tail
    case Fi =>
    case Else(body) => ListReports(body, false, last);
    case When(_, thn, rest) =>
      ListReports(thn, false, last);
      TailReports(rest, PassList(thn, last, last), last);
  }

  /**
    An `if` that takes its first branch reports that branch's status if and only if no other branch follows, or
    stepping over the others happens to report the same: 0 if they end in an `if` or `case`, else the last one.
   */
  lemma IfStatusExactly(o: Oracle, b: Branches, s: State)
    requires b.When?
    requires var c := DoList(o, b.cond, s.last, s); c.s.flow == NoFlow && c.status == 0
    ensures var c := DoList(o, b.cond, s.last, s);
      var d := DoList(o, b.thn, c.s.last, c.s);
      d.s.flow == NoFlow ==>
        (DoIf(o, b, s).status == d.status <==>
          b.tail.Fi? || d.status == if ResetsTail(b.tail) then 0 else d.s.last)
  {
    hide DoList, PassTail, ResetsTail;
    var c := DoList(o, b.cond, s.last, s);
    var d := DoList(o, b.thn, c.s.last, c.s);
    TailReports(b.tail, d.status, d.s.last);
  }

  /** The same of the executor, wherever the text of an orderly `if` stands. */
  lemma RunIfStatusExactly(o: Oracle, t: seq<Token>, i: nat, e: nat, b: Branches, s: State)
    requires b.When? && GoodTail(b) && OrderlyTail(b) && Spans(t, i, e, WriteWhen(b)) && Fit(o, t, s)
    requires LeavingTail(b) ==> Unjoined(t)
    requires DoList(o, b.cond, s.last, s).status == 0
    ensures i <= |t| && var c := DoList(o, b.cond, s.last, s);
      var d := DoList(o, b.thn, c.s.last, c.s);
      var r := RunIf(o, t, i, true, false, s);
      d.s.flow == NoFlow ==>
        (r.status == d.status <==> b.tail.Fi? || d.status == if ResetsTail(b.tail) then 0 else d.s.last)
  {
    hide Spans, DoList, RunIf, ResetsTail, Honest, NoDefinitions, OnlyBuiltins, Unjoined, LeavingTail, OrderlyTail;
    MeansIf(o, t, i, e, b, s);
    OrderIf(o, t, i, e, b, s);
    QuietCondition(o, t, i, e, b, s);
    IfStatusExactly(o, b, s);
  }

  /** The condition of an orderly `if` leaves nothing pending. */
  lemma QuietCondition(o: Oracle, t: seq<Token>, i: nat, e: nat, b: Branches, s: State)
    requires b.When? && GoodTail(b) && OrderlyTail(b) && Spans(t, i, e, WriteWhen(b)) && Fit(o, t, s)
    requires LeavingTail(b) ==> Unjoined(t)
    ensures DoList(o, b.cond, s.last, s).s.flow == NoFlow
  {
    hide Spans, DoList, RunListFrom, Honest, NoDefinitions, OnlyBuiltins, Unjoined, LeavingList, OrderlyList;
    var c, d := WhenParts(t, i, e, b);
    MeansList(o, t, i, c, b.cond, s.last, s);
    OrderList(o, t, i, c, b.cond, s.last, s);
  }
}
