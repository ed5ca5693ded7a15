/**
  Programs none of whose commands leaves a break, continue or return: nothing is ever pending, so the executor
  does what the tree means, and stops at the end of the text, without any condition on the run.
 */
module ShellCalm {
  import opened ShellSkip
  import opened ShellRun
  import opened ShellGrammar
  import ShellHalts
  import ShellMeaning
  import ShellProof

  /** No command that stands in the text leaves anything pending. */
  ghost predicate Tame(o: Oracle, t: seq<Token>) {
    forall h: seq<Action>, i: nat, j: nat, b: bool | i <= j <= |t| :: o.outcome(h + [Ran(t[i..j], b)]).flow == NoFlow
  }

  predicate Still(s: State) {
    s.flow == NoFlow && !s.intruded && !s.astray
  }

  lemma StillSkipped(t: seq<Token>, s: State, u: State)
    requires Still(s) && Steady(t, false, s, u)
    ensures Still(u)
  {
  }

  lemma StillSimple(o: Oracle, t: seq<Token>, i: nat, run: bool, s: State)
    requires Tame(o, t) && Still(s) && i <= |t|
    ensures Still(RunSimple(o, t, i, run, s).s) && Still(RunStages(o, t, i, run, s).s)
  {
    hide SkipSimple, SkipStages, SeesWord;
    var j := SkipSimple(t, i, false);
    assert Slice(t, i, j) == t[i..j];
  }

  lemma {:induction false} StillPipeline(o: Oracle, t: seq<Token>, i: nat, run: bool, s: State)
    requires Tame(o, t) && Still(s) && i <= |t|
    ensures Still(RunPipeline(o, t, i, run, s).s)
    decreases |t| - i, 3
  {
    hide Tame, RunCommand, RunSimple, RunStages;
    StillSimple(o, t, i, run, s);
    if CompoundStart(t, i) || Definition(t, i) {
      StillCommand(o, t, i, run, s);
    }
  }

  lemma {:induction false} StillAndOrRest(o: Oracle, t: seq<Token>, i: nat, run: bool, status: int, s: State)
    requires Tame(o, t) && Still(s) && i <= |t|
    ensures Still(RunAndOrRest(o, t, i, run, status, s).s)
    decreases |t| - i, 0
  {
    hide Tame, RunPipeline;
    if Joins(At(t, i)) {
      var doRun := run && (At(t, i) == AndIf <==> status == 0);
      var r := RunPipeline(o, t, SkipNewlines(t, i + 1), doRun, s);
      StillPipeline(o, t, SkipNewlines(t, i + 1), doRun, s);
      StillAndOrRest(o, t, r.next, run, if doRun then r.status else status, r.s);
    }
  }

  lemma {:induction false} StillAndOr(o: Oracle, t: seq<Token>, i: nat, run: bool, s: State)
    requires Tame(o, t) && Still(s) && i <= |t|
    ensures Still(RunAndOr(o, t, i, run, s).s)
    decreases |t| - i, 4
  {
    hide Tame, RunPipeline, RunAndOrRest;
    var r := RunPipeline(o, t, i, run, s);
    StillPipeline(o, t, i, run, s);
    StillAndOrRest(o, t, r.next, run, r.status, r.s);
  }

  lemma {:induction false} StillListFrom(o: Oracle, t: seq<Token>, i: nat, run: bool, status: int, s: State)
    requires Tame(o, t) && Still(s) && i <= |t|
    ensures Still(RunListFrom(o, t, i, run, status, s).s)
    decreases |t| - i, 5
  {
    hide Tame, RunAndOr, RunListFrom, Steady, Agrees, SkipSeps, BlockEnd;
    ListRuns(o, t, i, run, status, s);
    var j := SkipSeps(t, i);
    if !BlockEnd(t, j) {
      var r := RunAndOr(o, t, j, run, s);
      StillAndOr(o, t, j, run, s);
      if At(t, r.next) == Amp || !BlockEnd(t, r.next) {
        assert !Stuck(t, j) ==> r.next > j;
        StillListFrom(o, t, if At(t, r.next) == Amp then r.next + 1 else r.next, run, r.status, r.s);
      }
    }
  }

  lemma {:induction false} StillList(o: Oracle, t: seq<Token>, i: nat, run: bool, s: State)
    requires Tame(o, t) && Still(s) && i <= |t|
    ensures Still(RunList(o, t, i, run, s).s)
    decreases |t| - i, 6
  {
    hide Tame, RunListFrom;
    StillListFrom(o, t, i, run, s.last, s);
  }

  lemma {:induction false} StillCommand(o: Oracle, t: seq<Token>, i: nat, run: bool, s: State)
    requires Tame(o, t) && Still(s) && i <= |t|
    ensures Still(RunCommand(o, t, i, run, s).s)
    decreases |t| - i, 2
  {
    hide Tame, RunIf, RunFor, RunWhile, RunCase, RunList, RunSubshell, RunSimple, Define, Steady, Still;
    if Definition(t, i) {
      StillSkipped(t, s, Define(o, t, i, s).s);
    } else if Kw(t, i, IfWord) {
      StillIf(o, t, i + 1, run, false, s);
    } else if Kw(t, i, ForWord) {
      StillFor(o, t, i, run, s);
    } else if Kw(t, i, WhileWord) {
      StillWhile(o, t, i, run, false, s);
    } else if Kw(t, i, UntilWord) {
      StillWhile(o, t, i, run, true, s);
    } else if Kw(t, i, CaseWord) {
      StillCase(o, t, i, run, s);
    } else if Kw(t, i, OpenBrace) {
      StillList(o, t, i + 1, run, s);
    } else if At(t, i) == LParen {
      StillSubshell(o, t, i, run, s);
    } else {
      StillSimple(o, t, i, run, s);
    }
  }

  lemma StillSubshell(o: Oracle, t: seq<Token>, i: nat, run: bool, s: State)
    requires Still(s) && At(t, i) == LParen
    ensures Still(RunSubshell(o, t, i, run, s).s)
  {
    hide RunList;
    StillSkipped(t, s, RunList(o, t, i + 1, false, s).s);
  }

  lemma {:induction false} StillClause(o: Oracle, t: seq<Token>, i: nat, run: bool, s: State)
    requires Tame(o, t) && Still(s) && i <= |t|
    ensures Still(RunClause(o, t, i, run, s).r.s)
    decreases |t| - i, 7
  {
    hide Tame, RunList, Steady, Agrees;
    var c := RunList(o, t, i, run, s);
    StillList(o, t, i, run, s);
    var a := SkipSeps(t, c.next);
    StillList(o, t, if Kw(t, a, ThenWord) then a + 1 else a, run && c.status == 0, c.s);
  }

  lemma {:induction false} StillIf(o: Oracle, t: seq<Token>, i: nat, run: bool, taken: bool, s: State)
    requires Tame(o, t) && Still(s) && i <= |t|
    ensures Still(RunIf(o, t, i, run, taken, s).s)
    decreases |t| - i, 9
  {
    hide Tame, RunClause, RunAfter, Steady, Agrees;
    var c := RunClause(o, t, i, run && !taken, s);
    StillClause(o, t, i, run && !taken, s);
    StillAfter(o, t, c.r.next, run, taken || c.taken, c.r.status, c.r.s);
  }

  lemma {:induction false} StillAfter(o: Oracle, t: seq<Token>, i: nat, run: bool, taken: bool, result: int, s: State)
    requires Tame(o, t) && Still(s) && i <= |t|
    ensures Still(RunAfter(o, t, i, run, taken, result, s).s)
    decreases |t| - i, 8
  {
    hide Tame, RunList;
    if Kw(t, i, ElifWord) {
      hide RunElse;
      StillIf(o, t, i + 1, run, taken, s);
    } else if Kw(t, i, ElseWord) {
      StillList(o, t, i + 1, run && !taken, s);
    }
  }

  lemma {:induction false} StillForPasses(o: Oracle, t: seq<Token>, name: Token, body: nat, n: nat, count: nat,
                                          status: int, s: State)
    requires Tame(o, t) && Still(s) && body <= |t| && n <= count
    ensures Still(ForPasses(o, t, name, body, n, count, status, s).s)
    decreases |t| - body, 8, count - n
  {
    hide Tame, RunList;
    if n < count {
      var r := RunList(o, t, body, true, Bind(s, name, n));
      StillList(o, t, body, true, Bind(s, name, n));
      StillForPasses(o, t, name, body, n + 1, count, r.status, r.s);
    }
  }

  lemma {:induction false} StillFor(o: Oracle, t: seq<Token>, i: nat, run: bool, s: State)
    requires Tame(o, t) && Still(s) && i < |t|
    ensures Still(RunFor(o, t, i, run, s).s)
    decreases |t| - i, 1
  {
    hide Tame, ForPasses, PassBody, Steady, ForBody, Still;
    var body, count := ForBody(t, i), ForCount(o, t, i, s.history);
    assert s.flow == NoFlow by { StillMeans(s); }
    if run {
      StillForPasses(o, t, At(t, i + 1), body, 0, count, s.last, s);
    }
    var p := if run then ForPasses(o, t, At(t, i + 1), body, 0, count, s.last, s) else Out(body, s.last, s);
    StillSkipped(t, p.s, PassBody(o, t, body, p.status, p.s).s);
  }

  lemma StillMeans(s: State)
    requires Still(s)
    ensures s.flow == NoFlow && Calm(s)
  {
  }

  lemma {:induction false} StillWhilePasses(o: Oracle, t: seq<Token>, cond: nat, body: nat, until: bool, left: nat,
                                            status: int, s: State)
    requires Tame(o, t) && Still(s) && cond <= body <= |t|
    ensures Still(WhilePasses(o, t, cond, body, until, left, status, s).s)
    decreases |t| - cond, 8, left
  {
    hide Tame, RunList, Steady, Agrees;
    if left > 0 {
      var c := RunList(o, t, cond, true, s);
      StillList(o, t, cond, true, s);
      if (c.status == 0) != until {
        var r := RunList(o, t, body, true, c.s);
        StillList(o, t, body, true, c.s);
        assert Marked(c.s) == c.s;
        StillWhilePasses(o, t, cond, body, until, left - 1, r.status, r.s);
      }
    }
  }

  lemma {:induction false} StillWhile(o: Oracle, t: seq<Token>, i: nat, run: bool, until: bool, s: State)
    requires Tame(o, t) && Still(s) && i < |t|
    ensures Still(RunWhile(o, t, i, run, until, s).s)
    decreases |t| - i, 1
  {
    hide Tame, RunList, WhilePasses, PassBody, Steady, Still;
    var c := RunList(o, t, i + 1, false, s);
    StillSkipped(t, s, c.s);
    StillMeans(s);
    StillMeans(c.s);
    var body := if Kw(t, c.next, DoWord) then c.next + 1 else c.next;
    if run {
      StillWhilePasses(o, t, i + 1, body, until, GUARD, c.s.last, c.s);
    }
    var p := if run then WhilePasses(o, t, i + 1, body, until, GUARD, c.s.last, c.s) else Out(body, c.s.last, c.s);
    StillSkipped(t, p.s, PassBody(o, t, body, p.status, p.s).s);
    assert RunWhile(o, t, i, run, until, s) == WhileFrom(o, t, i + 1, body, until, run, c.s);
  }

  lemma {:induction false} StillArmBody(o: Oracle, t: seq<Token>, i: nat, run: bool, status: int, s: State)
    requires Tame(o, t) && Still(s) && i <= |t|
    ensures Still(RunArmBody(o, t, i, run, status, s).s)
    decreases |t| - i, 5
  {
    hide Tame, RunAndOr, RunArmBody, Steady, Agrees, DoubleSemi, Kw, BlockEnd, Stuck, SkipNewlines;
    ArmRuns(o, t, i, run, status, s);
    var j := SkipNewlines(t, i);
    if !(DoubleSemi(t, j) || At(t, j) == Eof || Kw(t, j, EsacWord)) {
      var r := RunAndOr(o, t, j, run, s);
      StillAndOr(o, t, j, run, s);
      if !DoubleSemi(t, r.next) {
        var k := if Sep(At(t, r.next)) then r.next + 1 else r.next;
        StillArmBody(o, t, if k == j then j + 1 else k, run, if run then r.status else status, r.s);
      }
    }
  }

  lemma {:induction false} StillArms(o: Oracle, t: seq<Token>, i: nat, run: bool, word: Token, matched: bool,
                                     status: int,
                                     s: State)
    requires Tame(o, t) && Still(s) && i <= |t|
    ensures Still(RunArms(o, t, i, run, word, matched, status, s).s)
    decreases |t| - i, 7
  {
    hide Tame, RunArmBody, Steady, Agrees, ArmPatterns, BlockEnd, Kw;
    if At(t, i) != Eof && !Kw(t, i, EsacWord) {
      var now := run && !matched && o.fits(s.history, word, ArmPatterns(t, i));
      var b := RunArm(o, t, i, now, status, s);
      StillArmBody(o, t, ArmBody(t, i), now, status, s);
      StillArms(o, t, b.next, run, word, matched || now, b.status, b.s);
    }
  }

  lemma {:induction false} StillCase(o: Oracle, t: seq<Token>, i: nat, run: bool, s: State)
    requires Tame(o, t) && Still(s) && i < |t|
    ensures Still(RunCase(o, t, i, run, s).s)
    decreases |t| - i, 1
  {
    hide Tame, RunArms;
    StillArms(o, t, CaseArms(t, i), run, At(t, i + 1), false, s.last, s);
  }

  /** Without conditions on the run: the tree's state, its status, and the last token. */
  lemma TameProgramMeans(o: Oracle, l: List, s: State)
    requires GoodList(l) && ShellHalts.Honest(o) && NoDefinitions(WriteList(l)) && Still(s)
    requires Tame(o, WriteList(l))
    ensures var d := ShellMeaning.DoList(o, l, s.last, s);
      RunList(o, WriteList(l), 0, true, s) == Out(|WriteList(l)|, d.status, d.s)
  {
    hide RunList, ShellMeaning.DoList, ShellHalts.Honest, NoDefinitions, Tame;
    StillList(o, WriteList(l), 0, true, s);
    ShellProof.ProgramMeans(o, l, s);
  }

  /** The builtins that leave something pending. */
  const LEAVING: set<Token> := {Word(Text("break")), Word(Text("continue")), Word(Text("return"))}

  /** Nothing but those builtins leaves anything pending: no function is called that does. */
  ghost predicate OnlyBuiltins(o: Oracle) {
    forall h: seq<Action>, cmd: seq<Token>, b: bool |
      o.outcome(h + [Ran(cmd, b)]).flow != NoFlow :: exists k | 0 <= k < |cmd| :: cmd[k] in LEAVING
  }
}
