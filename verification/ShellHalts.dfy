/**
  A break or continue on its way out of nested commands reports status 0 from every one of them, however the
  parser stands in the middle of what it left: the status a loop reports when it catches one.
 */
module ShellHalts {
  import opened ShellSkip
  import opened ShellRun

  /** A break or continue is on its way to its loop. */
  predicate Halted(s: State) {
    s.flow == Break || s.flow == Continue
  }

  /** The builtins break and continue report 0. */
  ghost predicate Honest(o: Oracle) {
    forall h :: o.outcome(h).flow == Break || o.outcome(h).flow == Continue ==> o.outcome(h).status == 0
  }

  predicate Clear(s: State) {
    !s.intruded && !s.astray
  }

  predicate Zero(s: State, status: int, r: Out) {
    (Halted(s) ==> s.last == 0 && status == 0) && Clear(r.s) && Halted(r.s) ==> r.status == 0 && r.s.last == 0
  }

  lemma ZeroNext(t: seq<Token>, s: State, status: int, m: Out, carried: int, run: bool, r: Out)
    requires Zero(s, status, m) && Zero(m.s, carried, r) && Steady(t, run, m.s, r.s)
    requires Halted(m.s) ==> carried == 0 || carried == m.status
    ensures Zero(s, status, r)
  {
  }

  lemma ZeroSimple(o: Oracle, t: seq<Token>, i: nat, run: bool, s: State)
    requires Honest(o) && i <= |t| && (run && s.flow != NoFlow ==> s.intruded)
    ensures Zero(s, 0, RunSimple(o, t, i, run, s)) && Zero(s, 0, RunStages(o, t, i, run, s))
  {
    hide SkipSimple, SkipStages, SeesWord;
  }

  lemma {:induction false} ZeroPipeline(o: Oracle, t: seq<Token>, i: nat, run: bool, s: State)
    requires Honest(o) && NoDefinitions(t) && i <= |t|
    ensures Zero(s, 0, RunPipeline(o, t, i, run, s))
    decreases |t| - i, 3
  {
    hide Honest, NoDefinitions, RunCommand, RunSimple, RunStages, Steady;
    var u := if run && s.flow != NoFlow then s.(intruded := true) else s;
    ZeroSimple(o, t, i, run, u);
    if CompoundStart(t, i) || Definition(t, i) {
      ZeroCommand(o, t, i, run, u);
    }
    StaysIntruded(t, run, u, RunPipeline(o, t, i, run, s));
  }

  lemma StaysIntruded(t: seq<Token>, run: bool, u: State, r: Out)
    ensures Steady(t, run, u, r.s) && u.intruded ==> r.s.intruded
  {
  }

  lemma {:induction false} ZeroAndOrRest(o: Oracle, t: seq<Token>, i: nat, run: bool, status: int, s: State)
    requires Honest(o) && NoDefinitions(t) && i <= |t|
    ensures Zero(s, status, RunAndOrRest(o, t, i, run, status, s))
    decreases |t| - i, 0
  {
    hide Honest, NoDefinitions, RunPipeline;
    if Joins(At(t, i)) {
      var doRun := run && (At(t, i) == AndIf <==> status == 0);
      var r := RunPipeline(o, t, SkipNewlines(t, i + 1), doRun, s);
      ZeroPipeline(o, t, SkipNewlines(t, i + 1), doRun, s);
      ZeroAndOrRest(o, t, r.next, run, if doRun then r.status else status, r.s);
    }
  }

  lemma {:induction false} ZeroAndOr(o: Oracle, t: seq<Token>, i: nat, run: bool, s: State)
    requires Honest(o) && NoDefinitions(t) && i <= |t|
    ensures Zero(s, 0, RunAndOr(o, t, i, run, s))
    decreases |t| - i, 4
  {
    hide Honest, NoDefinitions, RunPipeline, RunAndOrRest, Steady;
    var r := RunPipeline(o, t, i, run, s);
    ZeroPipeline(o, t, i, run, s);
    ZeroAndOrRest(o, t, r.next, run, r.status, r.s);
    ZeroNext(t, s, 0, r, r.status, run, RunAndOrRest(o, t, r.next, run, r.status, r.s));
  }

  lemma {:induction false} ZeroListFrom(o: Oracle, t: seq<Token>, i: nat, run: bool, status: int, s: State)
    requires Honest(o) && NoDefinitions(t) && i <= |t|
    ensures Zero(s, status, RunListFrom(o, t, i, run, status, s))
    decreases |t| - i, 5
  {
    hide Honest, NoDefinitions, RunAndOr, RunListFrom, Steady, Agrees, SkipSeps;
    ListRuns(o, t, i, run, status, s);
    var j := SkipSeps(t, i);
    if !BlockEnd(t, j) {
      var r := RunAndOr(o, t, j, run, s);
      ZeroAndOr(o, t, j, run, s);
      if !(r.s.flow != NoFlow || (At(t, r.next) != Amp && BlockEnd(t, r.next))) {
        var n := if At(t, r.next) == Amp then r.next + 1 else r.next;
        ZeroListFrom(o, t, n, run, r.status, r.s);
        ZeroNext(t, s, status, r, r.status, run, RunListFrom(o, t, n, run, r.status, r.s));
      }
    }
  }

  lemma {:induction false} ZeroList(o: Oracle, t: seq<Token>, i: nat, run: bool, s: State)
    requires Honest(o) && NoDefinitions(t) && i <= |t|
    ensures Zero(s, 0, RunList(o, t, i, run, s))
    decreases |t| - i, 6
  {
    hide Honest, NoDefinitions, RunListFrom;
    ZeroListFrom(o, t, i, run, s.last, s);
  }

  lemma {:induction false} ZeroCommand(o: Oracle, t: seq<Token>, i: nat, run: bool, s: State)
    requires Honest(o) && NoDefinitions(t) && i <= |t| && (run && s.flow != NoFlow ==> s.intruded)
    ensures Zero(s, 0, RunCommand(o, t, i, run, s))
    decreases |t| - i, 2
  {
    hide Honest, RunIf, RunFor, RunWhile, RunCase, RunList, RunSubshell, RunSimple, Steady, Zero;
    NoDefinitionAt(t, 0, i);
    if Kw(t, i, IfWord) {
      ZeroIf(o, t, i + 1, run, false, s);
    } else if Kw(t, i, ForWord) {
      ZeroFor(o, t, i, run, s);
    } else if Kw(t, i, WhileWord) {
      ZeroWhile(o, t, i, run, false, s);
    } else if Kw(t, i, UntilWord) {
      ZeroWhile(o, t, i, run, true, s);
    } else if Kw(t, i, CaseWord) {
      ZeroCase(o, t, i, run, s);
    } else if Kw(t, i, OpenBrace) {
      ZeroList(o, t, i + 1, run, s);
      ZeroOf(s, 0, RunList(o, t, i + 1, run, s), RunCommand(o, t, i, run, s));
    } else if At(t, i) == LParen {
      ZeroSubshell(o, t, i, run, s);
    } else {
      ZeroSimple(o, t, i, run, s);
    }
  }

  /** Only where it stops is different. */
  lemma ZeroOf(s: State, status: int, a: Out, b: Out)
    requires Zero(s, status, a) && b.status == a.status && b.s == a.s
    ensures Zero(s, status, b)
  {
  }

  lemma {:induction false} ZeroSubshell(o: Oracle, t: seq<Token>, i: nat, run: bool, s: State)
    requires NoDefinitions(t) && At(t, i) == LParen && (run && s.flow != NoFlow ==> s.intruded)
    ensures Zero(s, 0, RunSubshell(o, t, i, run, s))
  {
    hide RunList, NoDefinitions;
    SteadyFlow(t, s, RunList(o, t, i + 1, false, s).s);
  }

  lemma {:induction false} ZeroClause(o: Oracle, t: seq<Token>, i: nat, run: bool, s: State)
    requires Honest(o) && NoDefinitions(t) && i <= |t|
    ensures Zero(s, 0, RunClause(o, t, i, run, s).r)
    decreases |t| - i, 7
  {
    hide Honest, NoDefinitions, RunList, Steady;
    var c := RunList(o, t, i, run, s);
    ZeroList(o, t, i, run, s);
    var a := SkipSeps(t, c.next);
    var n := if Kw(t, a, ThenWord) then a + 1 else a;
    var taken := run && c.status == 0;
    ZeroList(o, t, n, taken, c.s);
    ZeroNext(t, s, 0, c, 0, taken, RunList(o, t, n, taken, c.s));
  }

  lemma {:induction false} ZeroIf(o: Oracle, t: seq<Token>, i: nat, run: bool, taken: bool, s: State)
    requires Honest(o) && NoDefinitions(t) && i <= |t|
    ensures Zero(s, 0, RunIf(o, t, i, run, taken, s))
    decreases |t| - i, 9
  {
    hide Honest, NoDefinitions, RunClause, RunAfter, Steady;
    var c := RunClause(o, t, i, run && !taken, s);
    ZeroClause(o, t, i, run && !taken, s);
    ZeroAfter(o, t, c.r.next, run, taken || c.taken, c.r.status, c.r.s);
    ZeroNext(t, s, 0, c.r, c.r.status, run && !(taken || c.taken),
             RunAfter(o, t, c.r.next, run, taken || c.taken, c.r.status, c.r.s));
  }

  lemma {:induction false} ZeroAfter(o: Oracle, t: seq<Token>, i: nat, run: bool, taken: bool, result: int, s: State)
    requires Honest(o) && NoDefinitions(t) && i <= |t|
    ensures Zero(s, result, RunAfter(o, t, i, run, taken, result, s))
    decreases |t| - i, 8
  {
    hide Honest, NoDefinitions, RunList;
    if Kw(t, i, ElifWord) {
      hide RunElse;
      ZeroIf(o, t, i + 1, run, taken, s);
    } else if Kw(t, i, ElseWord) {
      ZeroList(o, t, i + 1, run && !taken, s);
    }
  }

  lemma {:induction false} ZeroForPasses(o: Oracle, t: seq<Token>, name: Token, body: nat, n: nat, count: nat,
                                         status: int, s: State)
    requires Honest(o) && NoDefinitions(t) && body <= |t| && n <= count && (s.flow != NoFlow ==> s.intruded)
    ensures Zero(s, status, ForPasses(o, t, name, body, n, count, status, s))
    decreases |t| - body, 8, count - n
  {
    hide Honest, NoDefinitions, RunList;
    if n < count {
      var r := RunList(o, t, body, true, Bind(s, name, n));
      ZeroList(o, t, body, true, Bind(s, name, n));
      var (u, on) := Caught(r.s);
      if on {
        ZeroForPasses(o, t, name, body, n + 1, count, r.status, u);
      }
    }
  }

  lemma {:induction false} ZeroFor(o: Oracle, t: seq<Token>, i: nat, run: bool, s: State)
    requires Honest(o) && NoDefinitions(t) && i < |t| && (run && s.flow != NoFlow ==> s.intruded)
    ensures Zero(s, 0, RunFor(o, t, i, run, s))
    decreases |t| - i, 1
  {
    hide Honest, NoDefinitions, ForPasses, PassTo, Steady, ForBody;
    var body := ForBody(t, i);
    if run {
      ZeroForPasses(o, t, At(t, i + 1), body, 0, ForCount(o, t, i, s.history), s.last, s);
    }
    var p := if run then ForPasses(o, t, At(t, i + 1), body, 0, ForCount(o, t, i, s.history), s.last, s)
             else Out(body, s.last, s);
    BodyPassed(o, t, body, p.status, p.s);
  }

  /** Stepping over the body again changes neither state nor status. */
  lemma BodyPassed(o: Oracle, t: seq<Token>, i: nat, status: int, s: State)
    requires NoDefinitions(t) && i <= |t|
    ensures PassBody(o, t, i, status, s).s == s && PassBody(o, t, i, status, s).status == status
  {
    hide PassTo, NoDefinitions;
    SteadyFlow(t, s, PassTo(o, t, i, DoneWord, s).s);
  }

  lemma {:induction false} ZeroWhilePasses(o: Oracle, t: seq<Token>, cond: nat, body: nat, until: bool, left: nat,
                                           status: int, s: State)
    requires Honest(o) && NoDefinitions(t) && cond <= body <= |t| && (s.flow != NoFlow ==> s.intruded)
    ensures Zero(s, status, WhilePasses(o, t, cond, body, until, left, status, s))
    decreases |t| - cond, 8, left
  {
    hide Honest, NoDefinitions, RunList, Agrees;
    if left > 0 {
      var c := RunList(o, t, cond, true, s);
      var m := Marked(c.s);
      if (c.status == 0) != until {
        var r := RunList(o, t, body, true, m);
        ZeroList(o, t, body, true, m);
        var (u, on) := Caught(r.s);
        if on {
          ZeroWhilePasses(o, t, cond, body, until, left - 1, r.status, u);
        }
      }
    }
  }

  lemma {:induction false} ZeroWhile(o: Oracle, t: seq<Token>, i: nat, run: bool, until: bool, s: State)
    requires Honest(o) && NoDefinitions(t) && i < |t| && (run && s.flow != NoFlow ==> s.intruded)
    ensures Zero(s, 0, RunWhile(o, t, i, run, until, s))
    decreases |t| - i, 1
  {
    hide Honest, NoDefinitions, RunList, WhilePasses, PassBody, Steady;
    var c := RunList(o, t, i + 1, false, s);
    SteadyFlow(t, s, c.s);
    var body := if Kw(t, c.next, DoWord) then c.next + 1 else c.next;
    var p := if run then WhilePasses(o, t, i + 1, body, until, GUARD, c.s.last, c.s) else Out(body, c.s.last, c.s);
    if run {
      ZeroWhilePasses(o, t, i + 1, body, until, GUARD, c.s.last, c.s);
    }
    BodyPassed(o, t, body, p.status, p.s);
    assert RunWhile(o, t, i, run, until, s) == WhileFrom(o, t, i + 1, body, until, run, c.s);
  }

  lemma {:induction false} ZeroArmBody(o: Oracle, t: seq<Token>, i: nat, run: bool, status: int, s: State)
    requires Honest(o) && NoDefinitions(t) && i <= |t|
    ensures Zero(s, status, RunArmBody(o, t, i, run, status, s))
    decreases |t| - i, 5
  {
    hide Honest, NoDefinitions, RunAndOr, RunArmBody, Steady, Agrees, DoubleSemi, Kw, BlockEnd, Stuck, SkipNewlines;
    ArmRuns(o, t, i, run, status, s);
    var j := SkipNewlines(t, i);
    if !(DoubleSemi(t, j) || At(t, j) == Eof || Kw(t, j, EsacWord)) {
      var r := RunAndOr(o, t, j, run, s);
      ZeroAndOr(o, t, j, run, s);
      if !run {
        SteadyFlow(t, s, r.s);
      }
      var result := if run then r.status else status;
      if !DoubleSemi(t, r.next) {
        var k := if Sep(At(t, r.next)) then r.next + 1 else r.next;
        var n := if k == j then j + 1 else k;
        ZeroArmBody(o, t, n, run, result, r.s);
        if run {
          ZeroNext(t, s, status, r, result, run, RunArmBody(o, t, n, run, result, r.s));
        }
      }
    }
  }

  lemma {:induction false} ZeroArm(o: Oracle, t: seq<Token>, i: nat, run: bool, status: int, s: State)
    requires Honest(o) && NoDefinitions(t) && i <= |t| && At(t, i) != Eof && !Kw(t, i, EsacWord)
    ensures Zero(s, status, RunArm(o, t, i, run, status, s))
    decreases |t| - i, 6
  {
    hide Honest, NoDefinitions, RunArmBody, Zero;
    ZeroArmBody(o, t, ArmBody(t, i), run, status, s);
    ZeroOf(s, status, RunArmBody(o, t, ArmBody(t, i), run, status, s), RunArm(o, t, i, run, status, s));
  }

  lemma {:induction false} ZeroArms(o: Oracle, t: seq<Token>, i: nat, run: bool, word: Token, matched: bool,
                                    status: int,
                                    s: State)
    requires Honest(o) && NoDefinitions(t) && i <= |t|
    ensures Zero(s, status, RunArms(o, t, i, run, word, matched, status, s))
    decreases |t| - i, 7
  {
    hide Honest, NoDefinitions, RunArm, Steady, Agrees, ArmPatterns, BlockEnd, Kw;
    if At(t, i) != Eof && !Kw(t, i, EsacWord) {
      var now := run && !matched && o.fits(s.history, word, ArmPatterns(t, i));
      ZeroArm(o, t, i, now, status, s);
      var b := RunArm(o, t, i, now, status, s);
      ZeroArms(o, t, b.next, run, word, matched || now, b.status, b.s);
      ZeroNext(t, s, status, b, b.status, run && !(matched || now),
               RunArms(o, t, b.next, run, word, matched || now, b.status, b.s));
    }
  }

  lemma {:induction false} ZeroCase(o: Oracle, t: seq<Token>, i: nat, run: bool, s: State)
    requires Honest(o) && NoDefinitions(t) && i < |t| && (run && s.flow != NoFlow ==> s.intruded)
    ensures Zero(s, 0, RunCase(o, t, i, run, s))
    decreases |t| - i, 1
  {
    hide Honest, NoDefinitions, RunArms;
    ZeroArms(o, t, CaseArms(t, i), run, At(t, i + 1), false, s.last, s);
  }
}
