/**
  The stsh executor (user/bin/stsh/run.c) in its own form: methods that move through the tokens and change the
  shell's variables, with its loops. Each is proved to do what the function of the same name in ShellRun says.
 */
module Shell {
  import opened ShellSkip
  import opened ShellRun
  import Spec = ShellRun
  import ShellCalm
  import ShellGrammar
  import ShellHalts
  import ShellMeaning
  import ShellOrderly
  import ShellProof

  class Interpreter {
    const o: Oracle
    const toks: seq<Token>
    var flow: Flow
    var levels: int
    var lastExit: int
    var functions: Functions
    var history: seq<Action>
    ghost var intruded: bool
    ghost var astray: bool

    ghost function View(): State
      reads this
    {
      State(flow, levels, lastExit, functions, history, intruded, astray)
    }

    constructor (o: Oracle, toks: seq<Token>)
      ensures this.o == o && this.toks == toks && View() == State(NoFlow, 0, 0, map[], [], false, false)
    {
      this.o, this.toks, flow, levels, lastExit, functions, history := o, toks, NoFlow, 0, 0, map[], [];
      intruded, astray := false, false;
    }

    /** A simple command, a function call or a builtin: anything may come back. */
    method Execute(a: Action)
      modifies this
      ensures View() == Perform(o, old(View()), a)
    {
      intruded := intruded || flow != NoFlow;
      history := history + [a];
      var r := o.outcome(history);
      flow, levels, lastExit, functions := r.flow, r.levels, r.status, r.functions;
    }

    method ExecuteChild(a: Action)
      modifies this
      ensures View() == PerformChild(o, old(View()), a)
    {
      history := history + [a];
      lastExit := o.outcome(history).status;
    }

    method RunSimple(i: nat, run: bool) returns (j: nat, status: int)
      requires i <= |toks| && (run && flow != NoFlow ==> intruded)
      modifies this
      ensures Out(j, status, View()) == Spec.RunSimple(o, toks, i, run, old(View()))
    {
      j := i;
      var seen := false;
      while j < |toks|
        modifies {}
        invariant i <= j <= |toks|
        invariant SkipSimple(toks, j, seen) == SkipSimple(toks, i, false)
        invariant SeesWord(toks, i) == (seen || SeesWord(toks, j))
      {
        if toks[j].Word? {
          if !seen && BlockEnd(toks, j) { break; }
          seen, j := true, j + 1;
        } else if RedirectLength(toks, j) > 0 {
          j := j + RedirectLength(toks, j);
        } else {
          break;
        }
      }
      if run && seen { Execute(Ran(Slice(toks, i, j), At(toks, j) == Amp)); }
      status := lastExit;
    }

    /** A multi-stage pipeline: every stage runs in a child. */
    method RunStages(i: nat, run: bool) returns (j: nat, status: int)
      requires i <= |toks| && (run && flow != NoFlow ==> intruded)
      modifies this
      ensures Out(j, status, View()) == Spec.RunStages(o, toks, i, run, old(View()))
    {
      hide SkipSimple, Stuck, RedirectLength;
      var stage: nat := i;
      j := SkipSimple(toks, i, false);
      while At(toks, j) == Pipe
        modifies {}
        invariant stage <= j <= |toks| && j == SkipSimple(toks, stage, false)
        invariant SkipStages(toks, stage) == SkipStages(toks, i)
        decreases |toks| - j
      {
        stage := SkipNewlines(toks, j + 1);
        j := SkipSimple(toks, stage, false);
      }
      if run { ExecuteChild(Streamed(Slice(toks, i, j), At(toks, j) == Amp)); }
      status := lastExit;
    }

    method RunPipeline(i: nat, run: bool) returns (j: nat, status: int)
      requires i <= |toks|
      modifies this
      ensures Out(j, status, View()) == Spec.RunPipeline(o, toks, i, run, old(View()))
      decreases |toks| - i, 3
    {
      hide Spec.RunCommand, Spec.RunSimple, Spec.RunStages, Steady, Agrees;
      if run && flow != NoFlow { intruded := true; }
      if CompoundStart(toks, i) || Definition(toks, i) {
        j, status := RunCommand(i, run);
      } else if At(toks, SkipSimple(toks, i, false)) != Pipe {
        j, status := RunSimple(i, run);
      } else {
        j, status := RunStages(i, run);
      }
    }

    method RunAndOr(i: nat, run: bool) returns (j: nat, status: int)
      requires i <= |toks|
      modifies this
      ensures Out(j, status, View()) == Spec.RunAndOr(o, toks, i, run, old(View()))
      decreases |toks| - i, 4
    {
      hide Spec.RunPipeline, Steady, Agrees;
      j, status := RunPipeline(i, run);
      while Joins(At(toks, j))
        invariant i <= j <= |toks|
        invariant RunAndOrRest(o, toks, j, run, status, View()) == Spec.RunAndOr(o, toks, i, run, old(View()))
        decreases |toks| - j
      {
        var isAnd := At(toks, j) == AndIf;
        var doRun := run && (isAnd <==> status == 0);
        var s;
        j, s := RunPipeline(SkipNewlines(toks, j + 1), doRun);
        if doRun { status := s; }
      }
    }

    method RunList(i: nat, run: bool) returns (j: nat, status: int)
      requires i <= |toks|
      modifies this
      ensures Out(j, status, View()) == Spec.RunList(o, toks, i, run, old(View()))
      decreases |toks| - i, 6
    {
      hide Spec.RunAndOr, RunListFrom, Steady, Agrees;
      j, status := i, lastExit;
      while true
        invariant i <= j <= |toks|
        invariant RunListFrom(o, toks, j, run, status, View()) == Spec.RunList(o, toks, i, run, old(View()))
        decreases |toks| - j
      {
        ListRuns(o, toks, j, run, status, View());
        j := SkipSeps(toks, j);
        if BlockEnd(toks, j) { return; }
        j, status := RunAndOr(j, run);
        if flow != NoFlow { return; }
        if At(toks, j) == Amp { j := j + 1; }
        else if BlockEnd(toks, j) { return; }
      }
    }

    /** skip_to. */
    method SkipPast(i: nat, closer: Lexeme) returns (j: nat)
      requires i <= |toks|
      modifies this
      ensures var r := PassTo(o, toks, i, closer, old(View())); j == r.next && View() == r.s
      decreases |toks| - i, 5
    {
      hide Spec.RunAndOr, PassTo, SkipSeps, Kw, Steady, Agrees;
      j := i;
      while At(toks, j) != Eof && !Kw(toks, j, closer)
        invariant i <= j <= |toks|
        invariant PassTo(o, toks, j, closer, View()) == PassTo(o, toks, i, closer, old(View()))
        decreases |toks| - j
      {
        PassUnfolds(o, toks, j, closer, View());
        var before := j;
        var s;
        j, s := RunAndOr(j, false);
        j := SkipSeps(toks, j);
        if j == before { j := j + 1; }
      }
      PassUnfolds(o, toks, j, closer, View());
    }

    method SkipLoopBody(i: nat, ghost status: int) returns (j: nat)
      requires i <= |toks|
      modifies this
      ensures Out(j, status, View()) == PassBody(o, toks, i, status, old(View()))
      decreases |toks| - i, 6
    {
      hide PassTo, Steady, Agrees;
      j := SkipPast(i, DoneWord);
      if Kw(toks, j, DoneWord) { j := j + 1; }
    }

    method RunCommand(i: nat, run: bool) returns (j: nat, status: int)
      requires i <= |toks| && (run && flow != NoFlow ==> intruded)
      modifies this
      ensures Out(j, status, View()) == Spec.RunCommand(o, toks, i, run, old(View()))
      decreases |toks| - i, 2
    {
      hide Spec.Define, Spec.RunIf, Spec.RunFor, Spec.RunWhile, Spec.RunCase, Spec.RunList, Spec.RunSubshell,
           Spec.RunSimple, Steady, Agrees;
      if Definition(toks, i) {
        j, status := Define(i);
      } else if Kw(toks, i, IfWord) {
        j, status := RunIf(i, run);
      } else if Kw(toks, i, ForWord) {
        j, status := RunFor(i, run);
      } else if Kw(toks, i, WhileWord) {
        j, status := RunWhile(i, run, false);
      } else if Kw(toks, i, UntilWord) {
        j, status := RunWhile(i, run, true);
      } else if Kw(toks, i, CaseWord) {
        j, status := RunCase(i, run);
      } else if Kw(toks, i, OpenBrace) {
        j, status := RunList(i + 1, run);
        if Kw(toks, j, CloseBrace) { j := j + 1; }
      } else if At(toks, i) == LParen {
        j, status := RunSubshell(i, run);
      } else {
        j, status := RunSimple(i, run);
      }
    }

    /** A definition copies its body's tokens whether or not it is being skipped. */
    method Define(i: nat) returns (j: nat, status: int)
      requires Definition(toks, i)
      modifies this
      ensures Out(j, status, View()) == Spec.Define(o, toks, i, old(View()))
      decreases |toks| - i, 1
    {
      hide Spec.RunAndOr, Steady, Agrees;
      var body := SkipNewlines(toks, i + 3);
      j, status := RunAndOr(body, false);
      functions := functions[toks[i].w := Slice(toks, body, j)];
      lastExit := 0;
      status := 0;
    }

    method RunSubshell(i: nat, run: bool) returns (j: nat, status: int)
      requires At(toks, i) == LParen && (run && flow != NoFlow ==> intruded)
      modifies this
      ensures Out(j, status, View()) == Spec.RunSubshell(o, toks, i, run, old(View()))
      decreases |toks| - i, 1
    {
      hide Spec.RunList, Steady, Agrees;
      j, status := RunList(i + 1, false);
      if run { ExecuteChild(Forked(Slice(toks, i + 1, j))); }
      if At(toks, j) == RParen { j := j + 1; }
      status := lastExit;
    }

    /** A condition with the commands after its `then`. */
    method RunClause(i: nat, run: bool) returns (j: nat, taken: bool, result: int)
      requires i <= |toks|
      modifies this
      ensures Clause(Out(j, result, View()), taken) == Spec.RunClause(o, toks, i, run, old(View()))
      decreases |toks| - i, 7
    {
      hide Spec.RunList, Steady, Agrees;
      var cond;
      j, cond := RunList(i, run);
      j := SkipSeps(toks, j);
      if Kw(toks, j, ThenWord) { j := j + 1; }
      taken := run && cond == 0;
      j, result := RunList(j, taken);
      j := SkipSeps(toks, j);
    }

    method RunIf(i: nat, run: bool) returns (j: nat, status: int)
      requires i < |toks|
      modifies this
      ensures Out(j, status, View()) == Spec.RunIf(o, toks, i + 1, run, false, old(View()))
      decreases |toks| - i, 1
    {
      hide Spec.RunClause, Spec.RunIf, Spec.RunElse, Steady, Agrees;
      var taken, result;
      IfUnfolds(o, toks, i + 1, run, false, View());
      j, taken, result := RunClause(i + 1, run);
      while Kw(toks, j, ElifWord)
        invariant i < j <= |toks|
        invariant Spec.RunIf(o, toks, i + 1, run, false, old(View()))
               == RunAfter(o, toks, j, run, taken, result, View())
        decreases |toks| - j
      {
        IfUnfolds(o, toks, j + 1, run, taken, View());
        var now;
        j, now, result := RunClause(j + 1, run && !taken);
        taken := taken || now;
      }
      j, status := RunElse(j, run, taken, result);
    }

    method RunElse(i: nat, run: bool, taken: bool, result: int) returns (j: nat, status: int)
      requires i <= |toks|
      modifies this
      ensures Out(j, status, View()) == Spec.RunElse(o, toks, i, run, taken, result, old(View()))
      decreases |toks| - i, 7
    {
      hide Spec.RunList, Steady, Agrees;
      j, status := i, if taken then result else 0;
      if Kw(toks, j, ElseWord) {
        j, status := RunList(j + 1, run && !taken);
        if !run { status := 0; }
        j := SkipSeps(toks, j);
      }
      if Kw(toks, j, FiWord) { j := j + 1; }
    }

    method RunFor(i: nat, run: bool) returns (j: nat, status: int)
      requires i < |toks| && (run && flow != NoFlow ==> intruded)
      modifies this
      ensures Out(j, status, View()) == Spec.RunFor(o, toks, i, run, old(View()))
      decreases |toks| - i, 1
    {
      hide Spec.RunList, PassBody, ForPasses, Steady, Agrees;
      var body := ForBody(toks, i);
      status := lastExit;
      if run {
        var count := ForCount(o, toks, i, history);
        var n := 0;
        var on := true;
        while n < count && on
          invariant 0 <= n <= count && (on && flow != NoFlow ==> intruded)
          invariant ForPasses(o, toks, At(toks, i + 1), body, 0, count, old(lastExit), old(View())) ==
            if on then ForPasses(o, toks, At(toks, i + 1), body, n, count, status, View())
            else Out(body, status, View())
        {
          ForUnfolds(o, toks, At(toks, i + 1), body, n, count, status, View());
          if At(toks, i + 1).Word? { history := history + [Bound(At(toks, i + 1).w, n)]; }
          var idx;
          idx, status := RunList(body, true);
          on := CatchFlow();
          n := n + 1;
        }
        if on { ForUnfolds(o, toks, At(toks, i + 1), body, n, count, status, View()); }
      }
      j := SkipLoopBody(body, status);
    }

    /** A break or continue that has reached its loop. */
    method CatchFlow() returns (on: bool)
      modifies this
      ensures (View(), on) == Caught(old(View()))
    {
      if flow == Break {
        levels := levels - 1;
        if levels <= 0 { flow := NoFlow; }
        return false;
      }
      if flow == Continue {
        levels := levels - 1;
        if levels > 0 { return false; }
        flow := NoFlow;
        return true;
      }
      return flow != Return;
    }

    /** The passes of a `while` or `until`. */
    method WhileLoop(cond: nat, body: nat, until: bool) returns (status: int)
      requires cond <= body <= |toks| && (flow != NoFlow ==> intruded)
      modifies this
      ensures Out(body, status, View()) == WhilePasses(o, toks, cond, body, until, GUARD, old(lastExit), old(View()))
      decreases |toks| - cond, 8
    {
      hide Spec.RunList, WhilePasses, Steady, Agrees;
      status := lastExit;
      var guard: nat := GUARD;
      var on := true;
      while guard > 0 && on
        invariant on && flow != NoFlow ==> intruded
        invariant WhilePasses(o, toks, cond, body, until, GUARD, old(lastExit), old(View())) ==
          if on then WhilePasses(o, toks, cond, body, until, guard, status, View()) else Out(body, status, View())
        decreases guard
      {
        WhileUnfolds(o, toks, cond, body, until, guard, status, View());
        LoopKeeps(o, toks, cond, body, View());
        guard := guard - 1;
        var ci, c := RunList(cond, true);
        astray := astray || flow != NoFlow;
        if (c == 0) == until {
          on := false;
        } else {
          var idx;
          idx, status := RunList(body, true);
          on := CatchFlow();
        }
      }
      if on { WhileUnfolds(o, toks, cond, body, until, guard, status, View()); }
    }

    method RunWhile(i: nat, run: bool, until: bool) returns (j: nat, status: int)
      requires i < |toks| && (run && flow != NoFlow ==> intruded)
      modifies this
      ensures Out(j, status, View()) == Spec.RunWhile(o, toks, i, run, until, old(View()))
      decreases |toks| - i, 1
    {
      hide Spec.RunList, PassBody, WhilePasses, Steady, Kept, SkipList, Agrees;
      var scan, s := RunList(i + 1, false);
      SteadyFlow(toks, old(View()), View());
      var body := if Kw(toks, scan, DoWord) then scan + 1 else scan;
      status := lastExit;
      if run { status := WhileLoop(i + 1, body, until); }
      j := SkipLoopBody(body, status);
    }

    method RunCase(i: nat, run: bool) returns (j: nat, status: int)
      requires i < |toks| && (run && flow != NoFlow ==> intruded)
      modifies this
      ensures Out(j, status, View()) == Spec.RunCase(o, toks, i, run, old(View()))
      decreases |toks| - i, 1
    {
      hide Spec.RunArm, Steady, Agrees;
      j := CaseArms(toks, i);
      var word := At(toks, i + 1);
      var matched, result := false, lastExit;
      while At(toks, j) != Eof && !Kw(toks, j, EsacWord)
        invariant i < j <= |toks|
        invariant RunArms(o, toks, j, run, word, matched, result, View()) ==
          RunArms(o, toks, CaseArms(toks, i), run, word, false, old(lastExit), old(View()))
        decreases |toks| - j
      {
        var doBody := run && !matched && o.fits(history, word, ArmPatterns(toks, j));
        j, result := RunArm(j, doBody, result);
        if doBody { matched := true; }
      }
      if Kw(toks, j, EsacWord) { j := j + 1; }
      status := if matched then result else 0;
    }

    method RunArm(i: nat, run: bool, start: int) returns (j: nat, result: int)
      requires i <= |toks| && At(toks, i) != Eof && !Kw(toks, i, EsacWord)
      modifies this
      ensures Out(j, result, View()) == Spec.RunArm(o, toks, i, run, start, old(View()))
      decreases |toks| - i, 6
    {
      hide Spec.RunArmBody, Steady, Agrees;
      j, result := RunArmBody(ArmBody(toks, i), run, start);
      if DoubleSemi(toks, j) { j := j + 2; }
      j := SkipSeps(toks, j);
    }

    method RunArmBody(i: nat, run: bool, start: int) returns (j: nat, result: int)
      requires i <= |toks|
      modifies this
      ensures Out(j, result, View()) == Spec.RunArmBody(o, toks, i, run, start, old(View()))
      decreases |toks| - i, 5
    {
      hide Spec.RunAndOr, Spec.RunArmBody, SkipNewlines, BlockEnd, Stuck, Kw, Steady, Agrees;
      j, result := i, start;
      while true
        invariant i <= j <= |toks|
        invariant Spec.RunArmBody(o, toks, j, run, result, View())
               == Spec.RunArmBody(o, toks, i, run, start, old(View()))
        decreases |toks| - j
      {
        ArmRuns(o, toks, j, run, result, View());
        j := SkipNewlines(toks, j);
        if DoubleSemi(toks, j) || At(toks, j) == Eof || Kw(toks, j, EsacWord) { return; }
        var before := j;
        var s;
        j, s := RunAndOr(j, run);
        if run { result := s; }
        if DoubleSemi(toks, j) { return; }
        if Sep(At(toks, j)) { j := j + 1; }
        if j == before { j := j + 1; }
      }
    }
  }

  /**
    The executor on the text of a program: what the tree means, as far as nothing ran out of turn, and nothing
    does in an orderly program.
   */
  method RunProgram(sh: Interpreter, l: ShellGrammar.List) returns (j: nat, status: int)
    requires sh.toks == ShellGrammar.WriteList(l) && ShellGrammar.GoodList(l)
    requires ShellHalts.Honest(sh.o) && NoDefinitions(sh.toks) && Calm(sh.View())
    modifies sh
    ensures ShellProof.Means(Out(j, status, sh.View()), ShellMeaning.DoList(sh.o, l, old(sh.lastExit), old(sh.View())),
                             |sh.toks|)
    ensures ShellOrderly.Orderly(l) && ShellCalm.OnlyBuiltins(sh.o) && !old(sh.astray) ==> ShellHalts.Clear(sh.View())
  {
    hide Spec.RunList, ShellHalts.Honest, NoDefinitions, ShellCalm.OnlyBuiltins, ShellOrderly.Orderly,
         ShellMeaning.DoList;
    ShellProof.ProgramMeans(sh.o, l, sh.View());
    if ShellOrderly.Orderly(l) && ShellCalm.OnlyBuiltins(sh.o) && !sh.astray {
      ShellOrderly.OrderlyProgramMeans(sh.o, l, sh.View());
    }
    j, status := sh.RunList(0, true);
  }

  lemma ForUnfolds(o: Oracle, t: seq<Token>, name: Token, body: nat, n: nat, count: nat, status: int, s: State)
    requires body <= |t| && n <= count && (s.flow != NoFlow ==> s.intruded)
    ensures ForPasses(o, t, name, body, n, count, status, s) ==
      if n == count then Out(body, status, s)
      else
        var r := RunList(o, t, body, true, Bind(s, name, n));
        var (u, on) := Caught(r.s);
        if on then ForPasses(o, t, name, body, n + 1, count, r.status, u) else Out(body, r.status, u)
  {
    hide RunList;
  }

  /** A loop that goes on has nothing pending. */
  lemma LoopKeeps(o: Oracle, t: seq<Token>, cond: nat, body: nat, s: State)
    requires cond <= body <= |t|
    ensures var c := RunList(o, t, cond, true, s);
      var (u, on) := Caught(RunList(o, t, body, true, Marked(c.s)).s);
      on ==> u.flow == NoFlow
  {
    hide RunList;
  }

  lemma PassUnfolds(o: Oracle, t: seq<Token>, i: nat, closer: Lexeme, s: State)
    requires i <= |t|
    ensures PassTo(o, t, i, closer, s) ==
      if At(t, i) == Eof || Kw(t, i, closer) then Out(i, s.last, s)
      else
        var r := RunAndOr(o, t, i, false, s);
        var j := SkipSeps(t, r.next);
        PassTo(o, t, if j == i then i + 1 else j, closer, r.s)
  {
    hide RunAndOr, SkipSeps;
  }

  lemma WhileUnfolds(o: Oracle, t: seq<Token>, cond: nat, body: nat, until: bool, left: nat, status: int, s: State)
    requires cond <= body <= |t| && (s.flow != NoFlow ==> s.intruded)
    ensures WhilePasses(o, t, cond, body, until, left, status, s) ==
      if left == 0 then Out(body, status, s)
      else
        var c := RunList(o, t, cond, true, s);
        if (c.status == 0) == until then Out(body, status, Marked(c.s))
        else
          var r := RunList(o, t, body, true, Marked(c.s));
          var (u, on) := Caught(r.s);
          if on then WhilePasses(o, t, cond, body, until, left - 1, r.status, u) else Out(body, r.status, u)
  {
    hide RunList;
  }

  lemma IfUnfolds(o: Oracle, t: seq<Token>, i: nat, run: bool, taken: bool, s: State)
    requires i <= |t|
    ensures var c := RunClause(o, t, i, run && !taken, s);
      RunIf(o, t, i, run, taken, s) == RunAfter(o, t, c.r.next, run, taken || c.taken, c.r.status, c.r.s)
  {
    hide RunClause, RunElse;
  }
}
