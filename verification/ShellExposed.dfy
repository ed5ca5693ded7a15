/**
  Why the rules of good order are there: what stands where they forbid it is run out of turn by some oracle.
  For chains of pipelines they are exact; compound commands can escape by luck of where the parser stops.
 */
module ShellExposed {
  import opened ShellSkip
  import opened ShellRun
  import opened ShellGrammar
  import opened ShellHalts
  import opened ShellMeaning
  import opened ShellProof
  import opened ShellCalm
  import opened ShellOrderly
  import opened ShellLimits

  // ---------------------------------------------------------------------------------------------
  // Oracles that leave
  // ---------------------------------------------------------------------------------------------

  predicate Leaves(h: seq<Action>) {
    h != [] && h[|h| - 1].Ran? && Holds(h[|h| - 1].cmd)
  }

  /** Every command with break, continue or return in it leaves; statuses are as given. */
  function Leaver(status: seq<Action> -> int): Oracle {
    Oracle(h => Outcome(if Leaves(h) then Return else NoFlow, 0, status(h), map[]),
           (h, words) => 1, h => 1, (h, word, patterns) => true)
  }

  lemma LeaverFits(status: seq<Action> -> int)
    ensures Honest(Leaver(status)) && OnlyBuiltins(Leaver(status))
  {
    var o := Leaver(status);
    forall h: seq<Action>, cmd: seq<Token>, b: bool | o.outcome(h + [Ran(cmd, b)]).flow != NoFlow
      ensures exists k | 0 <= k < |cmd| :: cmd[k] in LEAVING
    {
      var g := h + [Ran(cmd, b)];
      assert g[|g| - 1] == Ran(cmd, b) && Leaves(g);
    }
  }

  /** What is started on top of something pending is out of turn, and stays so. */
  lemma Intrudes(o: Oracle, t: seq<Token>, i: nat, s: State)
    requires i <= |t| && s.flow != NoFlow
    ensures RunPipeline(o, t, i, true, s).s.intruded && RunAndOr(o, t, i, true, s).s.intruded
  {
    hide RunCommand, RunSimple, RunStages, RunAndOrRest;
    var u := s.(intruded := true);
    assert RunPipeline(o, t, i, true, s) == RunPipeline(o, t, i, true, u);
  }

  // ---------------------------------------------------------------------------------------------
  // Chains
  // ---------------------------------------------------------------------------------------------

  predicate AllPlain(a: AndOr) {
    a.p.Plain? && (a.Chain? ==> AllPlain(a.rest))
  }

  /** The statuses that let every pipeline of a chain run. */
  function Passing(a: AndOr): seq<int> {
    if a.Only? then [] else [if a.isAnd then 0 else 1] + Passing(a.rest)
  }

  function Script(base: nat, ss: seq<int>): seq<Action> -> int {
    (h: seq<Action>) => if base < |h| <= base + |ss| then ss[|h| - base - 1] else 0
  }

  /** A plain pipeline whose status lets the next one run: the chain goes on from there. */
  lemma LinkRuns(o: Oracle, t: seq<Token>, i: nat, e: nat, a: AndOr, s: State) returns (n: nat)
    requires a.Chain? && a.p.Plain? && GoodAndOr(a) && Spans(t, i, e, WriteAndOr(a)) && FollowsList(t, e) && Calm(s)
    requires a.isAnd <==> DoStages(o, a.p.stages, false, s).status == 0
    ensures i <= |t| && n <= |t| && Spans(t, n, e, WriteAndOr(a.rest))
    ensures RunAndOr(o, t, i, true, s).s == RunAndOr(o, t, n, true, DoStages(o, a.p.stages, false, s).s).s
  {
    hide Spans, RunPipeline, RunAndOrRest, SkipNewlines, WriteStages, DoStages, GoodStages, Steady, Agrees;
    var j: nat;
    j, n := JointParts(t, i, e, a);
    MeansStages(o, t, i, j, a.p.stages, s);
    var u := DoStages(o, a.p.stages, false, s);
    RestGoes(o, t, j, n, u.status, u.s);
  }

  lemma LeaverDoes(status: seq<Action> -> int, st: Stages, background: bool, s: State)
    requires Still(s)
    ensures var d := DoStages(Leaver(status), st, background, s);
      && d.s.history == s.history + [d.s.history[|s.history|]] && d.status == status(d.s.history)
      && d.s.intruded == d.s.astray == false && d.s.flow == if LeavingPipeline(Plain(st)) then Return else NoFlow
  {
    hide WriteSimple, WriteStages, Holds;
    var a := if st.Final? then Ran(WriteSimple(st.s), background) else Streamed(WriteStages(st), background);
    var h := s.history + [a];
    assert h[|h| - 1] == a && h[|s.history|] == a;
  }

  lemma {:induction false} ChainIntrudes(base: nat, ss: seq<int>, k: nat, t: seq<Token>, i: nat, e: nat, a: AndOr,
                                         s: State)
    requires AllPlain(a) && GoodAndOr(a) && !OrderlyChain(a) && Spans(t, i, e, WriteAndOr(a)) && FollowsList(t, e)
    requires Still(s) && |s.history| == base + k && k <= |ss| && ss[k..] == Passing(a)
    ensures i <= |t| && RunAndOr(Leaver(Script(base, ss)), t, i, true, s).s.intruded
    decreases a
  {
    hide Spans, RunAndOr, WriteStages, WriteSimple, DoStages;
    var o := Leaver(Script(base, ss));
    var u := DoStages(o, a.p.stages, false, s);
    assert ss[k] == Passing(a)[0] && ss[k + 1..] == Passing(a.rest);
    LeaverDoes(Script(base, ss), a.p.stages, false, s);
    var n := LinkRuns(o, t, i, e, a, s);
    if LeavingPipeline(a.p) {
      Intrudes(o, t, n, u.s);
    } else {
      ChainIntrudes(base, ss, k + 1, t, n, e, a.rest, u.s);
    }
  }

  ghost predicate InTurn(t: seq<Token>) {
    forall o, s | Honest(o) && OnlyBuiltins(o) && Still(s) :: Clear(RunList(o, t, 0, true, s).s)
  }

  lemma {:induction false} ArgsOpenNothing(args: Args)
    requires GoodArgs(args)
    ensures LParen !in WriteArgs(args)
    decreases args
  {
    match args
    case NoArgs =>
    case ArgWord(_, rest) => ArgsOpenNothing(rest);
    case ArgRedirect(_, _, rest) => ArgsOpenNothing(rest);
    case ArgErrToOut(rest) => ArgsOpenNothing(rest);
  }

  lemma {:induction false} NewlinesOpenNothing(n: nat)
    ensures LParen !in Newlines(n)
    decreases n
  {
    if n > 0 { NewlinesOpenNothing(n - 1); }
  }

  lemma {:induction false} StagesOpenNothing(st: Stages)
    requires GoodStages(st)
    ensures LParen !in WriteStages(st)
    decreases st
  {
    ArgsOpenNothing(st.s.args);
    if st.Piped? {
      NewlinesOpenNothing(st.breaks);
      StagesOpenNothing(st.rest);
    }
  }

  lemma {:induction false} ChainOpensNothing(a: AndOr)
    requires AllPlain(a) && GoodAndOr(a)
    ensures LParen !in WriteAndOr(a)
    decreases a
  {
    StagesOpenNothing(a.p.stages);
    if a.Chain? {
      NewlinesOpenNothing(a.breaks);
      ChainOpensNothing(a.rest);
    }
  }

  lemma {:induction false} NothingDefined(t: seq<Token>, i: nat)
    requires LParen !in t
    ensures NoDefinitionsFrom(t, i)
    decreases |t| - i
  {
    if i < |t| {
      NothingDefined(t, i + 1);
    }
  }

  lemma PlainFirst(o: Oracle, t: seq<Token>, i: nat, e: nat, p: Pipeline, run: bool, status: int, s: State)
    requires p.Plain? && GoodPipeline(p) && Spans(t, i, e, WritePipeline(p)) && Fit(o, t, s)
    requires FollowsList(t, e) || Joins(At(t, e))
    ensures i <= |t| && var m := First(o, t, i, run, status, s); m.next == e && Fine(LeavingPipeline(p), m.s)
  {
    hide Spans, RunPipeline, Honest, NoDefinitions, OnlyBuiltins, LeavingPipeline;
    if run {
      OrderStages(o, t, i, e, p.stages, s);
    } else {
      Bounded(t, i, e, WritePipeline(p));
      PassedPipeline(o, t, i, e, p, s);
    }
  }

  lemma {:induction false} PlainRest(o: Oracle, t: seq<Token>, i: nat, e: nat, a: AndOr, run: bool, status: int,
                                     s: State)
    requires AllPlain(a) && GoodAndOr(a) && OrderlyChain(a) && Spans(t, i, e, WriteAndOr(a)) && FollowsList(t, e)
    requires Fit(o, t, s)
    ensures i <= |t|
    ensures var m := First(o, t, i, run, status, s);
      var r := RunAndOrRest(o, t, m.next, true, m.status, m.s);
      Clear(r.s) && r.next == e
    decreases a
  {
    hide Spans, RunPipeline, RunAndOrRest, Honest, NoDefinitions, OnlyBuiltins, SkipNewlines, WriteStages, WriteSimple,
         LeavingPipeline, First;
    Bounded(t, i, e, WriteAndOr(a));
    var j, k := e, e;
    if a.Chain? {
      j, k := JointParts(t, i, e, a);
    }
    PlainFirst(o, t, i, j, a.p, run, status, s);
    var m := First(o, t, i, run, status, s);
    if a.Only? {
      RestEnds(o, t, j, m.status, m.s);
    } else {
      var doRun := a.isAnd <==> m.status == 0;
      StillReady(o, t, s, m.s);
      PlainRest(o, t, k, e, a.rest, doRun, m.status, m.s);
      RestGoes(o, t, j, k, m.status, m.s);
      FirstIs(o, t, k, doRun, m.status, m.s);
    }
  }

  lemma PlainChain(o: Oracle, a: AndOr, s: State)
    requires AllPlain(a) && GoodAndOr(a) && OrderlyChain(a) && Honest(o) && OnlyBuiltins(o) && Still(s)
    ensures Clear(RunList(o, WriteAndOr(a), 0, true, s).s)
  {
    hide RunPipeline, RunAndOrRest, RunListFrom, Honest, OnlyBuiltins, WriteAndOr, OrderlyChain;
    var t := WriteAndOr(a);
    assert t[0..|t|] == t;
    ChainOpensNothing(a);
    NothingDefined(t, 0);
    ReadAndOr(t, 0, |t|, a);
    PlainRest(o, t, 0, |t|, a, true, 0, s);
    FirstIs(o, t, 0, true, 0, s);
    ListItem(o, t, 0, true, s.last, s);
  }

  /** A chain of simple commands and pipelines is in turn, whatever they do, if and only if only the last may leave. */
  lemma ChainExactly(a: AndOr)
    requires AllPlain(a) && GoodAndOr(a)
    ensures InTurn(WriteAndOr(a)) <==> OrderlyChain(a)
  {
    hide RunList, OrderlyChain, WriteAndOr, Honest, OnlyBuiltins;
    var t := WriteAndOr(a);
    if OrderlyChain(a) {
      forall o, s | Honest(o) && OnlyBuiltins(o) && Still(s) ensures Clear(RunList(o, t, 0, true, s).s) {
        PlainChain(o, a, s);
      }
    } else {
      var s := State(NoFlow, 0, 0, map[], [], false, false);
      var o := Leaver(Script(0, Passing(a)));
      LeaverFits(Script(0, Passing(a)));
      assert t[0..|t|] == t;
      assert Passing(a)[0..] == Passing(a);
      ChainIntrudes(0, Passing(a), 0, t, 0, |t|, a, s);
      ListKeeps(o, t, a, s);
    }
  }

  lemma ListKeeps(o: Oracle, t: seq<Token>, a: AndOr, s: State)
    requires t == WriteAndOr(a) && GoodAndOr(a) && RunAndOr(o, t, 0, true, s).s.intruded
    ensures RunList(o, t, 0, true, s).s.intruded
  {
    hide RunAndOr, RunListFrom, Starts, GoodAndOr, WriteAndOr;
    assert t[0..|t|] == t;
    ReadAndOr(t, 0, |t|, a);
    ListItem(o, t, 0, true, s.last, s);
  }

  // ---------------------------------------------------------------------------------------------
  // Conditions and arms
  // ---------------------------------------------------------------------------------------------

  /** A list that begins with a command of its own that leaves. */
  predicate Headed(l: List) {
    l.Item? && l.a.Only? && l.a.p.Plain? && LeavingPipeline(l.a.p)
  }

  /** Behind the separators of a list stands its first command, or what follows the list. */
  lemma {:induction false} FirstOf(t: seq<Token>, i: nat, e: nat, l: List)
    requires GoodList(l) && Spans(t, i, e, WriteList(l)) && BlockEnd(t, e) && (EndsBare(l) ==> FollowsList(t, e))
    ensures i <= |t| && if NoCommands(l) then SkipSeps(t, i) == e else Starts(t, SkipSeps(t, i))
    decreases l
  {
    hide Spans;
    Bounded(t, i, e, WriteList(l));
    match l
    case Empty =>
      Nothing(t, i, e);
    case Blank(rest) =>
      Take(t, i, e, Newline, WriteList(rest));
      FirstOf(t, i + 1, e, rest);
    case Bare(a) =>
      ReadAndOr(t, i, e, a);
    case Item(a, sep, rest) =>
      var j := Split(t, i, e, WriteAndOr(a), [sep] + WriteList(rest));
      Take(t, j, e, sep, WriteList(rest));
      ReadAndOr(t, i, j, a);
  }

  lemma ListIntrudes(o: Oracle, t: seq<Token>, i: nat, status: int, s: State)
    requires i <= |t| && s.flow != NoFlow && !BlockEnd(t, SkipSeps(t, i))
    ensures RunListFrom(o, t, i, true, status, s).s.intruded
  {
    hide RunAndOr, RunListFrom;
    ListRuns(o, t, i, true, status, s);
    Intrudes(o, t, SkipSeps(t, i), s);
  }

  /** The head has left: the parser stands at its separator. */
  lemma HeadLeaves(status: seq<Action> -> int, t: seq<Token>, i: nat, e: nat, l: List, s: State) returns (j: nat)
    requires Headed(l) && GoodList(l) && Spans(t, i, e, WriteList(l)) && Still(s)
    ensures i < j < e <= |t| && At(t, j) == l.sep && Spans(t, j + 1, e, WriteList(l.rest)) && Starts(t, i)
    ensures var m := RunAndOr(Leaver(status), t, i, true, s);
      && RunListFrom(Leaver(status), t, i, true, s.last, s) == m
      && m.next == j && m.s.flow == Return && m.status == status(m.s.history)
  {
    hide Spans, RunPipeline, WriteStages, WriteSimple, DoStages, LeavingPipeline;
    var o := Leaver(status);
    Bounded(t, i, e, WriteList(l));
    j := Split(t, i, e, WriteAndOr(l.a), [l.sep] + WriteList(l.rest));
    Take(t, j, e, l.sep, WriteList(l.rest));
    ReadAndOr(t, i, j, l.a);
    MeansStages(o, t, i, j, l.a.p.stages, s);
    LeaverDoes(status, l.a.p.stages, l.sep == Amp, s);
    var d := DoStages(o, l.a.p.stages, l.sep == Amp, s);
    RestEnds(o, t, j, d.status, d.s);
    ListItem(o, t, i, true, s.last, s);
  }

  lemma RestGood(l: List)
    requires l.Item? && GoodBlock(l)
    ensures GoodBlock(l.rest) && (Sep(l.sep) || l.sep == Amp)
  {
  }

  /** What the parser takes for the commands of the branch. */
  lemma BehindHead(t: seq<Token>, j: nat, c: nat, d: nat, b: Branches) returns (n: nat)
    requires b.When? && GoodTail(b) && b.cond.Item? && j < c < d <= |t| && At(t, j) == b.cond.sep
    requires Kw(t, c, ThenWord) && At(t, d).Word? && BlockEnd(t, d)
    requires Spans(t, j + 1, c, WriteList(b.cond.rest)) && Spans(t, c + 1, d, WriteList(b.thn))
    requires b.cond.sep == Amp || !NoCommands(b.cond.rest) || !NoCommands(b.thn)
    ensures var a := SkipSeps(t, j); n == if Kw(t, a, ThenWord) then a + 1 else a
    ensures n <= |t| && !BlockEnd(t, SkipSeps(t, n))
  {
    hide Spans;
    assert GoodBlock(b.cond) && GoodBlock(b.thn);
    RestGood(b.cond);
    FirstOf(t, j + 1, c, b.cond.rest);
    FirstOf(t, c + 1, d, b.thn);
    var a := SkipSeps(t, j);
    assert a == if Sep(b.cond.sep) then SkipSeps(t, j + 1) else j;
    n := if Kw(t, a, ThenWord) then a + 1 else a;
  }

  /** An `if` whose condition begins with a command that leaves runs what comes next, in the condition or behind. */
  lemma ConditionExposed(t: seq<Token>, i: nat, e: nat, b: Branches, s: State)
    requires b.When? && GoodTail(b) && Spans(t, i, e, WriteWhen(b)) && Still(s) && Headed(b.cond)
    requires b.cond.sep == Amp || !NoCommands(b.cond.rest) || !NoCommands(b.thn)
    ensures i <= |t| && RunIf(Leaver(h => 0), t, i, true, false, s).s.intruded
  {
    hide Spans, RunAndOr, RunListFrom, RunIf, LeavingPipeline, Leaver, GoodList, NoCommands, Steady, Agrees;
    var o := Leaver(h => 0);
    var c, d := WhenParts(t, i, e, b);
    var j := HeadLeaves(h => 0, t, i, c, b.cond, s);
    var m := RunAndOr(o, t, i, true, s);
    var n := BehindHead(t, j, c, d, b);
    ListIntrudes(o, t, n, m.s.last, m.s);
    IfIntrudes(o, t, i, m, n, s);
  }

  lemma IfIntrudes(o: Oracle, t: seq<Token>, i: nat, m: Out, n: nat, s: State)
    requires i <= |t| && n <= |t| && RunListFrom(o, t, i, true, s.last, s) == m && m.status == 0
    requires var a := SkipSeps(t, m.next); n == if Kw(t, a, ThenWord) then a + 1 else a
    requires RunListFrom(o, t, n, true, m.s.last, m.s).s.intruded
    ensures RunIf(o, t, i, true, false, s).s.intruded
  {
    hide RunListFrom, RunAfter, RunIf, SkipSeps, Agrees;
    IfRuns(o, t, i, true, false, s);
  }

  /** A `while` or `until` whose condition begins with a command that leaves still runs its body. */
  lemma LoopConditionExposed(t: seq<Token>, i: nat, e: nat, c: Command, s: State)
    requires c.While? && GoodCommand(c) && Spans(t, i, e, WriteCommand(c)) && NoDefinitions(t) && Still(s)
    requires Headed(c.cond) && !NoCommands(c.body)
    ensures i < |t| && RunWhile(Leaver(h => if c.until then 1 else 0), t, i, true, c.until, s).s.intruded
  {
    hide Spans, WriteList, LoopAround, WhilePasses, PassBody, SkipWhile, RunAndOr, RunListFrom, NoDefinitions, Headed,
         NoCommands,
         Leaver, GoodList, EndsBare;
    var o := Leaver(h => if c.until then 1 else 0);
    var loop := LoopAround(WriteList(c.body));
    Bounded(t, i, e, WriteCommand(c));
    Take(t, i, e, Word(if c.until then UntilWord else WhileWord), WriteList(c.cond) + loop);
    var k := Split(t, i + 1, e, WriteList(c.cond), loop);
    var body, q := LoopParts(t, k, e, c.body);
    FirstOf(t, body, q, c.body);
    var j := HeadLeaves(h => if c.until then 1 else 0, t, i + 1, k, c.cond, s);
    PassIntrudes(o, t, i + 1, body, c.until, GUARD, s.last, s);
    WhileIsFrom(o, t, i, k, body, c, s);
    FromIntrudes(o, t, i + 1, body, c.until, s);
  }

  lemma WhileIsFrom(o: Oracle, t: seq<Token>, i: nat, k: nat, body: nat, c: Command, s: State)
    requires c.While? && GoodBlock(c.cond) && Spans(t, i + 1, k, WriteList(c.cond)) && NoDefinitions(t) && Calm(s)
    requires i + 1 <= k < |t| && Kw(t, k, DoWord) && body == k + 1
    ensures RunWhile(o, t, i, true, c.until, s) == WhileFrom(o, t, i + 1, body, c.until, true, s)
  {
    hide Spans, RunListFrom, WhileFrom, NoDefinitions;
    PassedList(o, t, i + 1, k, c.cond, s.last, s);
    ListIs(o, t, i + 1, false, s);
  }

  lemma FromIntrudes(o: Oracle, t: seq<Token>, cond: nat, body: nat, until: bool, s: State)
    requires cond <= body <= |t| && Calm(s) && WhilePasses(o, t, cond, body, until, GUARD, s.last, s).s.intruded
    ensures WhileFrom(o, t, cond, body, until, true, s).s.intruded
  {
    hide WhilePasses, PassBody;
  }

  lemma PassIntrudes(o: Oracle, t: seq<Token>, cond: nat, body: nat, until: bool, left: nat, status: int, s: State)
    requires cond <= body <= |t| && left > 0 && Still(s) && !BlockEnd(t, SkipSeps(t, body))
    requires var g := RunList(o, t, cond, true, s); g.s.flow != NoFlow && (g.status == 0) != until
    ensures WhilePasses(o, t, cond, body, until, left, status, s).s.intruded
  {
    hide RunListFrom;
    var g := RunList(o, t, cond, true, s);
    ListIntrudes(o, t, body, Marked(g.s).last, Marked(g.s));
  }

  /** A case arm that begins with a command that leaves goes on to the next one. */
  lemma ArmExposed(t: seq<Token>, i: nat, e: nat, l: List, status: int, s: State)
    requires GoodList(l) && !EndsSemi(l) && Spans(t, i, e, WriteList(l)) && DoubleSemi(t, e) && Still(s)
    requires Headed(l) && (l.sep == Amp || !NoCommands(l.rest))
    ensures i <= |t| && RunArmBody(Leaver(h => 0), t, i, true, status, s).s.intruded
  {
    hide Spans, RunAndOr, RunArmBody, LeavingPipeline, SkipNewlines;
    var o := Leaver(h => 0);
    var j := HeadLeaves(h => 0, t, i, e, l, s);
    ReadArmBody(t, j + 1, e, l.rest);
    var m := RunAndOr(o, t, i, true, s);
    ArmGoes(o, t, i, j, status, s);
    if l.sep == Amp {
      ArmIntrudes(o, t, j, m.status, m.s);
    } else {
      ArmFirst(t, j + 1, e, l.rest);
      ArmIntrudes(o, t, j + 1, m.status, m.s);
    }
  }

  lemma ArmIntrudes(o: Oracle, t: seq<Token>, i: nat, status: int, s: State)
    requires i <= |t| && s.flow != NoFlow
    requires var j := SkipNewlines(t, i); !DoubleSemi(t, j) && At(t, j) != Eof && !Kw(t, j, EsacWord)
    ensures RunArmBody(o, t, i, true, status, s).s.intruded
  {
    hide RunAndOr, RunArmBody, SkipNewlines;
    ArmRuns(o, t, i, true, status, s);
    Intrudes(o, t, SkipNewlines(t, i), s);
  }

  lemma {:induction false} ArmFirst(t: seq<Token>, i: nat, e: nat, l: List)
    requires GoodList(l) && !EndsSemi(l) && Spans(t, i, e, WriteList(l)) && DoubleSemi(t, e) && !NoCommands(l)
    ensures Starts(t, SkipNewlines(t, i))
    decreases l
  {
    hide Spans;
    ReadArmBody(t, i, e, l);
    if l.Blank? {
      Take(t, i, e, Newline, WriteList(l.rest));
      ArmFirst(t, i + 1, e, l.rest);
    } else {
      var a := l.a;
      if l.Item? {
        var j := Split(t, i, e, WriteAndOr(a), [l.sep] + WriteList(l.rest));
        Take(t, j, e, l.sep, WriteList(l.rest));
        ReadAndOr(t, i, j, a);
      } else {
        ReadAndOr(t, i, e, a);
      }
    }
  }

  // ---------------------------------------------------------------------------------------------
  // Programs
  // ---------------------------------------------------------------------------------------------

  function W(w: string): Token {
    Word(Text(w))
  }

  /** One word as a command. */
  function Just(w: string): AndOr {
    Only(Plain(Final(Simple(Text(w), NoArgs))))
  }

  lemma WordText(w: string)
    ensures WriteAndOr(Just(w)) == [W(w)] && GoodAndOr(Just(w)) && OrderlyChain(Just(w))
    ensures LeavingChain(Just(w)) <==> W(w) in LEAVING
  {
    var c := Simple(Text(w), NoArgs);
    assert WriteSimple(c) == [W(w)] && GoodStages(Final(c));
    assert Holds(WriteSimple(c)) <==> W(w) in LEAVING by {
      if W(w) in LEAVING { assert WriteSimple(c)[0] in LEAVING; }
    }
  }

  /** The same with its semicolon. */
  function One(w: string): List {
    Item(Just(w), Semi, Empty)
  }

  lemma OneText(w: string)
    ensures WriteList(One(w)) == [W(w), Semi] && GoodBlock(One(w))
    ensures OrderlyList(One(w)) && (LeavingList(One(w)) <==> W(w) in LEAVING)
  {
    WordText(w);
    assert WriteList(One(w)) == WriteAndOr(Just(w)) + ([Semi] + []);
  }

  lemma DoOne(o: Oracle, w: string, status: int, s: State)
    ensures var u := Perform(o, s, Ran([W(w)], false)); DoList(o, One(w), status, s) == Did(u.last, u)
  {
    var c := Simple(Text(w), NoArgs);
    assert WriteSimple(c) == [W(w)];
    var u := Perform(o, s, Ran([W(w)], false));
    assert DoStages(o, Final(c), false, s) == Did(u.last, u);
    assert DoChain(o, Only(Plain(Final(c))), true, 0, false, s) == Did(u.last, u);
  }

  /** `if x; then y; fi`. */
  const INNER: Branches := When(One("x"), One("y"), Fi)

  /** `if true; then false; else if x; then y; fi; fi`. */
  const OUTER: Branches := When(One("true"), One("false"), Else(Item(Only(Compound(If(INNER))), Semi, Empty)))

  lemma InnerText()
    ensures WriteWhen(INNER) == [W("x"), Semi, Word(ThenWord), W("y"), Semi, Word(FiWord)]
    ensures GoodTail(INNER) && !LeavingTail(INNER) && OrderlyTail(INNER)
  {
    OneText("x");
    OneText("y");
    hide WriteList, GoodList, LeavingList, OrderlyList;
    assert WriteTail(Fi) == [Word(FiWord)];
  }

  lemma OuterText()
    ensures LParen !in WriteWhen(OUTER) && GoodTail(OUTER) && !LeavingTail(OUTER) && OrderlyTail(OUTER)
  {
    InnerText();
    OneText("true");
    OneText("false");
    var inner := Item(Only(Compound(If(INNER))), Semi, Empty);
    assert WriteCommand(If(INNER)) == [Word(IfWord)] + WriteWhen(INNER);
    assert WriteList(inner) == WriteCommand(If(INNER)) + ([Semi] + []);
    assert GoodBlock(inner) && !LeavingList(inner) && OrderlyList(inner);
    hide GoodList, LeavingList, OrderlyList, WriteList;
    assert LParen !in WriteTail(OUTER.tail);
  }

  /** It reports 0 although the branch it took failed. */
  lemma IfLosesStatus(o: Oracle, s: State)
    requires Honest(o) && OnlyBuiltins(o) && Still(s)
    requires var h := s.history + [Ran([W("true")], false)];
      o.outcome(h).status == 0 && o.outcome(h + [Ran([W("false")], false)]).status == 1
    ensures var r := RunList(o, WriteList(Bare(Only(Compound(If(OUTER))))), 0, true, s);
      r.status == 0 && r.s.last == 1 && r.s.flow == NoFlow
  {
    var l := Bare(Only(Compound(If(OUTER))));
    OuterText();
    NothingDefined(WriteList(l), 0);
    OrderlyProgramMeans(o, l, s);
    OuterMeans(o, s);
  }

  lemma OuterMeans(o: Oracle, s: State)
    requires OnlyBuiltins(o)
    requires var h := s.history + [Ran([W("true")], false)];
      o.outcome(h).status == 0 && o.outcome(h + [Ran([W("false")], false)]).status == 1
    ensures var d := DoIf(o, OUTER, s); d.status == 0 && d.s.last == 1 && d.s.flow == NoFlow
  {
    hide DoList, OnlyBuiltins, PassTail;
    var u := Perform(o, s, Ran([W("true")], false));
    var v := Perform(o, u, Ran([W("false")], false));
    DoOne(o, "true", s.last, s);
    DoOne(o, "false", u.last, u);
    assert u.flow == NoFlow && v.flow == NoFlow by {
      StaysIn(o, s.history, W("true"));
      StaysIn(o, u.history, W("false"));
    }
    TailReports(OUTER.tail, v.last, v.last);
    assert ResetsTail(OUTER.tail);
  }

  lemma StaysIn(o: Oracle, h: seq<Action>, w: Token)
    requires OnlyBuiltins(o) && w !in LEAVING
    ensures o.outcome(h + [Ran([w], false)]).flow == NoFlow
  {
  }

  /** `{ break; } && foo`: not in good order, yet the group is left at its `;`, where the parser sees no `&&`. */
  const GROUP_AND: List :=
    Bare(Chain(Compound(Brace(One("break"))), true, 0, Just("foo")))

  lemma GroupAndText()
    ensures WriteList(GROUP_AND) == [Word(OpenBrace), W("break"), Semi, Word(CloseBrace), AndIf, W("foo")]
    ensures GoodList(GROUP_AND) && !OrderlyList(GROUP_AND)
  {
    OneText("break");
    WordText("foo");
    assert Newlines(0) == [];
    hide WriteList, GoodList, LeavingList;
    var brace := Brace(One("break"));
    assert WriteCommand(brace) == [Word(OpenBrace)] + ([W("break"), Semi] + [Word(CloseBrace)]);
    assert LeavingPipeline(GROUP_AND.a.p);
    assert WriteAndOr(GROUP_AND.a) == WriteCommand(brace) + ([AndIf] + ([] + [W("foo")]));
    assert WriteList(GROUP_AND) == WriteAndOr(GROUP_AND.a) by { GroupAndBare(); }
    assert GoodList(GROUP_AND) by { GroupAndBare(); }
  }

  lemma GroupAndBare()
    ensures WriteList(GROUP_AND) == WriteAndOr(GROUP_AND.a) && (GoodList(GROUP_AND) <==> GoodAndOr(GROUP_AND.a))
  {
  }

  lemma GroupEscapes()
    ensures InTurn(WriteList(GROUP_AND)) && !OrderlyList(GROUP_AND)
  {
    GroupAndText();
    var t := WriteList(GROUP_AND);
    forall o, s | Honest(o) && OnlyBuiltins(o) && Still(s) ensures Clear(RunList(o, t, 0, true, s).s) {
      GroupRuns(o, t, s);
    }
  }

  lemma GroupRuns(o: Oracle, t: seq<Token>, s: State)
    requires t == [Word(OpenBrace), W("break"), Semi, Word(CloseBrace), AndIf, W("foo")] && Still(s)
    ensures Clear(RunList(o, t, 0, true, s).s)
  {
    hide RunPipeline, RunAndOrRest, RunListFrom, SkipSeps, SkipNewlines;
    GroupStops(t);
    var u := Perform(o, s, Ran([W("break")], false));
    var n := if u.flow != NoFlow then 2 else 4;
    GroupBody(o, t, s);
    GroupPipeline(o, t, n, s, u);
    if n == 2 {
      RestEnds(o, t, 2, u.last, u);
    } else {
      RestGoes(o, t, 4, 5, u.last, u);
      RunWord(o, t, 5, u.last == 0, u);
      var m := RunPipeline(o, t, 5, u.last == 0, u);
      RestEnds(o, t, 6, if u.last == 0 then m.status else u.last, m.s);
    }
    ListStill(o, t, s);
  }

  lemma GroupBody(o: Oracle, t: seq<Token>, s: State)
    requires t == [Word(OpenBrace), W("break"), Semi, Word(CloseBrace), AndIf, W("foo")] && Still(s)
    ensures var u := Perform(o, s, Ran([W("break")], false));
      RunListFrom(o, t, 1, true, s.last, s) == Out(if u.flow != NoFlow then 2 else 3, u.last, u)
  {
    hide RunPipeline, RunAndOr, RunListFrom, SkipSeps, Perform;
    GroupStops(t);
    var u := Perform(o, s, Ran([W("break")], false));
    RunWord(o, t, 1, true, s);
    RunWordAlone(o, t, 1, true, s);
    ListRuns(o, t, 1, true, s.last, s);
    ListRuns(o, t, 2, true, u.last, u);
  }

  lemma GroupStops(t: seq<Token>)
    requires t == [Word(OpenBrace), W("break"), Semi, Word(CloseBrace), AndIf, W("foo")]
    ensures SkipSeps(t, 0) == 0 && SkipSeps(t, 1) == 1 && SkipSeps(t, 2) == 3 && SkipNewlines(t, 5) == 5
  {
  }

  lemma GroupPipeline(o: Oracle, t: seq<Token>, n: nat, s: State, u: State)
    requires t == [Word(OpenBrace), W("break"), Semi, Word(CloseBrace), AndIf, W("foo")] && Still(s)
    requires RunListFrom(o, t, 1, true, s.last, s) == Out(if n == 4 then 3 else 2, u.last, u) && (n == 2 || n == 4)
    ensures RunPipeline(o, t, 0, true, s) == Out(n, u.last, u)
  {
    hide RunListFrom;
    var r := RunList(o, t, 1, true, s);
    assert RunCommand(o, t, 0, true, s) == r.(next := if Kw(t, r.next, CloseBrace) then r.next + 1 else r.next);
    assert CompoundStart(t, 0);
  }

  /** A list whose first chain is also its last, or leaves. */
  lemma ListStill(o: Oracle, t: seq<Token>, s: State)
    requires |t| > 0 && SkipSeps(t, 0) == 0 && !BlockEnd(t, 0)
    requires var r := RunAndOr(o, t, 0, true, s); Clear(r.s) && (r.s.flow != NoFlow || At(t, r.next) == Eof)
    ensures Clear(RunList(o, t, 0, true, s).s)
  {
    hide RunAndOr, RunListFrom;
    ListRuns(o, t, 0, true, s.last, s);
  }

  /** `{ y; } && b`. */
  function Joined(y: string, b: string): AndOr {
    Chain(Compound(Brace(One(y))), true, 0, Just(b))
  }

  lemma JoinedText(y: string, b: string)
    requires W(y) !in LEAVING
    ensures GoodAndOr(Joined(y, b)) && OrderlyChain(Joined(y, b))
    ensures WriteAndOr(Joined(y, b)) == [Word(OpenBrace), W(y), Semi, Word(CloseBrace), AndIf, W(b)]
  {
    OneText(y);
    hide WriteList, GoodList, OrderlyList, LeavingList;
    WordText(b);
    var group := Compound(Brace(One(y)));
    assert WritePipeline(group) == [Word(OpenBrace)] + ([W(y), Semi] + [Word(CloseBrace)]) && GoodPipeline(group);
    assert Newlines(0) == [] && !LeavingPipeline(group) && OrderlyPipeline(group);
    assert WriteAndOr(Joined(y, b)) == WritePipeline(group) + ([AndIf] + ([] + [W(b)]));
  }

  /** `a; then break; else chain; fi`. */
  function Around(a: string, chain: AndOr): Branches {
    When(One(a), One("break"), Else(Item(chain, Semi, Empty)))
  }

  lemma AroundText(a: string, chain: AndOr)
    requires W(a) !in LEAVING && GoodAndOr(chain) && OrderlyChain(chain)
    ensures GoodTail(Around(a, chain)) && OrderlyTail(Around(a, chain))
    ensures WriteWhen(Around(a, chain)) == [W(a), Semi, Word(ThenWord), W("break"), Semi, Word(ElseWord)]
      + WriteAndOr(chain) + [Semi, Word(FiWord)]
  {
    OneText(a);
    OneText("break");
    var body := Item(chain, Semi, Empty);
    assert WriteList(body) == WriteAndOr(chain) + ([Semi] + []);
    SingleGood(chain);
    hide WriteList, GoodList, OrderlyList, LeavingList;
    assert WriteTail(Else(body)) == [Word(ElseWord)] + (WriteList(body) + [Word(FiWord)]);
  }

  lemma SingleGood(a: AndOr)
    requires GoodAndOr(a) && OrderlyChain(a)
    ensures GoodBlock(Item(a, Semi, Empty)) && OrderlyList(Item(a, Semi, Empty))
  {
  }

  /** `{ if branches; }`. */
  function Grouped(b: Branches): List {
    Bare(Only(Compound(Brace(Item(Only(Compound(If(b))), Semi, Empty)))))
  }

  lemma GroupedText(b: Branches)
    requires b.When? && GoodTail(b) && OrderlyTail(b)
    ensures GoodList(Grouped(b)) && OrderlyList(Grouped(b))
    ensures WriteList(Grouped(b)) == [Word(OpenBrace), Word(IfWord)] + WriteWhen(b) + [Semi, Word(CloseBrace)]
  {
    hide WriteWhen, GoodTail, OrderlyTail;
    var p := Compound(If(b));
    assert GoodCommand(p.c) && OrderlyCommand(p.c);
    var a := Only(p);
    assert GoodAndOr(a) && OrderlyChain(a);
    SingleGood(a);
    var inner := Item(a, Semi, Empty);
    assert WriteCommand(p.c) == [Word(IfWord)] + WriteWhen(b);
    assert WriteAndOr(a) == WriteCommand(p.c);
    assert WriteList(inner) == WriteAndOr(a) + ([Semi] + []);
    var brace := Brace(inner);
    assert WriteCommand(brace) == [Word(OpenBrace)] + (WriteList(inner) + [Word(CloseBrace)]);
    assert GoodPipeline(Compound(brace)) && OrderlyPipeline(Compound(brace));
    assert WriteAndOr(Only(Compound(brace))) == WriteCommand(brace);
  }

  /** `{ if a; then break; else { y; } && b; fi; }`. */
  function Takeover(a: string, y: string, b: string): List {
    Grouped(Around(a, Joined(y, b)))
  }

  ghost predicate TakeoverTokens(t: seq<Token>, a: string, y: string, b: string) {
    && |t| == 18 && t[0] == Word(OpenBrace) && t[1] == Word(IfWord) && t[2] == W(a) && t[3] == Semi
    && t[4] == Word(ThenWord) && t[5] == W("break") && t[6] == Semi && t[7] == Word(ElseWord) && t[8] == Word(OpenBrace)
    && t[9] == W(y) && t[10] == Semi && t[11] == Word(CloseBrace) && t[12] == AndIf && t[13] == W(b) && t[14] == Semi
    && t[15] == Word(FiWord) && t[16] == Semi && t[17] == Word(CloseBrace)
  }

  lemma TakeoverText(a: string, y: string, b: string)
    requires W(a) !in LEAVING && W(y) !in LEAVING
    ensures TakeoverTokens(WriteList(Takeover(a, y, b)), a, y, b)
    ensures GoodList(Takeover(a, y, b)) && OrderlyList(Takeover(a, y, b))
  {
    hide WriteList, WriteWhen, WriteAndOr, GoodList, OrderlyList, Joined, Around;
    JoinedText(y, b);
    AroundText(a, Joined(y, b));
    assert Around(a, Joined(y, b)).When? by { AroundIs(a, Joined(y, b)); }
    GroupedText(Around(a, Joined(y, b)));
  }

  lemma AroundIs(a: string, chain: AndOr)
    ensures Around(a, chain).When?
  {
  }

  lemma TakeoverStops(t: seq<Token>, a: string, y: string, b: string)
    requires TakeoverTokens(t, a, y, b)
    ensures SkipSeps(t, 0) == 0 && SkipSeps(t, 1) == 1 && SkipSeps(t, 2) == 2 && SkipSeps(t, 3) == 4
    ensures SkipSeps(t, 4) == 4
    ensures SkipSeps(t, 5) == 5 && SkipSeps(t, 6) == 7 && SkipSeps(t, 8) == 8 && SkipSeps(t, 9) == 9
    ensures SkipSeps(t, 10) == 11
    ensures SkipNewlines(t, 13) == 13
  {
  }

  /** The condition, then the break, which is left at its semicolon in front of the `else`. */
  lemma TakeoverClause(o: Oracle, t: seq<Token>, a: string, y: string, b: string, s: State) returns (u: State)
    requires TakeoverTokens(t, a, y, b) && Still(s) && o == Leaver(h => 0) && W(a) !in LEAVING
    ensures u.flow == Return && u.last == 0 && RunClause(o, t, 2, true, s) == Clause(Out(7, 0, u), true)
  {
    hide RunPipeline, RunAndOr, RunListFrom, SkipSeps, Perform;
    TakeoverStops(t, a, y, b);
    var v := Perform(o, s, Ran([W(a)], false));
    u := Perform(o, v, Ran([W("break")], false));
    WordLeaves(s, W(a));
    WordLeaves(v, W("break"));
    RunWord(o, t, 2, true, s);
    RunWordAlone(o, t, 2, true, s);
    ListRuns(o, t, 2, true, s.last, s);
    ListRuns(o, t, 3, true, v.last, v);
    RunWord(o, t, 5, true, v);
    RunWordAlone(o, t, 5, true, v);
    ListRuns(o, t, 5, true, v.last, v);
  }

  lemma WordLeaves(s: State, w: Token)
    requires s.flow == NoFlow
    ensures var u := Perform(Leaver(h => 0), s, Ran([w], false));
      && u.flow == (if w in LEAVING then Return else NoFlow) && u.last == 0
      && u.intruded == s.intruded && u.astray == s.astray
  {
    assert Holds([w]) <==> w in LEAVING by {
      if w in LEAVING { assert [w][0] in LEAVING; }
    }
    var h := s.history + [Ran([w], false)];
    assert h[|h| - 1] == Ran([w], false);
    assert Leaves(h) <==> Holds([w]);
  }

  /** The `else` part, stepped over with the break pending: only as far as the first semicolon. */
  lemma TakeoverElse(o: Oracle, t: seq<Token>, a: string, y: string, b: string, u: State)
    requires TakeoverTokens(t, a, y, b) && u.flow == Return && u.last == 0
    ensures RunAfter(o, t, 7, true, true, 0, u) == Out(11, 0, u)
  {
    hide RunPipeline, RunAndOrRest, RunListFrom, RunIf, SkipSeps;
    TakeoverStops(t, a, y, b);
    RunWord(o, t, 9, false, u);
    RunWordAlone(o, t, 9, false, u);
    ListRuns(o, t, 9, false, u.last, u);
    BraceRuns(o, t, 8, false, u);
    assert RunAndOrRest(o, t, 10, false, 0, u) == Out(10, 0, u) by { RestIdle(o, t, 10, 0, u); }
    ListRuns(o, t, 8, false, u.last, u);
    var e := RunList(o, t, 8, false, u);
    assert e == Out(10, 0, u);
    TakeoverFi(o, t, a, y, b, u);
  }

  lemma RestIdle(o: Oracle, t: seq<Token>, i: nat, status: int, s: State)
    requires i <= |t| && !Joins(At(t, i))
    ensures RunAndOrRest(o, t, i, false, status, s) == Out(i, status, s)
  {
  }

  lemma BraceRuns(o: Oracle, t: seq<Token>, i: nat, run: bool, s: State)
    requires Kw(t, i, OpenBrace) && At(t, i + 1) != LParen && (run ==> s.flow == NoFlow)
    ensures i < |t| && var r := RunList(o, t, i + 1, run, s);
      RunPipeline(o, t, i, run, s) == r.(next := if Kw(t, r.next, CloseBrace) then r.next + 1 else r.next)
  {
    hide RunList;
  }

  lemma IfIsRun(o: Oracle, t: seq<Token>, i: nat, run: bool, s: State)
    requires Kw(t, i, IfWord) && At(t, i + 1) != LParen && (run ==> s.flow == NoFlow)
    ensures i < |t| && RunPipeline(o, t, i, run, s) == RunIf(o, t, i + 1, run, false, s)
  {
    hide RunIf;
  }

  lemma TakeoverFi(o: Oracle, t: seq<Token>, a: string, y: string, b: string, u: State)
    requires TakeoverTokens(t, a, y, b) && RunList(o, t, 8, false, u) == Out(10, 0, u) && SkipSeps(t, 10) == 11
    ensures RunAfter(o, t, 7, true, true, 0, u) == Out(11, 0, u)
  {
    hide RunList, RunIf, SkipSeps;
  }

  /** So the `if` is left at the inner brace, which the outer group takes for its own. */
  lemma TakeoverOuter(o: Oracle, t: seq<Token>, a: string, y: string, b: string, s: State, u: State)
    requires TakeoverTokens(t, a, y, b) && Still(s) && u.flow == Return
    requires RunIf(o, t, 2, true, false, s) == Out(11, 0, u)
    ensures RunPipeline(o, t, 0, true, s) == Out(12, 0, u)
  {
    hide RunIf, RunPipeline, RunAndOr, RunListFrom, SkipSeps;
    TakeoverStops(t, a, y, b);
    TakeoverInner(o, t, a, y, b, s, u);
    ListRuns(o, t, 1, true, s.last, s);
    BraceRuns(o, t, 0, true, s);
  }

  lemma TakeoverInner(o: Oracle, t: seq<Token>, a: string, y: string, b: string, s: State, u: State)
    requires TakeoverTokens(t, a, y, b) && Still(s) && u.flow == Return
    requires RunIf(o, t, 2, true, false, s) == Out(11, 0, u)
    ensures RunAndOr(o, t, 1, true, s) == Out(11, 0, u)
  {
    hide RunIf, RunPipeline, RunAndOrRest;
    IfIsRun(o, t, 1, true, s);
    RestEnds(o, t, 11, 0, u);
  }

  lemma TakeoverRuns(t: seq<Token>, a: string, y: string, b: string, s: State)
    requires TakeoverTokens(t, a, y, b) && Still(s) && W(a) !in LEAVING
    ensures RunAndOr(Leaver(h => 0), t, 0, true, s).s.intruded
  {
    hide RunPipeline, RunAndOrRest, RunIf, RunAfter, RunClause, SkipSeps, SkipNewlines;
    var o := Leaver(h => 0);
    TakeoverStops(t, a, y, b);
    var u := TakeoverClause(o, t, a, y, b, s);
    IfRuns(o, t, 2, true, false, s);
    TakeoverElse(o, t, a, y, b, u);
    TakeoverOuter(o, t, a, y, b, s, u);
    RestGoes(o, t, 12, 13, 0, u);
    Intrudes(o, t, 13, u);
  }

  lemma TakeoverJoined(t: seq<Token>, a: string, y: string, b: string)
    requires TakeoverTokens(t, a, y, b)
    ensures !Unjoined(t)
  {
    assert Joins(t[12]) && !Ends(t[11]);
  }

  lemma TakeoverListed(t: seq<Token>, a: string, y: string, b: string, s: State)
    requires TakeoverTokens(t, a, y, b) && Still(s) && W(a) !in LEAVING
    ensures RunList(Leaver(h => 0), t, 0, true, s).s.intruded
  {
    hide RunAndOr, RunListFrom, SkipSeps, Leaver, Agrees;
    assert !BlockEnd(t, 0);
    TakeoverStops(t, a, y, b);
    TakeoverRuns(t, a, y, b, s);
    ListRuns(Leaver(h => 0), t, 0, true, s.last, s);
  }

  /** In good order but for the `&&` behind the inner group, which the executor falls on with the break pending. */
  lemma JointTakesOver(a: string, y: string, b: string, s: State)
    requires W(a) !in LEAVING && W(y) !in LEAVING && Still(s)
    ensures var l := Takeover(a, y, b);
      && GoodList(l) && OrderlyList(l) && !Unjoined(WriteList(l))
      && RunList(Leaver(h => 0), WriteList(l), 0, true, s).s.intruded
  {
    hide *;
    TakeoverText(a, y, b);
    TakeoverListed(WriteList(Takeover(a, y, b)), a, y, b, s);
    TakeoverJoined(WriteList(Takeover(a, y, b)), a, y, b);
  }
}
