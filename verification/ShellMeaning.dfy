/**
  What a shell program means, by its grammar tree, and that the one-pass executor of run.c does exactly that:
  the same commands in the same order with the same outcome.
 */
module ShellMeaning {
  import opened ShellSkip
  import opened ShellRun
  import opened ShellGrammar

  datatype Did = Did(status: int, s: State)

  // ---------------------------------------------------------------------------------------------
  // Statuses of what is not run
  // ---------------------------------------------------------------------------------------------

  /** The status that stepping over a pipeline reports: 0 for an `if` or `case`, else what it last was. */
  function PassPipeline(p: Pipeline, last: int): int {
    if p.Plain? then last
    else match p.c
      case If(_) => 0
      case Case(_, _, _) => 0
      case Brace(body) => PassList(body, last, last)
      case _ => last
  }

  function PassList(l: List, status: int, last: int): int {
    match l
    case Empty => status
    case Blank(rest) => PassList(rest, status, last)
    case Bare(a) => PassPipeline(a.p, last)
    case Item(a, _, rest) => PassList(rest, PassPipeline(a.p, last), last)
  }

  /** The status of an `if` whose branch was taken, after its other branches were stepped over. */
  function PassTail(tail: Branches, result: int, last: int): int {
    match tail
    case Fi => result
    case Else(body) => PassList(body, last, last)
    case When(_, thn, rest) => PassTail(rest, PassList(thn, last, last), last)
  }

  // ---------------------------------------------------------------------------------------------
  // Meaning
  // ---------------------------------------------------------------------------------------------

  function DoStages(o: Oracle, st: Stages, background: bool, s: State): Did {
    var u := if st.Final? then Perform(o, s, Ran(WriteSimple(st.s), background))
             else PerformChild(o, s, Streamed(WriteStages(st), background));
    Did(u.last, u)
  }

  function DoPipeline(o: Oracle, p: Pipeline, background: bool, s: State): Did
    decreases p
  {
    match p
    case Plain(stages) => DoStages(o, stages, background, s)
    case Compound(c) => DoCommand(o, c, s)
  }

  /** A chain from here on, with the status so far: run this part or step over it. */
  function DoChain(o: Oracle, a: AndOr, run: bool, status: int, background: bool, s: State): Did
    decreases a
  {
    var d := if run then DoPipeline(o, a.p, background && a.Only?, s) else Did(status, s);
    if a.Only? || d.s.flow != NoFlow then d
    else DoChain(o, a.rest, a.isAnd <==> d.status == 0, d.status, background, d.s)
  }

  function DoList(o: Oracle, l: List, status: int, s: State): Did
    decreases l, 0
  {
    match l
    case Empty => Did(status, s)
    case Blank(rest) => DoList(o, rest, status, s)
    case Bare(a) => DoChain(o, a, true, 0, false, s)
    case Item(a, sep, rest) =>
      var d := DoChain(o, a, true, 0, sep == Amp, s);
      if d.s.flow != NoFlow then d else DoList(o, rest, d.status, d.s)
  }

  function DoIf(o: Oracle, b: Branches, s: State): Did
    requires b.When?
    decreases b, 0
  {
    var c := DoList(o, b.cond, s.last, s);
    if c.s.flow != NoFlow then c
    else if c.status == 0 then
      var d := DoList(o, b.thn, c.s.last, c.s);
      if d.s.flow != NoFlow then d else Did(PassTail(b.tail, d.status, d.s.last), d.s)
    else DoTail(o, b.tail, c.s)
  }

  function DoTail(o: Oracle, tail: Branches, s: State): Did
    decreases tail, 1
  {
    match tail
    case Fi => Did(0, s)
    case Else(body) => DoList(o, body, s.last, s)
    case When(_, _, _) => DoIf(o, tail, s)
  }

  function DoPasses(o: Oracle, name: Lexeme, body: List, n: nat, count: nat, status: int, s: State): Did
    requires n <= count
    decreases body, 1, count - n
  {
    if n == count then Did(status, s)
    else
      var b := Bind(s, Word(name), n);
      var d := DoList(o, body, b.last, b);
      var (u, on) := Caught(d.s);
      if on then DoPasses(o, name, body, n + 1, count, d.status, u) else Did(d.status, u)
  }

  function DoWhile(o: Oracle, c: Command, left: nat, status: int, s: State): Did
    requires c.While?
    decreases c, 1, left
  {
    if left == 0 then Did(status, s)
    else
      var g := DoList(o, c.cond, s.last, s);
      if (g.status == 0) == c.until || g.s.flow != NoFlow then Did(status, g.s)
      else
        var d := DoList(o, c.body, g.s.last, g.s);
        var (u, on) := Caught(d.s);
        if on then DoWhile(o, c, left - 1, d.status, u) else Did(d.status, u)
  }

  /** The commands of an arm: one put in the background reports what was last. */
  function DoArm(o: Oracle, l: List, status: int, s: State): Did
    decreases l, 0
  {
    match l
    case Empty => Did(status, s)
    case Blank(rest) => DoArm(o, rest, status, s)
    case Bare(a) => DoChain(o, a, true, 0, false, s)
    case Item(a, sep, rest) =>
      var d := DoChain(o, a, true, 0, sep == Amp, s);
      if d.s.flow != NoFlow then d else DoArm(o, rest, if sep == Amp then d.s.last else d.status, d.s)
  }

  function DoArms(o: Oracle, word: Lexeme, arms: Arms, s: State): Did
    decreases arms
  {
    if arms.NoArms? then Did(0, s)
    else if o.fits(s.history, Word(word), WritePatterns(arms.patterns)) then DoArm(o, arms.body, s.last, s)
    else DoArms(o, word, arms.rest, s)
  }

  function DoCommand(o: Oracle, c: Command, s: State): Did
    decreases c, 2
  {
    match c
    case If(branches) => if branches.When? then DoIf(o, branches, s) else Did(s.last, s)
    case For(name, words, body) => DoPasses(o, name, body, 0, o.words(s.history, WriteWords(words)), s.last, s)
    case ForParams(name, body) => DoPasses(o, name, body, 0, o.parameters(s.history), s.last, s)
    case While(_, _, _) => DoWhile(o, c, GUARD, s.last, s)
    case Case(word, _, arms) => DoArms(o, word, arms, s)
    case Brace(body) => DoList(o, body, s.last, s)
    case Subshell(body) => var u := PerformChild(o, s, Forked(WriteList(body))); Did(u.last, u)
    case Function(_, _, _) => Did(0, s)
  }

  // ---------------------------------------------------------------------------------------------
  // Stepping over
  // ---------------------------------------------------------------------------------------------

  /** With nothing pending, skipping leaves the state and ends at the skipped token. */
  lemma Skipped(t: seq<Token>, s: State, r: Out, e: nat)
    requires NoDefinitions(t) && Calm(s) && Steady(t, false, s, r.s) && Agrees(false, s, r, e)
    ensures r.s == s && r.next == e
  {
  }

  lemma {:induction false} RestPassed(o: Oracle, t: seq<Token>, i: nat, status: int, s: State)
    requires i <= |t|
    ensures RunAndOrRest(o, t, i, false, status, s).status == status
    decreases |t| - i
  {
    hide RunPipeline;
    if Joins(At(t, i)) {
      var r := RunPipeline(o, t, SkipNewlines(t, i + 1), false, s);
      RestPassed(o, t, r.next, status, r.s);
    }
  }

  lemma {:induction false} IfPassed(o: Oracle, t: seq<Token>, i: nat, s: State)
    requires i <= |t|
    ensures RunIf(o, t, i, false, false, s).status == 0
    decreases |t| - i
  {
    hide RunClause, RunList;
    var c := RunClause(o, t, i, false, s);
    var r := RunAfter(o, t, c.r.next, false, false, c.r.status, c.r.s);
    assert RunIf(o, t, i, false, false, s) == r;
    if Kw(t, c.r.next, ElifWord) {
      IfPassed(o, t, c.r.next + 1, c.r.s);
    } else {
      assert r == RunElse(o, t, c.r.next, false, false, c.r.status, c.r.s);
    }
  }

  lemma {:induction false} ArmsPassed(o: Oracle, t: seq<Token>, i: nat, word: Token, status: int, s: State)
    requires i <= |t|
    ensures RunArms(o, t, i, false, word, false, status, s).status == 0
    decreases |t| - i
  {
    hide RunArm;
    if At(t, i) != Eof && !Kw(t, i, EsacWord) {
      var b := RunArm(o, t, i, false, status, s);
      ArmsPassed(o, t, b.next, word, b.status, b.s);
    }
  }

  lemma PlainPassed(o: Oracle, t: seq<Token>, i: nat, s: State)
    requires i <= |t| && !CompoundStart(t, i) && !Definition(t, i)
    ensures RunPipeline(o, t, i, false, s).status == s.last
  {
  }

  /** What stands between two tokens. */
  lemma Inside(t: seq<Token>, i: nat, e: nat, first: Token, body: seq<Token>, last: Token) returns (m: nat)
    requires Spans(t, i, e, [first] + (body + [last]))
    ensures At(t, i) == first && i + 1 <= m < e <= |t| && Spans(t, i + 1, m, body) && At(t, m) == last && e == m + 1
  {
    Take(t, i, e, first, body + [last]);
    m := Split(t, i + 1, e, body, [last]);
    Last(t, m, e, last);
  }

  lemma {:induction false} PassedPipeline(o: Oracle, t: seq<Token>, i: nat, e: nat, p: Pipeline, s: State)
    requires GoodPipeline(p) && Spans(t, i, e, WritePipeline(p)) && NoDefinitions(t) && Calm(s)
    requires FollowsList(t, e) || (Joins(At(t, e)) && !(p.Compound? && p.c.Function?))
    ensures RunPipeline(o, t, i, false, s) == Out(e, PassPipeline(p, s.last), s)
    decreases p
  {
    hide Spans, RunCommand, RunSimple, RunStages, SkipPipeline, Steady, Agrees, NoDefinitions;
    ReadPipeline(t, i, e, p);
    Skipped(t, s, RunPipeline(o, t, i, false, s), e);
    match p
    case Plain(stages) =>
      ReadStages(t, i, e, stages);
      PlainPassed(o, t, i, s);
    case Compound(c) =>
      ReadCommand(t, i, e, c);
      PassedCommand(o, t, i, e, c, s);
  }

  lemma {:induction false} PassedCommand(o: Oracle, t: seq<Token>, i: nat, e: nat, c: Command, s: State)
    requires GoodCommand(c) && Spans(t, i, e, WriteCommand(c)) && NoDefinitions(t) && Calm(s)
    requires c.Function? ==> FollowsList(t, e)
    ensures i <= |t| && RunCommand(o, t, i, false, s).status == PassPipeline(Compound(c), s.last)
    decreases c, 1
  {
    hide Spans, WriteCommand, GoodCommand, RunIf, RunFor, RunWhile, RunCase, RunList, RunSubshell;
    Bounded(t, i, e, WriteCommand(c));
    NoDefinitionAt(t, 0, i);
    match c
    case If(_) =>
      ReadIf(t, i, e, c);
      IfPassed(o, t, i + 1, s);
    case For(_, _, _) =>
      ReadFor(t, i, e, c);
      ForPassed(o, t, i, s);
    case ForParams(_, _) =>
      ReadFor(t, i, e, c);
      ForPassed(o, t, i, s);
    case While(_, _, _) =>
      ReadWhile(t, i, e, c);
      WhilePassed(o, t, i, c.until, s);
    case Case(_, _, _) =>
      ReadCase(t, i, e, c);
      CasePassed(o, t, i, s);
    case Brace(body) =>
      ReadGroup(t, i, e, c);
      PassedBrace(o, t, i, e, c, s);
    case Subshell(body) =>
      ReadGroup(t, i, e, c);
      SubshellPassed(o, t, i, e, c, s);
    case Function(_, _, _) =>
      ReadFunction(t, i, e, c);
  }

  lemma ForPassed(o: Oracle, t: seq<Token>, i: nat, s: State)
    requires i < |t|
    ensures RunFor(o, t, i, false, s).status == s.last
  {
    hide PassTo;
  }

  lemma WhilePassed(o: Oracle, t: seq<Token>, i: nat, until: bool, s: State)
    requires i < |t| && NoDefinitions(t)
    ensures RunWhile(o, t, i, false, until, s).status == s.last
  {
    hide RunList, PassTo, Steady;
    var c := RunList(o, t, i + 1, false, s);
    SteadyFlow(t, s, c.s);
    var body := if Kw(t, c.next, DoWord) then c.next + 1 else c.next;
    assert RunWhile(o, t, i, false, until, s) == WhileFrom(o, t, i + 1, body, until, false, c.s);
  }

  lemma CasePassed(o: Oracle, t: seq<Token>, i: nat, s: State)
    requires i < |t|
    ensures RunCase(o, t, i, false, s).status == 0
  {
    hide RunArms;
    ArmsPassed(o, t, CaseArms(t, i), At(t, i + 1), s.last, s);
  }

  lemma SubshellPassed(o: Oracle, t: seq<Token>, i: nat, e: nat, c: Command, s: State)
    requires c.Subshell? && Spans(t, i, e, WriteCommand(c)) && NoDefinitions(t)
    ensures At(t, i) == LParen && RunSubshell(o, t, i, false, s).status == s.last
  {
    hide RunList;
    var m := Inside(t, i, e, LParen, WriteList(c.body), RParen);
  }

  lemma {:induction false} PassedBrace(o: Oracle, t: seq<Token>, i: nat, e: nat, c: Command, s: State)
    requires c.Brace? && GoodCommand(c) && Spans(t, i, e, WriteCommand(c)) && NoDefinitions(t) && Calm(s)
    ensures i + 1 <= |t| && Kw(t, i, OpenBrace)
    ensures RunList(o, t, i + 1, false, s).status == PassList(c.body, s.last, s.last)
    decreases c, 0
  {
    var m := Inside(t, i, e, Word(OpenBrace), WriteList(c.body), Word(CloseBrace));
    PassedList(o, t, i + 1, m, c.body, s.last, s);
  }

  lemma {:induction false} PassedList(o: Oracle, t: seq<Token>, i: nat, e: nat, l: List, status: int, s: State)
    requires GoodList(l) && Spans(t, i, e, WriteList(l)) && BlockEnd(t, e) && (EndsBare(l) ==> FollowsList(t, e))
    requires NoDefinitions(t) && Calm(s)
    ensures i <= |t| && RunListFrom(o, t, i, false, status, s) == Out(e, PassList(l, status, s.last), s)
    decreases l, 0
  {
    hide Spans, RunAndOr, RunListFrom, Steady, Agrees, NoDefinitions, SkipAndOr;
    Bounded(t, i, e, WriteList(l));
    match l
    case Empty =>
      Nothing(t, i, e);
      ListEnds(o, t, i, false, status, s);
    case Blank(rest) =>
      Take(t, i, e, Newline, WriteList(rest));
      PassedList(o, t, i + 1, e, rest, status, s);
      ListBlank(o, t, i, false, status, s);
    case Bare(a) =>
      PassedAndOr(o, t, i, e, a, s);
      ListItem(o, t, i, false, status, s);
    case Item(a, sep, rest) =>
      var j := Split(t, i, e, WriteAndOr(a), [sep] + WriteList(rest));
      Take(t, j, e, sep, WriteList(rest));
      PassedAndOr(o, t, i, j, a, s);
      PassedList(o, t, j + 1, e, rest, PassPipeline(a.p, s.last), s);
      ListItem(o, t, i, false, status, s);
      if Sep(sep) { ListBlank(o, t, j, false, PassPipeline(a.p, s.last), s); }
  }

  lemma {:induction false} PassedAndOr(o: Oracle, t: seq<Token>, i: nat, e: nat, a: AndOr, s: State)
    requires GoodAndOr(a) && Spans(t, i, e, WriteAndOr(a)) && FollowsList(t, e) && NoDefinitions(t) && Calm(s)
    ensures i < e <= |t| && Starts(t, i) && RunAndOr(o, t, i, false, s) == Out(e, PassPipeline(a.p, s.last), s)
    decreases a, 1
  {
    hide Spans, RunPipeline, RunAndOrRest, Steady, Agrees, NoDefinitions, SkipAndOr;
    Bounded(t, i, e, WriteAndOr(a));
    ReadAndOr(t, i, e, a);
    Skipped(t, s, RunAndOr(o, t, i, false, s), e);
    var j := e;
    if a.Chain? {
      j := Split(t, i, e, WritePipeline(a.p),
                 [if a.isAnd then AndIf else OrIf] + (Newlines(a.breaks) + WriteAndOr(a.rest)));
      Take(t, j, e, if a.isAnd then AndIf else OrIf, Newlines(a.breaks) + WriteAndOr(a.rest));
    }
    PassedPipeline(o, t, i, j, a.p, s);
    RestPassed(o, t, j, PassPipeline(a.p, s.last), s);
  }

  // How the list parser goes on.

  lemma ListEnds(o: Oracle, t: seq<Token>, i: nat, run: bool, status: int, s: State)
    requires i <= |t| && BlockEnd(t, i)
    ensures RunListFrom(o, t, i, run, status, s) == Out(i, status, s)
  {
    hide RunAndOr, RunListFrom;
    ListRuns(o, t, i, run, status, s);
  }

  lemma ListBlank(o: Oracle, t: seq<Token>, i: nat, run: bool, status: int, s: State)
    requires i < |t| && Sep(At(t, i))
    ensures RunListFrom(o, t, i, run, status, s) == RunListFrom(o, t, i + 1, run, status, s)
  {
    hide RunAndOr, RunListFrom;
    ListRuns(o, t, i, run, status, s);
    ListRuns(o, t, i + 1, run, status, s);
    assert SkipSeps(t, i) == SkipSeps(t, i + 1);
  }

  lemma ListItem(o: Oracle, t: seq<Token>, i: nat, run: bool, status: int, s: State)
    requires i < |t| && Starts(t, i)
    ensures var r := RunAndOr(o, t, i, run, s);
      RunListFrom(o, t, i, run, status, s) ==
        if r.s.flow != NoFlow || (At(t, r.next) != Amp && BlockEnd(t, r.next)) then r
        else RunListFrom(o, t, if At(t, r.next) == Amp then r.next + 1 else r.next, run, r.status, r.s)
  {
    hide RunAndOr, RunListFrom;
    ListRuns(o, t, i, run, status, s);
  }
}
