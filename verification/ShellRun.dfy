/**
  What the stsh executor (user/bin/stsh/run.c) does, as functions: each parses and runs in one pass over the
  tokens and gives the token it stops at, its status and the new state. What the commands themselves do is an
  oracle's answer to everything that has been started so far.
 */
module ShellRun {
  import opened ShellSkip

  datatype Flow = NoFlow | Break | Continue | Return

  /** What reaches the outside: commands, pipelines, subshells, and the loop variable. */
  datatype Action =
    | Ran(cmd: seq<Token>, background: bool)
    | Streamed(cmd: seq<Token>, background: bool)
    | Forked(body: seq<Token>)
    | Bound(name: Lexeme, n: nat)

  type Functions = map<Lexeme, seq<Token>>

  datatype Outcome = Outcome(flow: Flow, levels: int, status: int, functions: Functions)

  /** The answers, each to the history so far: outcomes, expansions of word lists, parameters, matches. */
  datatype Oracle = Oracle(
    outcome: seq<Action> -> Outcome,
    words: (seq<Action>, seq<Token>) -> nat,
    parameters: seq<Action> -> nat,
    fits: (seq<Action>, Token, seq<Token>) -> bool)

  /**
    The shell's state, with two marks that it does not keep itself: `intruded`, something was run although a
    break, continue or return was pending; `astray`, the condition of a loop left one pending.
   */
  datatype State = State(
    flow: Flow, levels: int, last: int, functions: Functions, history: seq<Action>, intruded: bool, astray: bool)

  datatype Out = Out(next: nat, status: int, s: State)

  /** No token sequence `name ( )` from `i` on. */
  predicate NoDefinitionsFrom(t: seq<Token>, i: nat)
    decreases |t| - i
  {
    i >= |t| || (!Definition(t, i) && NoDefinitionsFrom(t, i + 1))
  }

  predicate NoDefinitions(t: seq<Token>) {
    NoDefinitionsFrom(t, 0)
  }

  lemma {:induction false} NoDefinitionAt(t: seq<Token>, from: nat, i: nat)
    requires NoDefinitionsFrom(t, from) && from <= i
    ensures !Definition(t, i)
    decreases i - from
  {
    if from < i && from < |t| {
      NoDefinitionAt(t, from + 1, i);
    }
  }

  /** Only definitions have had an effect. */
  predicate Kept(t: seq<Token>, s: State, u: State) {
    u == s.(functions := u.functions, last := u.last) && (NoDefinitions(t) ==> u == s)
  }

  /** Skipping keeps the state, and so does running while a flow is pending, until something is started. */
  predicate Steady(t: seq<Token>, run: bool, s: State, u: State) {
    && (s.intruded ==> u.intruded) && (s.astray ==> u.astray)
    && (!run || (s.flow != NoFlow && !u.intruded) ==> Kept(t, s, u))
  }

  /** Nothing is pending, and nothing was started out of turn. */
  predicate Calm(s: State) {
    s.flow == NoFlow && !s.intruded
  }

  /** Where nothing is left pending, nor was run out of turn if it was run, the token reached is the skipped one. */
  predicate Agrees(run: bool, s: State, r: Out, skipped: nat) {
    s.flow == NoFlow && r.s.flow == NoFlow && (run ==> !r.s.intruded) ==> r.next == skipped
  }

  lemma SteadySame(t: seq<Token>, run: bool, s: State)
    ensures Steady(t, run, s, s)
  {
  }

  lemma SteadyFlow(t: seq<Token>, s: State, u: State)
    requires Steady(t, false, s, u)
    ensures u.flow == s.flow && u.intruded == s.intruded && (NoDefinitions(t) ==> u == s)
  {
  }

  lemma SteadyMore(t: seq<Token>, less: bool, run: bool, s: State, u: State)
    requires Steady(t, less, s, u) && (less ==> run)
    ensures Steady(t, run, s, u)
  {
  }

  lemma SteadyNext(t: seq<Token>, run: bool, s: State, m: State, more: bool, u: State)
    requires Steady(t, run, s, m) && Steady(t, more, m, u) && (more ==> run)
    ensures Steady(t, run, s, u) && (Calm(u) ==> Calm(m))
  {
  }

  /** What is pending in between stays pending, unless something is run on top of it. */
  lemma SteadyPending(t: seq<Token>, run: bool, s: State, m: State, more: bool, u: State)
    requires Steady(t, run, s, m) && Steady(t, more, m, u) && (more ==> run)
    ensures (run ==> !u.intruded) && u.flow == NoFlow && s.flow == NoFlow ==> m.flow == NoFlow && (run ==> !m.intruded)
  {
  }

  // How the skipping parser goes on, one step at a time.

  lemma ListStep(t: seq<Token>, i: nat)
    ensures var j := SkipSeps(t, i);
      if BlockEnd(t, j) then SkipList(t, i) == j
      else
        var n := SkipAndOr(t, j);
        && SkipList(t, i) == SkipList(t, if At(t, n) == Amp then n + 1 else n)
        && (BlockEnd(t, n) ==> SkipList(t, i) == n)
  {
    hide SkipAndOr;
  }

  lemma IfStep(t: seq<Token>, i: nat, live: bool, s: State, c: Out, more: bool, r: Out)
    requires i <= |t| && c.next <= |t| && Agrees(live, s, c, SkipClause(t, i)) && (more ==> live)
    requires Agrees(more, c.s, r, SkipAfter(t, c.next)) && Steady(t, live, s, c.s) && Steady(t, more, c.s, r.s)
    ensures Agrees(live, s, r, SkipIf(t, i))
  {
    hide SkipAfter, SkipClause;
    SteadyPending(t, live, s, c.s, more, r.s);
  }

  lemma ArmStep(t: seq<Token>, i: nat)
    ensures var j := SkipNewlines(t, i);
      if DoubleSemi(t, j) || At(t, j) == Eof || Kw(t, j, EsacWord) then SkipArmBody(t, i) == j
      else
        var n := SkipAndOr(t, j);
        if DoubleSemi(t, n) then SkipArmBody(t, i) == n
        else
          var k := if Sep(At(t, n)) then n + 1 else n;
          SkipArmBody(t, i) == SkipArmBody(t, if k == j then j + 1 else k)
  {
    hide SkipAndOr;
  }

  // ---------------------------------------------------------------------------------------------
  // Commands
  // ---------------------------------------------------------------------------------------------

  /** A command in the shell itself: anything may come back. */
  function Perform(o: Oracle, s: State, a: Action): State {
    var h := s.history + [a];
    var r := o.outcome(h);
    State(r.flow, r.levels, r.status, r.functions, h, s.intruded || s.flow != NoFlow, s.astray)
  }

  /** Work in a child: only its status comes back. */
  function PerformChild(o: Oracle, s: State, a: Action): State {
    var h := s.history + [a];
    s.(last := o.outcome(h).status, history := h)
  }

  /** There is a word in the simple command at `i`. */
  function SeesWord(t: seq<Token>, i: nat): bool
    decreases |t| - i
  {
    if At(t, i).Word? then !BlockEnd(t, i)
    else if RedirectLength(t, i) > 0 then SeesWord(t, i + RedirectLength(t, i))
    else false
  }

  function Slice(t: seq<Token>, i: nat, j: nat): seq<Token> {
    if i <= j <= |t| then t[i..j] else []
  }

  function RunSimple(o: Oracle, t: seq<Token>, i: nat, run: bool, s: State): (r: Out)
    requires i <= |t| && (run && s.flow != NoFlow ==> s.intruded)
    ensures r.next == SkipSimple(t, i, false) && Steady(t, run, s, r.s)
  {
    var j := SkipSimple(t, i, false);
    var u := if run && SeesWord(t, i) then Perform(o, s, Ran(Slice(t, i, j), At(t, j) == Amp)) else s;
    Out(j, u.last, u)
  }

  /** A multi-stage pipeline: every stage runs in a child, so no flow comes back. */
  function RunStages(o: Oracle, t: seq<Token>, i: nat, run: bool, s: State): (r: Out)
    requires i <= |t| && (run && s.flow != NoFlow ==> s.intruded)
    ensures r.next == SkipStages(t, i) && Steady(t, run, s, r.s)
  {
    var j := SkipStages(t, i);
    var u := if run then PerformChild(o, s, Streamed(Slice(t, i, j), At(t, j) == Amp)) else s;
    Out(j, u.last, u)
  }

  function RunPipeline(o: Oracle, t: seq<Token>, i: nat, run: bool, s: State): (r: Out)
    requires i <= |t|
    ensures i <= r.next <= |t| && (!Stuck(t, i) && !Joins(At(t, i)) ==> r.next > i)
    ensures Steady(t, run, s, r.s) && Agrees(run, s, r, SkipPipeline(t, i))
    decreases |t| - i, 3
  {
    hide RunCommand, RunSimple, RunStages;
    var u := if run && s.flow != NoFlow then s.(intruded := true) else s;
    if CompoundStart(t, i) || Definition(t, i) then RunCommand(o, t, i, run, u)
    else if At(t, SkipSimple(t, i, false)) != Pipe then RunSimple(o, t, i, run, u)
    else RunStages(o, t, i, run, u)
  }

  function RunAndOrRest(o: Oracle, t: seq<Token>, i: nat, run: bool, status: int, s: State): (r: Out)
    requires i <= |t|
    ensures i <= r.next <= |t| && (Joins(At(t, i)) ==> r.next > i)
    ensures Steady(t, run, s, r.s) && Agrees(run, s, r, SkipAndOrRest(t, i))
    decreases |t| - i, 0
  {
    hide RunPipeline;
    if !Joins(At(t, i)) then Out(i, status, s)
    else
      var doRun := run && (At(t, i) == AndIf <==> status == 0);
      var r := RunPipeline(o, t, SkipNewlines(t, i + 1), doRun, s);
      RunAndOrRest(o, t, r.next, run, if doRun then r.status else status, r.s)
  }

  function RunAndOr(o: Oracle, t: seq<Token>, i: nat, run: bool, s: State): (r: Out)
    requires i <= |t|
    ensures i <= r.next <= |t| && (!Stuck(t, i) ==> r.next > i)
    ensures Steady(t, run, s, r.s) && Agrees(run, s, r, SkipAndOr(t, i))
    decreases |t| - i, 4
  {
    hide RunPipeline, RunAndOrRest;
    var r := RunPipeline(o, t, i, run, s);
    RunAndOrRest(o, t, r.next, run, r.status, r.s)
  }

  function RunListFrom(o: Oracle, t: seq<Token>, i: nat, run: bool, status: int, s: State): (r: Out)
    requires i <= |t|
    ensures i <= r.next <= |t|
    ensures Steady(t, run, s, r.s) && Agrees(run, s, r, SkipList(t, i))
    decreases |t| - i, 5
  {
    hide SkipList, SkipAndOr, SkipSeps, Steady, RunAndOr;
    SteadySame(t, run, s);
    ListStep(t, i);
    var j := SkipSeps(t, i);
    if BlockEnd(t, j) then Out(j, status, s)
    else
      var r := RunAndOr(o, t, j, run, s);
      if r.s.flow != NoFlow || (At(t, r.next) != Amp && BlockEnd(t, r.next)) then r
      else
        var q := RunListFrom(o, t, if At(t, r.next) == Amp then r.next + 1 else r.next, run, r.status, r.s);
        SteadyNext(t, run, s, r.s, run, q.s);
        SteadyPending(t, run, s, r.s, run, q.s);
        q
  }

  function RunList(o: Oracle, t: seq<Token>, i: nat, run: bool, s: State): (r: Out)
    requires i <= |t|
    ensures i <= r.next <= |t|
    ensures Steady(t, run, s, r.s) && Agrees(run, s, r, SkipList(t, i))
    decreases |t| - i, 6
  {
    RunListFrom(o, t, i, run, s.last, s)
  }

  /** skip_to, over commands that are not run. */
  function PassTo(o: Oracle, t: seq<Token>, i: nat, closer: Lexeme, s: State): (r: Out)
    requires i <= |t|
    ensures i <= r.next <= |t|
    ensures Steady(t, false, s, r.s) && Agrees(false, s, r, SkipTo(t, i, closer))
    decreases |t| - i, 5
  {
    hide RunAndOr;
    if At(t, i) == Eof || Kw(t, i, closer) then Out(i, s.last, s)
    else
      var r := RunAndOr(o, t, i, false, s);
      var j := SkipSeps(t, r.next);
      PassTo(o, t, if j == i then i + 1 else j, closer, r.s)
  }

  function PassBody(o: Oracle, t: seq<Token>, i: nat, status: int, s: State): (r: Out)
    requires i <= |t|
    ensures i <= r.next <= |t|
    ensures Steady(t, false, s, r.s) && Agrees(false, s, r, SkipBody(t, i))
    decreases |t| - i, 6
  {
    hide PassTo;
    var r := PassTo(o, t, i, DoneWord, s);
    Out(if Kw(t, r.next, DoneWord) then r.next + 1 else r.next, status, r.s)
  }

  function RunCommand(o: Oracle, t: seq<Token>, i: nat, run: bool, s: State): (r: Out)
    requires i <= |t| && (run && s.flow != NoFlow ==> s.intruded)
    ensures i <= r.next <= |t| && (CompoundStart(t, i) || Definition(t, i) ==> r.next > i)
    ensures Steady(t, run, s, r.s) && Agrees(run, s, r, SkipCommand(t, i))
    decreases |t| - i, 2
  {
    hide RunIf, RunFor, RunWhile, RunCase, RunList, RunSubshell, RunSimple, Define;
    if Definition(t, i) then Define(o, t, i, s)
    else if Kw(t, i, IfWord) then RunIf(o, t, i + 1, run, false, s)
    else if Kw(t, i, ForWord) then RunFor(o, t, i, run, s)
    else if Kw(t, i, WhileWord) then RunWhile(o, t, i, run, false, s)
    else if Kw(t, i, UntilWord) then RunWhile(o, t, i, run, true, s)
    else if Kw(t, i, CaseWord) then RunCase(o, t, i, run, s)
    else if Kw(t, i, OpenBrace) then
      var r := RunList(o, t, i + 1, run, s);
      r.(next := if Kw(t, r.next, CloseBrace) then r.next + 1 else r.next)
    else if At(t, i) == LParen then RunSubshell(o, t, i, run, s)
    else RunSimple(o, t, i, run, s)
  }

  /** A definition copies the tokens of its body, whether or not it is being skipped. */
  function Define(o: Oracle, t: seq<Token>, i: nat, s: State): (r: Out)
    requires Definition(t, i)
    ensures i < r.next <= |t| && !NoDefinitions(t)
    ensures Steady(t, false, s, r.s) && Agrees(false, s, r, SkipAndOr(t, SkipNewlines(t, i + 3)))
    decreases |t| - i, 1
  {
    hide RunAndOr;
    assert !NoDefinitions(t) by { if NoDefinitions(t) { NoDefinitionAt(t, 0, i); } }
    var body := SkipNewlines(t, i + 3);
    var r := RunAndOr(o, t, body, false, s);
    Out(r.next, 0, r.s.(functions := r.s.functions[At(t, i).w := Slice(t, body, r.next)], last := 0))
  }

  /** The parent only skips the body; the child's work comes back as an exit status. */
  function RunSubshell(o: Oracle, t: seq<Token>, i: nat, run: bool, s: State): (r: Out)
    requires At(t, i) == LParen && (run && s.flow != NoFlow ==> s.intruded)
    ensures i < r.next <= |t|
    ensures Steady(t, run, s, r.s) && Agrees(false, s, r, SkipCommand(t, i))
    decreases |t| - i, 1
  {
    hide RunList;
    var r := RunList(o, t, i + 1, false, s);
    var u := if run then PerformChild(o, r.s, Forked(Slice(t, i + 1, r.next))) else r.s;
    Out(if At(t, r.next) == RParen then r.next + 1 else r.next, u.last, u)
  }

  /** A condition with the commands after its `then`, and whether they were run. */
  datatype Clause = Clause(r: Out, taken: bool)

  function RunClause(o: Oracle, t: seq<Token>, i: nat, run: bool, s: State): (c: Clause)
    requires i <= |t|
    ensures i <= c.r.next <= |t| && (c.taken ==> run)
    ensures Steady(t, run, s, c.r.s) && Agrees(run, s, c.r, SkipClause(t, i))
    decreases |t| - i, 7
  {
    hide SkipList, Steady, RunList;
    var c := RunList(o, t, i, run, s);
    var a := SkipSeps(t, c.next);
    var taken := run && c.status == 0;
    var b := RunList(o, t, if Kw(t, a, ThenWord) then a + 1 else a, taken, c.s);
    SteadyNext(t, run, s, c.s, taken, b.s);
    SteadyPending(t, run, s, c.s, taken, b.s);
    Clause(b.(next := SkipSeps(t, b.next)), taken)
  }

  /** From the condition of an `if` or `elif`; `taken` once a branch has been. */
  function RunIf(o: Oracle, t: seq<Token>, i: nat, run: bool, taken: bool, s: State): (r: Out)
    requires i <= |t|
    ensures i <= r.next <= |t|
    ensures Steady(t, run && !taken, s, r.s) && Agrees(run && !taken, s, r, SkipIf(t, i))
    decreases |t| - i, 9
  {
    hide *;
    var live := run && !taken;
    var c := RunClause(o, t, i, live, s);
    var done := taken || c.taken;
    var r := RunAfter(o, t, c.r.next, run, done, c.r.status, c.r.s);
    SteadyNext(t, live, s, c.r.s, run && !done, r.s);
    IfStep(t, i, live, s, c.r, run && !done, r);
    r
  }

  /** What follows the commands of a branch: another condition, or the end. */
  function RunAfter(o: Oracle, t: seq<Token>, i: nat, run: bool, taken: bool, result: int, s: State): (r: Out)
    requires i <= |t|
    ensures i <= r.next <= |t| && Steady(t, run && !taken, s, r.s)
    ensures Agrees(run && !taken, s, r, SkipAfter(t, i))
    decreases |t| - i, 8
  {
    hide SkipIf, SkipElse, Steady, RunElse;
    if Kw(t, i, ElifWord) then RunIf(o, t, i + 1, run, taken, s)
    else RunElse(o, t, i, run, taken, result, s)
  }

  function RunElse(o: Oracle, t: seq<Token>, i: nat, run: bool, taken: bool, result: int, s: State): (r: Out)
    requires i <= |t|
    ensures i <= r.next <= |t|
    ensures Steady(t, run && !taken, s, r.s) && Agrees(run && !taken, s, r, SkipElse(t, i))
    decreases |t| - i, 7
  {
    hide RunList, SkipList, SkipSeps;
    var r :=
      if Kw(t, i, ElseWord) then
        var e := RunList(o, t, i + 1, run && !taken, s);
        Out(SkipSeps(t, e.next), if run then e.status else 0, e.s)
      else Out(i, if taken then result else 0, s);
    r.(next := if Kw(t, r.next, FiWord) then r.next + 1 else r.next)
  }

  /** A break or continue that has reached a loop: what is left of it, and whether the loop goes on. */
  function Caught(s: State): (State, bool) {
    match s.flow
    case NoFlow => (s, true)
    case Return => (s, false)
    case Break => (s.(levels := s.levels - 1, flow := if s.levels - 1 <= 0 then NoFlow else Break), false)
    case Continue =>
      if s.levels - 1 <= 0 then (s.(levels := s.levels - 1, flow := NoFlow), true)
      else (s.(levels := s.levels - 1), false)
  }

  function Bind(s: State, name: Token, n: nat): State {
    if name.Word? then s.(history := s.history + [Bound(name.w, n)]) else s
  }

  /** The passes of a `for` from number `n` on. */
  function ForPasses(o: Oracle, t: seq<Token>, name: Token, body: nat, n: nat, count: nat, status: int,
                     s: State): (r: Out)
    requires body <= |t| && n <= count && (s.flow != NoFlow ==> s.intruded)
    ensures Steady(t, true, s, r.s)
    decreases |t| - body, 8, count - n
  {
    hide RunList;
    if n == count then Out(body, status, s)
    else
      var r := RunList(o, t, body, true, Bind(s, name, n));
      var (u, on) := Caught(r.s);
      if on then ForPasses(o, t, name, body, n + 1, count, r.status, u) else Out(body, r.status, u)
  }

  /** How many passes a `for` makes: the words after expansion, or the positional parameters. */
  function ForCount(o: Oracle, t: seq<Token>, i: nat, h: seq<Action>): nat {
    var v := if At(t, i + 1).Word? then i + 2 else i + 1;
    if Kw(t, v, InWord) then o.words(h, Slice(t, v + 1, SkipForWords(t, v + 1))) else o.parameters(h)
  }

  function RunFor(o: Oracle, t: seq<Token>, i: nat, run: bool, s: State): (r: Out)
    requires i < |t| && (run && s.flow != NoFlow ==> s.intruded)
    ensures i < r.next <= |t|
    ensures Steady(t, run, s, r.s) && Agrees(false, s, r, SkipFor(t, i))
    decreases |t| - i, 1
  {
    hide SkipBody, Steady, Kept, ForBody, ForPasses, PassBody;
    SteadySame(t, run, s);
    var body := ForBody(t, i);
    var p := if run then ForPasses(o, t, At(t, i + 1), body, 0, ForCount(o, t, i, s.history), s.last, s)
             else Out(body, s.last, s);
    var r := PassBody(o, t, body, p.status, p.s);
    SteadyNext(t, run, s, p.s, false, r.s);
    SteadyFlow(t, p.s, r.s);
    r
  }

  const GUARD: nat := 1_000_000

  /** Behind the condition of a loop. */
  function Marked(s: State): State {
    s.(astray := s.astray || s.flow != NoFlow)
  }

  /** The passes of a `while` or `until`, as many as are left. */
  function WhilePasses(o: Oracle, t: seq<Token>, cond: nat, body: nat, until: bool, left: nat, status: int,
                       s: State): (r: Out)
    requires cond <= body <= |t| && (s.flow != NoFlow ==> s.intruded)
    ensures Steady(t, true, s, r.s)
    decreases |t| - cond, 8, left
  {
    hide RunList;
    if left == 0 then Out(body, status, s)
    else
      var c := RunList(o, t, cond, true, s);
      var m := Marked(c.s);
      if (c.status == 0) == until then Out(body, status, m)
      else
        var r := RunList(o, t, body, true, m);
        var (u, on) := Caught(r.s);
        if on then WhilePasses(o, t, cond, body, until, left - 1, r.status, u) else Out(body, r.status, u)
  }

  /** A loop whose condition and body have been found. */
  function WhileFrom(o: Oracle, t: seq<Token>, cond: nat, body: nat, until: bool, run: bool, s: State): (r: Out)
    requires cond <= body <= |t| && (run && s.flow != NoFlow ==> s.intruded)
    ensures body <= r.next <= |t| && Steady(t, run, s, r.s) && Agrees(false, s, r, SkipBody(t, body))
    decreases |t| - cond, 9
  {
    hide SkipBody, Steady, WhilePasses, PassBody;
    SteadySame(t, run, s);
    var p := if run then WhilePasses(o, t, cond, body, until, GUARD, s.last, s) else Out(body, s.last, s);
    var r := PassBody(o, t, body, p.status, p.s);
    SteadyNext(t, run, s, p.s, false, r.s);
    SteadyFlow(t, p.s, r.s);
    r
  }

  function RunWhile(o: Oracle, t: seq<Token>, i: nat, run: bool, until: bool, s: State): (r: Out)
    requires i < |t| && (run && s.flow != NoFlow ==> s.intruded)
    ensures i < r.next <= |t|
    ensures Steady(t, run, s, r.s) && Agrees(false, s, r, SkipWhile(t, i))
    decreases |t| - i, 1
  {
    hide SkipList, SkipBody, Steady, Kept, RunList, WhileFrom;
    var c := RunList(o, t, i + 1, false, s);
    SteadyFlow(t, s, c.s);
    var body := if Kw(t, c.next, DoWord) then c.next + 1 else c.next;
    var r := WhileFrom(o, t, i + 1, body, until, run, c.s);
    SteadyMore(t, false, run, s, c.s);
    SteadyNext(t, run, s, c.s, run, r.s);
    r
  }

  function RunArmBody(o: Oracle, t: seq<Token>, i: nat, run: bool, status: int, s: State): (r: Out)
    requires i <= |t|
    ensures i <= r.next <= |t|
    ensures DoubleSemi(t, r.next) || At(t, r.next) == Eof || Kw(t, r.next, EsacWord)
    ensures Steady(t, run, s, r.s) && Agrees(run, s, r, SkipArmBody(t, i))
    decreases |t| - i, 5
  {
    hide SkipArmBody, SkipAndOr, SkipNewlines, Steady, DoubleSemi, Kw, Stuck, BlockEnd, Joins, CompoundStart,
         Definition, RunAndOr;
    SteadySame(t, run, s);
    ArmStep(t, i);
    var j := SkipNewlines(t, i);
    if DoubleSemi(t, j) || At(t, j) == Eof || Kw(t, j, EsacWord) then Out(j, status, s)
    else
      var r := RunAndOr(o, t, j, run, s);
      var result := if run then r.status else status;
      if DoubleSemi(t, r.next) then Out(r.next, result, r.s)
      else
        var k := if Sep(At(t, r.next)) then r.next + 1 else r.next;
        var q := RunArmBody(o, t, if k == j then j + 1 else k, run, result, r.s);
        SteadyNext(t, run, s, r.s, run, q.s);
        SteadyPending(t, run, s, r.s, run, q.s);
        q
  }

  /** One arm with its `;;` and the separators after it. */
  function RunArm(o: Oracle, t: seq<Token>, i: nat, run: bool, status: int, s: State): (r: Out)
    requires i <= |t| && At(t, i) != Eof && !Kw(t, i, EsacWord)
    ensures i < r.next <= |t|
    ensures Steady(t, run, s, r.s) && Agrees(run, s, r, SkipArm(t, i))
    decreases |t| - i, 6
  {
    hide SkipArmBody, Steady, ArmBody, SkipSeps, SkipPatterns, BlockEnd, RunArmBody;
    var b := RunArmBody(o, t, ArmBody(t, i), run, status, s);
    b.(next := SkipSeps(t, if DoubleSemi(t, b.next) then b.next + 2 else b.next))
  }

  /** The patterns of the arm at `i`. */
  function ArmPatterns(t: seq<Token>, i: nat): seq<Token> {
    var p := if At(t, i) == LParen then i + 1 else i;
    Slice(t, p, SkipPatterns(t, p))
  }

  /** The arms from `i` on, once `matched`. */
  function RunArms(o: Oracle, t: seq<Token>, i: nat, run: bool, word: Token, matched: bool, status: int,
                   s: State): (r: Out)
    requires i <= |t|
    ensures i <= r.next <= |t|
    ensures Steady(t, run && !matched, s, r.s) && Agrees(run && !matched, s, r, SkipArms(t, i))
    decreases |t| - i, 7
  {
    hide SkipArm, Steady, RunArm;
    SteadySame(t, run && !matched, s);
    if At(t, i) == Eof || Kw(t, i, EsacWord) then Out(i, if matched then status else 0, s)
    else
      var now := run && !matched && o.fits(s.history, word, ArmPatterns(t, i));
      var b := RunArm(o, t, i, now, status, s);
      var r := RunArms(o, t, b.next, run, word, matched || now, b.status, b.s);
      SteadyMore(t, now, run && !matched, s, b.s);
      SteadyNext(t, run && !matched, s, b.s, run && !(matched || now), r.s);
      SteadyPending(t, run && !matched, s, b.s, run && !(matched || now), r.s);
      r
  }

  function RunCase(o: Oracle, t: seq<Token>, i: nat, run: bool, s: State): (r: Out)
    requires i < |t| && (run && s.flow != NoFlow ==> s.intruded)
    ensures i < r.next <= |t|
    ensures Steady(t, run, s, r.s) && Agrees(run, s, r, SkipCase(t, i))
    decreases |t| - i, 1
  {
    hide RunArms;
    var r := RunArms(o, t, CaseArms(t, i), run, At(t, i + 1), false, s.last, s);
    r.(next := if Kw(t, r.next, EsacWord) then r.next + 1 else r.next)
  }

  // The recursive functions, one step at a time.

  lemma ListRuns(o: Oracle, t: seq<Token>, i: nat, run: bool, status: int, s: State)
    requires i <= |t|
    ensures RunListFrom(o, t, i, run, status, s) ==
      var j := SkipSeps(t, i);
      if BlockEnd(t, j) then Out(j, status, s)
      else
        var r := RunAndOr(o, t, j, run, s);
        if r.s.flow != NoFlow || (At(t, r.next) != Amp && BlockEnd(t, r.next)) then r
        else RunListFrom(o, t, if At(t, r.next) == Amp then r.next + 1 else r.next, run, r.status, r.s)
  {
    hide RunAndOr, SkipSeps, SkipList, SkipAndOr, Steady, Agrees;
  }

  lemma ArmRuns(o: Oracle, t: seq<Token>, i: nat, run: bool, status: int, s: State)
    requires i <= |t|
    ensures RunArmBody(o, t, i, run, status, s) ==
      var j := SkipNewlines(t, i);
      if DoubleSemi(t, j) || At(t, j) == Eof || Kw(t, j, EsacWord) then Out(j, status, s)
      else
        var r := RunAndOr(o, t, j, run, s);
        var result := if run then r.status else status;
        if DoubleSemi(t, r.next) then Out(r.next, result, r.s)
        else
          var k := if Sep(At(t, r.next)) then r.next + 1 else r.next;
          RunArmBody(o, t, if k == j then j + 1 else k, run, result, r.s)
  {
    hide RunAndOr, SkipNewlines, SkipArmBody, SkipAndOr, Steady, Agrees, Stuck, BlockEnd, DoubleSemi, Kw;
  }
}
