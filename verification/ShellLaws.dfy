/**
  What the meaning of a program amounts to: which commands a chain, a list, a conditional and a loop start, in which
  order, and what a break, continue or return does on its way out. The executor does the same by ProgramMeans.
 */
module ShellLaws {
  import opened ShellSkip
  import opened ShellRun
  import opened ShellGrammar
  import opened ShellMeaning

  // ---------------------------------------------------------------------------------------------
  // Commands
  // ---------------------------------------------------------------------------------------------

  /** One command in the shell itself is started once, and everything it answers takes effect. */
  lemma CommandStarts(o: Oracle, x: Simple, background: bool, s: State)
    ensures var h := s.history + [Ran(WriteSimple(x), background)];
      var r := o.outcome(h);
      DoPipeline(o, Plain(Final(x)), background, s)
      == Did(r.status, State(r.flow, r.levels, r.status, r.functions, h, s.intruded || s.flow != NoFlow, s.astray))
  {
  }

  /** A pipeline of several stages is started once, and of what it answers only the status comes back. */
  lemma PipelineStarts(o: Oracle, st: Stages, background: bool, s: State)
    requires st.Piped?
    ensures var h := s.history + [Streamed(WriteStages(st), background)];
      DoPipeline(o, Plain(st), background, s)
      == Did(o.outcome(h).status, s.(last := o.outcome(h).status, history := h))
  {
    hide WriteStages, WriteSimple;
  }

  /** So is a subshell. */
  lemma SubshellStarts(o: Oracle, body: List, s: State)
    ensures var h := s.history + [Forked(WriteList(body))];
      DoCommand(o, Subshell(body), s) == Did(o.outcome(h).status, s.(last := o.outcome(h).status, history := h))
  {
    hide WriteList;
  }

  // ---------------------------------------------------------------------------------------------
  // Chains and lists
  // ---------------------------------------------------------------------------------------------

  function Parts(a: AndOr): (ps: seq<Pipeline>)
    ensures |ps| > 0
  {
    if a.Only? then [a.p] else [a.p] + Parts(a.rest)
  }

  /** The joints of a chain, true for &&. */
  function Joints(a: AndOr): (js: seq<bool>)
    ensures |js| + 1 == |Parts(a)|
  {
    if a.Only? then [] else [a.isAnd] + Joints(a.rest)
  }

  /** The first `n + 1` parts grouped from the left: each runs exactly if what stands before it lets it. */
  function Grouped(o: Oracle, ps: seq<Pipeline>, js: seq<bool>, n: nat, background: bool, s: State): Did
    requires n < |ps| == |js| + 1
  {
    var here := background && n == |js|;
    if n == 0 then DoPipeline(o, ps[0], here, s)
    else
      var before := Grouped(o, ps, js, n - 1, background, s);
      if before.s.flow != NoFlow then before
      else if js[n - 1] && before.status == 0 then DoPipeline(o, ps[n], here, before.s)
      else if !js[n - 1] && before.status != 0 then DoPipeline(o, ps[n], here, before.s)
      else before
  }

  /** One more part. */
  lemma GroupedNext(o: Oracle, ps: seq<Pipeline>, js: seq<bool>, n: nat, background: bool, s: State)
    requires 0 < n < |ps| == |js| + 1
    ensures var before := Grouped(o, ps, js, n - 1, background, s);
      Grouped(o, ps, js, n, background, s)
      == if before.s.flow != NoFlow || (js[n - 1] <==> before.status != 0) then before
         else DoPipeline(o, ps[n], background && n == |js|, before.s)
  {
    hide DoPipeline;
  }

  lemma ChainNext(o: Oracle, a: AndOr, run: bool, status: int, background: bool, s: State)
    ensures var d := if run then DoPipeline(o, a.p, background && a.Only?, s) else Did(status, s);
      DoChain(o, a, run, status, background, s)
      == if a.Only? || d.s.flow != NoFlow then d
         else DoChain(o, a.rest, a.isAnd <==> d.status == 0, d.status, background, d.s)
  {
    hide DoPipeline;
  }

  lemma PartsNext(ps: seq<Pipeline>, js: seq<bool>, b: AndOr, n: nat)
    requires |ps| == |js| + 1 && n < |ps| && ps[n..] == Parts(b) && js[n..] == Joints(b)
    ensures ps[n] == b.p && (b.Only? <==> n == |js|)
    ensures b.Chain? ==> js[n] == b.isAnd && ps[n + 1..] == Parts(b.rest) && js[n + 1..] == Joints(b.rest)
  {
    assert ps[n] == ps[n..][0];
    if b.Chain? {
      assert js[n] == js[n..][0];
      assert ps[n + 1..] == ps[n..][1..] && js[n + 1..] == js[n..][1..];
    }
  }

  /** Going on from part `n`, which runs or not, is what is left of the chain. */
  lemma {:induction false} ChainFrom(o: Oracle, ps: seq<Pipeline>, js: seq<bool>, b: AndOr, n: nat, background: bool,
                                     s: State, run: bool, before: Did)
    requires |ps| == |js| + 1 && n < |ps| && ps[n..] == Parts(b) && js[n..] == Joints(b)
    requires before.s.flow == NoFlow || n == 0
    requires if n == 0 then run && before.s == s
             else before == Grouped(o, ps, js, n - 1, background, s) && (run <==> (js[n - 1] <==> before.status == 0))
    ensures DoChain(o, b, run, before.status, background, before.s) == Grouped(o, ps, js, |ps| - 1, background, s)
    decreases b
  {
    hide DoPipeline, DoChain, Grouped, Parts, Joints;
    PartsNext(ps, js, b, n);
    ChainNext(o, b, run, before.status, background, before.s);
    if n > 0 { GroupedNext(o, ps, js, n, background, s); } else { GroupedFirst(o, ps, js, background, s); }
    var now := Grouped(o, ps, js, n, background, s);
    if b.Chain? {
      if now.s.flow != NoFlow {
        GroupedStays(o, ps, js, n, |ps| - 1, background, s);
      } else {
        ChainFrom(o, ps, js, b.rest, n + 1, background, s, b.isAnd <==> now.status == 0, now);
      }
    }
  }

  lemma GroupedFirst(o: Oracle, ps: seq<Pipeline>, js: seq<bool>, background: bool, s: State)
    requires |ps| == |js| + 1
    ensures Grouped(o, ps, js, 0, background, s) == DoPipeline(o, ps[0], background && |js| == 0, s)
  {
    hide DoPipeline;
  }

  /** With something pending nothing more of a chain runs. */
  lemma {:induction false} GroupedStays(o: Oracle, ps: seq<Pipeline>, js: seq<bool>, n: nat, m: nat, background: bool,
                                        s: State)
    requires n <= m < |ps| == |js| + 1 && Grouped(o, ps, js, n, background, s).s.flow != NoFlow
    ensures Grouped(o, ps, js, m, background, s) == Grouped(o, ps, js, n, background, s)
    decreases m
  {
    hide Grouped;
    if n < m {
      GroupedStays(o, ps, js, n, m - 1, background, s);
      GroupedNext(o, ps, js, m, background, s);
    }
  }

  /** A chain groups from the left, both joints alike, and stops at the first part that leaves something pending. */
  lemma ChainGroups(o: Oracle, a: AndOr, background: bool, s: State)
    ensures DoChain(o, a, true, 0, background, s) == Grouped(o, Parts(a), Joints(a), |Parts(a)| - 1, background, s)
  {
    assert Parts(a)[0..] == Parts(a) && Joints(a)[0..] == Joints(a);
    ChainFrom(o, Parts(a), Joints(a), a, 0, background, s, true, Did(0, s));
  }

  /** Every command of the list has its separator. */
  predicate Ended(l: List) {
    match l
    case Empty => true
    case Blank(rest) => Ended(rest)
    case Bare(_) => false
    case Item(_, _, rest) => Ended(rest)
  }

  function Followed(l: List, more: List): List
    requires Ended(l)
  {
    match l
    case Empty => more
    case Blank(rest) => Blank(Followed(rest, more))
    case Item(a, sep, rest) => Item(a, sep, Followed(rest, more))
  }

  /** A list is its commands one after the other, up to the first that leaves something pending. */
  lemma {:induction false} ListsFollow(o: Oracle, l: List, more: List, status: int, s: State)
    requires Ended(l) && s.flow == NoFlow
    ensures var d := DoList(o, l, status, s);
      DoList(o, Followed(l, more), status, s) == if d.s.flow != NoFlow then d else DoList(o, more, d.status, d.s)
    decreases l
  {
    hide DoChain;
    match l
    case Empty =>
    case Blank(rest) => ListsFollow(o, rest, more, status, s);
    case Item(a, sep, rest) =>
      var d := DoChain(o, a, true, 0, sep == Amp, s);
      if d.s.flow == NoFlow {
        ListsFollow(o, rest, more, d.status, d.s);
      }
  }

  // ---------------------------------------------------------------------------------------------
  // Conditionals
  // ---------------------------------------------------------------------------------------------

  /** A condition of status 0 runs its own commands and no others; else the next condition, or the else, decides. */
  lemma IfDecides(o: Oracle, b: Branches, s: State)
    requires b.When?
    ensures var c := DoList(o, b.cond, s.last, s);
      var r := DoIf(o, b, s);
      && (c.s.flow != NoFlow ==> r == c)
      && (c.s.flow == NoFlow && c.status == 0 ==> r.s == DoList(o, b.thn, c.s.last, c.s).s)
      && (c.s.flow == NoFlow && c.status != 0 && b.tail.Fi? ==> r == Did(0, c.s))
      && (c.s.flow == NoFlow && c.status != 0 && b.tail.Else? ==> r == DoList(o, b.tail.body, c.s.last, c.s))
      && (c.s.flow == NoFlow && c.status != 0 && b.tail.When? ==> r == DoIf(o, b.tail, c.s))
  {
    hide DoList, PassTail;
  }

  function ArmCount(arms: Arms): nat {
    if arms.NoArms? then 0 else 1 + ArmCount(arms.rest)
  }

  function ArmAt(arms: Arms, k: nat): (a: Arms)
    requires k < ArmCount(arms)
    ensures a.Arm?
  {
    if k == 0 then arms else ArmAt(arms.rest, k - 1)
  }

  ghost predicate Fits(o: Oracle, word: Lexeme, arms: Arms, k: nat, s: State)
    requires k < ArmCount(arms)
  {
    o.fits(s.history, Word(word), WritePatterns(ArmAt(arms, k).patterns))
  }

  ghost predicate FirstFits(o: Oracle, word: Lexeme, arms: Arms, k: nat, s: State)
    requires k < ArmCount(arms)
  {
    Fits(o, word, arms, k, s) && forall j | 0 <= j < k :: !Fits(o, word, arms, j, s)
  }

  /** A case runs the commands of the first arm that fits and of no other, and none if no arm does. */
  lemma {:induction false} CaseDecides(o: Oracle, word: Lexeme, arms: Arms, s: State)
    ensures (forall k | 0 <= k < ArmCount(arms) :: !Fits(o, word, arms, k, s)) ==> DoArms(o, word, arms, s) == Did(0, s)
    ensures forall k | 0 <= k < ArmCount(arms) && FirstFits(o, word, arms, k, s) ::
      DoArms(o, word, arms, s) == DoArm(o, ArmAt(arms, k).body, s.last, s)
    decreases arms
  {
    hide DoArm;
    if arms.Arm? {
      CaseDecides(o, word, arms.rest, s);
      assert forall k | 0 <= k < ArmCount(arms.rest) :: Fits(o, word, arms.rest, k, s) == Fits(o, word, arms, k + 1, s);
      if Fits(o, word, arms, 0, s) {
      } else {
        forall k | 0 <= k < ArmCount(arms) && FirstFits(o, word, arms, k, s)
          ensures DoArms(o, word, arms, s) == DoArm(o, ArmAt(arms, k).body, s.last, s)
        {
          assert k > 0 && FirstFits(o, word, arms.rest, k - 1, s);
        }
      }
    }
  }

  // ---------------------------------------------------------------------------------------------
  // Loops
  // ---------------------------------------------------------------------------------------------

  /** The state with one level of the break or continue used up. */
  function Less(s: State, flow: Flow): State {
    s.(levels := s.levels - 1, flow := flow)
  }

  /**
    After a pass of a `for`: a break ends the loop and stays pending only if it was for more than one; a continue for
    one goes on with the next pass and nothing pending; a continue for more, and a return, end the loop.
   */
  lemma ForLeaves(o: Oracle, name: Lexeme, body: List, n: nat, count: nat, status: int, s: State)
    requires n < count
    ensures var d := DoList(o, body, s.last, s.(history := s.history + [Bound(name, n)]));
      var r := DoPasses(o, name, body, n, count, status, s);
      match d.s.flow
      case NoFlow => r == DoPasses(o, name, body, n + 1, count, d.status, d.s)
      case Break => r == Did(d.status, Less(d.s, if d.s.levels > 1 then Break else NoFlow))
      case Return => r == d
      case Continue =>
        if d.s.levels > 1 then r == Did(d.status, Less(d.s, Continue))
        else r == DoPasses(o, name, body, n + 1, count, d.status, Less(d.s, NoFlow))
  {
    hide DoPasses, DoList, Caught;
    OnePass(o, name, body, n, count, status, s);
    Catches(DoList(o, body, s.last, s.(history := s.history + [Bound(name, n)])).s);
  }

  lemma OnePass(o: Oracle, name: Lexeme, body: List, n: nat, count: nat, status: int, s: State)
    requires n < count
    ensures var d := DoList(o, body, s.last, s.(history := s.history + [Bound(name, n)]));
      var (u, on) := Caught(d.s);
      DoPasses(o, name, body, n, count, status, s)
      == if on then DoPasses(o, name, body, n + 1, count, d.status, u) else Did(d.status, u)
  {
    hide DoList, Caught;
  }

  lemma Catches(s: State)
    ensures s.flow == NoFlow ==> Caught(s) == (s, true)
    ensures s.flow == Return ==> Caught(s) == (s, false)
    ensures s.flow == Break ==> Caught(s) == (Less(s, if s.levels > 1 then Break else NoFlow), false)
    ensures s.flow == Continue ==>
      Caught(s) == if s.levels > 1 then (Less(s, Continue), false) else (Less(s, NoFlow), true)
  {
  }

  /** The same of a `while` and an `until`, once the condition has let the body run. */
  lemma WhileLeaves(o: Oracle, c: Command, left: nat, status: int, s: State)
    requires c.While? && left > 0
    ensures var g := DoList(o, c.cond, s.last, s);
      var d := DoList(o, c.body, g.s.last, g.s);
      var r := DoWhile(o, c, left, status, s);
      if g.s.flow != NoFlow || (if c.until then g.status == 0 else g.status != 0) then r == Did(status, g.s)
      else
        match d.s.flow
        case NoFlow => r == DoWhile(o, c, left - 1, d.status, d.s)
        case Break => r == Did(d.status, Less(d.s, if d.s.levels > 1 then Break else NoFlow))
        case Return => r == d
        case Continue =>
          if d.s.levels > 1 then r == Did(d.status, Less(d.s, Continue))
          else r == DoWhile(o, c, left - 1, d.status, Less(d.s, NoFlow))
  {
    hide DoList, Caught;
    var g := DoList(o, c.cond, s.last, s);
    Catches(DoList(o, c.body, g.s.last, g.s).s);
  }

  /** One command by itself. */
  function Alone(x: Simple): List {
    Bare(Only(Plain(Final(x))))
  }

  lemma AloneStarts(o: Oracle, x: Simple, status: int, s: State)
    ensures var h := s.history + [Ran(WriteSimple(x), false)];
      var r := o.outcome(h);
      DoList(o, Alone(x), status, s)
      == Did(r.status, State(r.flow, r.levels, r.status, r.functions, h, s.intruded || s.flow != NoFlow, s.astray))
  {
    AloneIs(o, Plain(Final(x)), status, s);
    CommandStarts(o, x, false, s);
  }

  lemma AloneIs(o: Oracle, p: Pipeline, status: int, s: State)
    ensures DoList(o, Bare(Only(p)), status, s) == DoPipeline(o, p, false, s)
  {
    hide DoPipeline;
    assert DoList(o, Bare(Only(p)), status, s) == DoChain(o, Only(p), true, 0, false, s);
  }

  /** What the history says of the last command: it leaves the loop it stands in. */
  predicate Leaves(o: Oracle, h: seq<Action>) {
    var r := o.outcome(h);
    r.flow == Break || r.flow == Return || (r.flow == Continue && r.levels > 1)
  }

  /** The passes from number `n` up to `m`: the variable is set to each word in turn, then the command is started. */
  function Rounds(name: Lexeme, x: Simple, n: nat, m: nat): seq<Action>
    requires n <= m
    decreases m
  {
    if n == m then [] else Rounds(name, x, n, m - 1) + [Bound(name, m - 1), Ran(WriteSimple(x), false)]
  }

  lemma {:induction false} RoundsFirst(name: Lexeme, x: Simple, n: nat, m: nat)
    requires n < m
    ensures Rounds(name, x, n, m) == [Bound(name, n), Ran(WriteSimple(x), false)] + Rounds(name, x, n + 1, m)
    decreases m
  {
    if n + 1 < m {
      RoundsFirst(name, x, n, m - 1);
    }
  }

  /**
    A `for` around one command starts it for word after word, in order, up to and including the first time it leaves
    the loop, and for every word if it never does.
   */
  lemma {:induction false} ForRounds(o: Oracle, name: Lexeme, x: Simple, n: nat, count: nat, status: int, s: State)
    returns (m: nat)
    requires n <= count
    ensures n <= m <= count && (n < count ==> n < m)
    ensures DoPasses(o, name, Alone(x), n, count, status, s).s.history == s.history + Rounds(name, x, n, m)
    ensures forall k | n < k < m :: !Leaves(o, s.history + Rounds(name, x, n, k))
    ensures n < m < count ==> Leaves(o, s.history + Rounds(name, x, n, m))
    decreases count - n
  {
    m := n;
    if n < count {
      hide DoPasses, Rounds, Leaves;
      var full := s.history + [Bound(name, n), Ran(WriteSimple(x), false)];
      RoundsOne(name, x, n);
      m := n + 1;
      var status', next := ForRound(o, name, x, n, count, status, s);
      if !Leaves(o, full) {
        m := ForRounds(o, name, x, n + 1, count, status', next);
        RoundsOn(name, x, n, s.history);
      }
    }
  }

  lemma RoundsOne(name: Lexeme, x: Simple, n: nat)
    ensures Rounds(name, x, n, n) == [] && Rounds(name, x, n, n + 1) == [Bound(name, n), Ran(WriteSimple(x), false)]
  {
  }

  lemma RoundsOn(name: Lexeme, x: Simple, n: nat, h: seq<Action>)
    ensures forall k {:trigger Rounds(name, x, n, k)} | n < k ::
      h + [Bound(name, n), Ran(WriteSimple(x), false)] + Rounds(name, x, n + 1, k) == h + Rounds(name, x, n, k)
  {
    forall k | n < k
      ensures h + [Bound(name, n), Ran(WriteSimple(x), false)] + Rounds(name, x, n + 1, k) == h + Rounds(name, x, n, k)
    {
      RoundsFirst(name, x, n, k);
    }
  }

  /** One pass: it leaves the loop, or the loop goes on behind it. */
  lemma ForRound(o: Oracle, name: Lexeme, x: Simple, n: nat, count: nat, status: int, s: State)
    returns (status': int, next: State)
    requires n < count
    ensures next.history == s.history + [Bound(name, n), Ran(WriteSimple(x), false)]
    ensures var r := DoPasses(o, name, Alone(x), n, count, status, s);
      if Leaves(o, next.history) then r.s.history == next.history
      else r == DoPasses(o, name, Alone(x), n + 1, count, status', next)
  {
    hide DoList, DoPasses;
    var bound := s.(history := s.history + [Bound(name, n)]);
    AloneStarts(o, x, s.last, bound);
    ForLeaves(o, name, Alone(x), n, count, status, s);
    var d := DoList(o, Alone(x), s.last, bound);
    status', next := d.status, if d.s.flow == NoFlow then d.s else Less(d.s, NoFlow);
    assert bound.history + [Ran(WriteSimple(x), false)] == s.history + [Bound(name, n), Ran(WriteSimple(x), false)];
  }

  /** Condition and body of a loop, both one command, `m` times over. */
  function Turns(c: Simple, x: Simple, m: nat): seq<Action> {
    if m == 0 then [] else Turns(c, x, m - 1) + [Ran(WriteSimple(c), false), Ran(WriteSimple(x), false)]
  }

  lemma {:induction false} TurnsFirst(c: Simple, x: Simple, m: nat)
    requires m > 0
    ensures Turns(c, x, m) == [Ran(WriteSimple(c), false), Ran(WriteSimple(x), false)] + Turns(c, x, m - 1)
    decreases m
  {
    if m > 1 {
      TurnsFirst(c, x, m - 1);
    }
  }

  /** The condition ends the loop: it says so, or leaves something pending. */
  predicate Ends(o: Oracle, until: bool, h: seq<Action>) {
    o.outcome(h).flow != NoFlow || (if until then o.outcome(h).status == 0 else o.outcome(h).status != 0)
  }

  /**
    A `while` or `until` around one command: turn after turn, until the condition ends it, the command leaves it, or
    the turns are used up.
   */
  lemma {:induction false} WhileTurns(o: Oracle, until: bool, c: Simple, x: Simple, left: nat, status: int, s: State)
    returns (m: nat)
    ensures m <= left
    ensures var r := DoWhile(o, While(until, Alone(c), Alone(x)), left, status, s);
      var asked := s.history + Turns(c, x, m) + [Ran(WriteSimple(c), false)];
      || (r.s.history == asked && m < left && Ends(o, until, asked))
      || (r.s.history == s.history + Turns(c, x, m) && (m == left || Leaves(o, s.history + Turns(c, x, m))))
    ensures forall k | 0 <= k < m :: !Ends(o, until, s.history + Turns(c, x, k) + [Ran(WriteSimple(c), false)])
    ensures forall k | 0 < k < m :: !Leaves(o, s.history + Turns(c, x, k))
    decreases left
  {
    m := 0;
    TurnsOne(c, x);
    assert s.history + Turns(c, x, 0) == s.history;
    if left > 0 {
      hide DoWhile, Turns, Leaves, Ends;
      var asked := s.history + [Ran(WriteSimple(c), false)];
      var status', next := WhileTurn(o, until, c, x, left, status, s);
      if !Ends(o, until, asked) {
        m := 1;
        if !Leaves(o, next.history) {
          var more := WhileTurns(o, until, c, x, left - 1, status', next);
          m := more + 1;
          TurnsOn(c, x, s.history);
          forall k | 0 < k < m ensures !Ends(o, until, s.history + Turns(c, x, k) + [Ran(WriteSimple(c), false)]) {
            assert next.history + Turns(c, x, k - 1) == s.history + Turns(c, x, k);
          }
          forall k | 1 < k < m ensures !Leaves(o, s.history + Turns(c, x, k)) {
            assert next.history + Turns(c, x, k - 1) == s.history + Turns(c, x, k);
          }
          assert next.history + Turns(c, x, more) == s.history + Turns(c, x, m);
        }
      }
    }
  }

  lemma TurnsOne(c: Simple, x: Simple)
    ensures Turns(c, x, 0) == [] && Turns(c, x, 1) == [Ran(WriteSimple(c), false), Ran(WriteSimple(x), false)]
  {
  }

  lemma TurnsOn(c: Simple, x: Simple, h: seq<Action>)
    ensures forall k | 0 < k ::
      h + [Ran(WriteSimple(c), false), Ran(WriteSimple(x), false)] + Turns(c, x, k - 1) == h + Turns(c, x, k)
  {
    forall k | 0 < k
      ensures h + [Ran(WriteSimple(c), false), Ran(WriteSimple(x), false)] + Turns(c, x, k - 1) == h + Turns(c, x, k)
    {
      TurnsFirst(c, x, k);
    }
  }

  /** One turn: the condition ends the loop, the body leaves it, or the loop goes on behind it. */
  lemma WhileTurn(o: Oracle, until: bool, c: Simple, x: Simple, left: nat, status: int, s: State)
    returns (status': int, next: State)
    requires left > 0
    ensures next.history == s.history + [Ran(WriteSimple(c), false), Ran(WriteSimple(x), false)]
    ensures var loop := While(until, Alone(c), Alone(x));
      var r := DoWhile(o, loop, left, status, s);
      var asked := s.history + [Ran(WriteSimple(c), false)];
      if Ends(o, until, asked) then r.s.history == asked
      else if Leaves(o, next.history) then r.s.history == next.history
      else r == DoWhile(o, loop, left - 1, status', next)
  {
    hide DoList, DoWhile;
    AloneStarts(o, c, s.last, s);
    var g := DoList(o, Alone(c), s.last, s);
    WhileLeaves(o, While(until, Alone(c), Alone(x)), left, status, s);
    AloneStarts(o, x, g.s.last, g.s);
    var d := DoList(o, Alone(x), g.s.last, g.s);
    status', next := d.status, if d.s.flow == NoFlow then d.s else Less(d.s, NoFlow);
    assert g.s.history + [Ran(WriteSimple(x), false)]
        == s.history + [Ran(WriteSimple(c), false), Ran(WriteSimple(x), false)];
  }

  /** A loop makes at most a million turns. */
  lemma WhileBounded(o: Oracle, until: bool, c: Simple, x: Simple, s: State) returns (m: nat)
    ensures m <= 1_000_000
    ensures var h := DoCommand(o, While(until, Alone(c), Alone(x)), s).s.history;
      h == s.history + Turns(c, x, m) || h == s.history + Turns(c, x, m) + [Ran(WriteSimple(c), false)]
  {
    m := WhileTurns(o, until, c, x, GUARD, s.last, s);
  }

  /** Two loops around a command, with `n` passes of the outer one made: a break for both ends both. */
  lemma BreakBoth(o: Oracle, outer: Lexeme, name: Lexeme, words: seq<Lexeme>, x: Simple, n: nat, count: nat,
                  status: int, s: State)
    requires n < count && o.words(s.history + [Bound(outer, n)], WriteWords(words)) > 0
    requires o.outcome(s.history + [Bound(outer, n), Bound(name, 0), Ran(WriteSimple(x), false)]).flow == Break
    ensures var h := s.history + [Bound(outer, n), Bound(name, 0), Ran(WriteSimple(x), false)];
      var levels := o.outcome(h).levels;
      var body := Bare(Only(Compound(For(name, words, Alone(x)))));
      var r := DoPasses(o, outer, body, n, count, status, s);
      if levels > 1 then r.s.history == h && r.s.flow == (if levels > 2 then Break else NoFlow)
      else
        exists u: State :: && u.history == h && u.flow == NoFlow
                           && r == DoPasses(o, outer, body, n + 1, count, o.outcome(h).status, u)
  {
    hide DoList, DoPasses;
    var bound := s.(history := s.history + [Bound(outer, n)]);
    var inner := bound.(history := bound.history + [Bound(name, 0)]);
    var h := s.history + [Bound(outer, n), Bound(name, 0), Ran(WriteSimple(x), false)];
    assert inner.history + [Ran(WriteSimple(x), false)] == h;
    var body := Bare(Only(Compound(For(name, words, Alone(x)))));
    AloneStarts(o, x, bound.last, inner);
    ForLeaves(o, name, Alone(x), 0, o.words(bound.history, WriteWords(words)), bound.last, bound);
    LoopAlone(o, name, words, x, s.last, bound);
    ForLeaves(o, outer, body, n, count, status, s);
  }

  lemma LoopAlone(o: Oracle, name: Lexeme, words: seq<Lexeme>, x: Simple, status: int, s: State)
    ensures DoList(o, Bare(Only(Compound(For(name, words, Alone(x))))), status, s)
         == DoPasses(o, name, Alone(x), 0, o.words(s.history, WriteWords(words)), s.last, s)
  {
    hide DoPasses;
    AloneIs(o, Compound(For(name, words, Alone(x))), status, s);
    assert DoPipeline(o, Compound(For(name, words, Alone(x))), false, s) == DoCommand(o, For(name, words, Alone(x)), s);
  }

  // ---------------------------------------------------------------------------------------------
  // Definitions
  // ---------------------------------------------------------------------------------------------

  /** A definition, run or stepped over, stores exactly the tokens of its body under its name and starts nothing. */
  lemma DefinitionStores(o: Oracle, t: seq<Token>, i: nat, e: nat, c: Command, run: bool, s: State)
    requires c.Function? && GoodCommand(c) && Spans(t, i, e, WriteCommand(c)) && FollowsList(t, e) && Calm(s)
    ensures i <= |t| && var r := RunCommand(o, t, i, run, s);
      && r.next == e && r.status == 0 && r.s == s.(functions := r.s.functions, last := 0)
      && c.name in r.s.functions && r.s.functions[c.name] == WriteAndOr(c.value)
  {
    hide Spans, RunAndOr, SkipAndOr, WriteAndOr, Newlines, RunIf, RunFor, RunWhile, RunCase, RunList, RunSubshell;
    hide RunSimple;
    var Function(name, breaks, value) := c;
    var rest := Newlines(breaks) + WriteAndOr(value);
    Bounded(t, i, e, WriteCommand(c));
    Take(t, i, e, Word(name), [LParen] + ([RParen] + rest));
    Take(t, i + 1, e, LParen, [RParen] + rest);
    Take(t, i + 2, e, RParen, rest);
    var m := Split(t, i + 3, e, Newlines(breaks), WriteAndOr(value));
    ReadAndOr(t, m, e, value);
    ReadNewlines(t, i + 3, m, breaks);
    Bounded(t, m, e, WriteAndOr(value));
    var r := RunAndOr(o, t, m, false, s);
    SteadyFlow(t, s, r.s);
    assert Slice(t, m, e) == WriteAndOr(value) by { SpansSlice(t, m, e, WriteAndOr(value)); }
  }

  lemma SpansSlice(t: seq<Token>, i: nat, e: nat, s: seq<Token>)
    requires Spans(t, i, e, s)
    ensures Slice(t, i, e) == s
  {
  }
}
