/**
  Chains under oracles that answer as the builtins do: break and continue report 0, so a chain in which only `||`
  follows them is in turn, and only `return` may leave with another status.
 */
module ShellBuiltins {
  import opened ShellSkip
  import opened ShellRun
  import opened ShellGrammar
  import opened ShellHalts
  import opened ShellMeaning
  import opened ShellProof
  import opened ShellCalm
  import opened ShellOrderly
  import opened ShellExposed

  const BREAK_WORD := Word(Text("break"))
  const CONTINUE_WORD := Word(Text("continue"))
  const RETURN_WORD := Word(Text("return"))

  /** The word that leaves in this way stands in the command. */
  predicate Named(flow: Flow, cmd: seq<Token>) {
    match flow
    case NoFlow => true
    case Break => BREAK_WORD in cmd
    case Continue => CONTINUE_WORD in cmd
    case Return => RETURN_WORD in cmd
  }

  /** Each of the three leaves only where its word stands, and the first two report 0. */
  ghost predicate AsBuiltins(o: Oracle) {
    Honest(o) && forall h: seq<Action>, cmd: seq<Token>, b: bool :: Named(o.outcome(h + [Ran(cmd, b)]).flow, cmd)
  }

  lemma BuiltinsOnly(o: Oracle)
    requires AsBuiltins(o)
    ensures OnlyBuiltins(o)
  {
    forall h: seq<Action>, cmd: seq<Token>, b: bool | o.outcome(h + [Ran(cmd, b)]).flow != NoFlow
      ensures exists k | 0 <= k < |cmd| :: cmd[k] in LEAVING
    {
      assert Named(o.outcome(h + [Ran(cmd, b)]).flow, cmd);
      var w := match o.outcome(h + [Ran(cmd, b)]).flow
               case Break => BREAK_WORD case Continue => CONTINUE_WORD case _ => RETURN_WORD;
      assert w in cmd && w in LEAVING;
      var k :| 0 <= k < |cmd| && cmd[k] == w;
    }
  }

  predicate MayReturn(p: Pipeline) {
    p.Plain? && p.stages.Final? && RETURN_WORD in WriteSimple(p.stages.s)
  }

  predicate AllOr(a: AndOr) {
    a.Only? || (!a.isAnd && AllOr(a.rest))
  }

  /** A pipeline that may leave is the last, or cannot return and has no && behind it. */
  predicate BuiltinChain(a: AndOr) {
    a.Only? || ((LeavingPipeline(a.p) ==> !MayReturn(a.p) && AllOr(a)) && BuiltinChain(a.rest))
  }

  ghost predicate InTurnAsBuiltins(t: seq<Token>) {
    forall o, s | AsBuiltins(o) && Still(s) :: Clear(RunList(o, t, 0, true, s).s)
  }

  // ---------------------------------------------------------------------------------------------
  // In turn
  // ---------------------------------------------------------------------------------------------

  /** A plain pipeline is stepped over exactly, whatever is pending. */
  lemma PlainSkipped(o: Oracle, t: seq<Token>, i: nat, e: nat, p: Pipeline, s: State)
    requires p.Plain? && GoodPipeline(p) && Spans(t, i, e, WritePipeline(p)) && (FollowsList(t, e) || Joins(At(t, e)))
    ensures i <= |t| && RunPipeline(o, t, i, false, s).next == e && RunPipeline(o, t, i, false, s).s == s
  {
    hide Spans, SkipStages, SkipSimple, WriteSimple;
    var st := p.stages;
    Bounded(t, i, e, WriteStages(st));
    ReadStages(t, i, e, st);
    if st.Final? {
      ReadSimple(t, i, e, st.s);
    } else {
      var j := Split(t, i, e, WriteSimple(st.s), [Pipe] + (Newlines(st.breaks) + WriteStages(st.rest)));
      Take(t, j, e, Pipe, Newlines(st.breaks) + WriteStages(st.rest));
      ReadSimple(t, i, j, st.s);
    }
  }

  /** With something pending at status 0, alternatives are stepped over. */
  lemma {:induction false} PendingRest(o: Oracle, t: seq<Token>, i: nat, e: nat, a: AndOr, s: State)
    requires AllPlain(a) && GoodAndOr(a) && AllOr(a) && Spans(t, i, e, WriteAndOr(a)) && FollowsList(t, e)
    ensures i <= |t|
    ensures var r := RunAndOrRest(o, t, First(o, t, i, false, 0, s).next, true, 0, s); r.s == s && r.next == e
    decreases a
  {
    hide Spans, RunPipeline, RunAndOrRest, SkipNewlines, WriteStages;
    Bounded(t, i, e, WriteAndOr(a));
    var j, k := e, e;
    if a.Chain? {
      j, k := JointParts(t, i, e, a);
    }
    PlainSkipped(o, t, i, j, a.p, s);
    if a.Only? {
      RestEnds(o, t, e, 0, s);
    } else {
      PlainSkippedHead(o, t, k, e, a.rest, s);
      PendingRest(o, t, k, e, a.rest, s);
      RestGoes(o, t, j, k, 0, s);
    }
  }

  /** The first pipeline of a chain, stepped over, leaves the state. */
  lemma PlainSkippedHead(o: Oracle, t: seq<Token>, i: nat, e: nat, a: AndOr, s: State)
    requires AllPlain(a) && GoodAndOr(a) && Spans(t, i, e, WriteAndOr(a)) && FollowsList(t, e)
    ensures i <= |t| && RunPipeline(o, t, i, false, s).s == s
  {
    hide Spans, RunPipeline, WriteStages;
    var j, k := e, e;
    if a.Chain? {
      j, k := JointParts(t, i, e, a);
    }
    PlainSkipped(o, t, i, j, a.p, s);
  }

  lemma LeavesZero(o: Oracle, t: seq<Token>, i: nat, e: nat, p: Pipeline, s: State)
    requires p.Plain? && GoodPipeline(p) && !MayReturn(p) && Spans(t, i, e, WritePipeline(p)) && Joins(At(t, e))
    requires AsBuiltins(o) && Still(s)
    ensures i <= |t| && var m := RunPipeline(o, t, i, true, s); m.s.flow != NoFlow ==> m.status == 0
  {
    hide Spans, RunPipeline, WriteSimple, WriteStages;
    MeansStages(o, t, i, e, p.stages, s);
  }

  lemma {:induction false} BuiltinRest(o: Oracle, t: seq<Token>, i: nat, e: nat, a: AndOr, run: bool, status: int,
                                       s: State)
    requires AllPlain(a) && GoodAndOr(a) && BuiltinChain(a) && Spans(t, i, e, WriteAndOr(a)) && FollowsList(t, e)
    requires Fit(o, t, s) && AsBuiltins(o)
    ensures i <= |t|
    ensures var m := First(o, t, i, run, status, s);
      var r := RunAndOrRest(o, t, m.next, true, m.status, m.s);
      Clear(r.s) && r.next == e
    decreases a
  {
    hide Spans, RunPipeline, RunAndOrRest, AsBuiltins, Honest, NoDefinitions, OnlyBuiltins, SkipNewlines, WriteStages,
         WriteSimple, LeavingPipeline, MayReturn, First;
    Bounded(t, i, e, WriteAndOr(a));
    var j, k := e, e;
    if a.Chain? {
      j, k := JointParts(t, i, e, a);
    }
    PlainFirst(o, t, i, j, a.p, run, status, s);
    FirstIs(o, t, i, run, status, s);
    var m := First(o, t, i, run, status, s);
    if a.Only? {
      RestEnds(o, t, j, m.status, m.s);
    } else if m.s.flow == NoFlow {
      var doRun := a.isAnd <==> m.status == 0;
      StillReady(o, t, s, m.s);
      BuiltinRest(o, t, k, e, a.rest, doRun, m.status, m.s);
      RestGoes(o, t, j, k, m.status, m.s);
      FirstIs(o, t, k, doRun, m.status, m.s);
    } else {
      if !run { PlainSkipped(o, t, i, j, a.p, s); }
      LeavesZero(o, t, i, j, a.p, s);
      PlainSkippedHead(o, t, k, e, a.rest, m.s);
      PendingRest(o, t, k, e, a.rest, m.s);
      RestGoes(o, t, j, k, 0, m.s);
      FirstIs(o, t, k, false, 0, m.s);
    }
  }

  lemma BuiltinInTurn(o: Oracle, a: AndOr, s: State)
    requires AllPlain(a) && GoodAndOr(a) && BuiltinChain(a) && AsBuiltins(o) && Still(s)
    ensures Clear(RunList(o, WriteAndOr(a), 0, true, s).s)
  {
    hide RunPipeline, RunAndOrRest, RunListFrom, AsBuiltins, Honest, OnlyBuiltins, WriteAndOr, BuiltinChain;
    var t := WriteAndOr(a);
    assert t[0..|t|] == t;
    ChainOpensNothing(a);
    NothingDefined(t, 0);
    BuiltinsOnly(o);
    assert Honest(o) by { BuiltinsHonest(o); }
    ReadAndOr(t, 0, |t|, a);
    BuiltinRest(o, t, 0, |t|, a, true, 0, s);
    FirstIs(o, t, 0, true, 0, s);
    ListItem(o, t, 0, true, s.last, s);
  }

  lemma BuiltinsHonest(o: Oracle)
    requires AsBuiltins(o)
    ensures Honest(o)
  {
  }

  // ---------------------------------------------------------------------------------------------
  // Out of turn
  // ---------------------------------------------------------------------------------------------

  function Flows(cmd: seq<Token>): Flow {
    if RETURN_WORD in cmd then Return else if BREAK_WORD in cmd then Break
    else if CONTINUE_WORD in cmd then Continue else NoFlow
  }

  /** The flow after a history: only its command number `at` leaves. */
  function FlowAt(h: seq<Action>, at: nat): Flow {
    if h != [] && |h| == at && h[|h| - 1].Ran? then Flows(h[|h| - 1].cmd) else NoFlow
  }

  /** The oracle under which only that command leaves; statuses are as given where the builtins leave them open. */
  function LeaverAt(status: seq<Action> -> int, at: nat): Oracle {
    Oracle(h => Outcome(FlowAt(h, at), 0, if FlowAt(h, at) in {Break, Continue} then 0 else status(h), map[]),
           (h, words) => 1, h => 1, (h, word, patterns) => true)
  }

  lemma LeaverAtFits(status: seq<Action> -> int, at: nat)
    ensures AsBuiltins(LeaverAt(status, at))
  {
    var o := LeaverAt(status, at);
    forall h: seq<Action>, cmd: seq<Token>, b: bool ensures Named(o.outcome(h + [Ran(cmd, b)]).flow, cmd) {
      var g := h + [Ran(cmd, b)];
      assert g[|g| - 1] == Ran(cmd, b);
      assert FlowAt(g, at) == NoFlow || FlowAt(g, at) == Flows(cmd);
    }
  }

  lemma LeaverAtDoes(status: seq<Action> -> int, at: nat, p: Pipeline, s: State)
    requires p.Plain? && Still(s)
    ensures var d := DoStages(LeaverAt(status, at), p.stages, false, s);
      && |d.s.history| == |s.history| + 1 && Clear(d.s)
      && (|s.history| + 1 != at || !LeavingPipeline(p) ==> d.s.flow == NoFlow && d.status == status(d.s.history))
      && (|s.history| + 1 == at && LeavingPipeline(p) ==>
            d.s.flow != NoFlow && d.status == if MayReturn(p) then status(d.s.history) else 0)
  {
    hide WriteStages;
    var st := p.stages;
    var a := if st.Final? then Ran(WriteSimple(st.s), false) else Streamed(WriteStages(st), false);
    var h := s.history + [a];
    assert h[|h| - 1] == a && |h| == |s.history| + 1;
    assert FlowAt(h, at) == if |h| == at && st.Final? then Flows(WriteSimple(st.s)) else NoFlow;
    HoldsFlows(WriteSimple(st.s));
    hide WriteSimple, FlowAt;
  }

  lemma HoldsFlows(cmd: seq<Token>)
    ensures Holds(cmd) <==> Flows(cmd) != NoFlow
  {
    if Flows(cmd) != NoFlow {
      var w := if RETURN_WORD in cmd then RETURN_WORD else if BREAK_WORD in cmd then BREAK_WORD else CONTINUE_WORD;
      var k :| 0 <= k < |cmd| && cmd[k] == w;
      assert cmd[k] in LEAVING;
    }
  }

  /** The first pipeline that may leave where it must not, counted from 1. */
  function Target(a: AndOr): nat
    requires !BuiltinChain(a)
  {
    if LeavingPipeline(a.p) && (MayReturn(a.p) || !AllOr(a)) then 1 else 1 + Target(a.rest)
  }

  /** Pending at status 0: what stands behind the next && is run. */
  lemma {:induction false} AndRuns(o: Oracle, t: seq<Token>, i: nat, e: nat, a: AndOr, s: State)
    requires AllPlain(a) && GoodAndOr(a) && !AllOr(a) && Spans(t, i, e, WriteAndOr(a)) && FollowsList(t, e)
    requires s.flow != NoFlow
    ensures i <= |t| && RunAndOrRest(o, t, First(o, t, i, false, 0, s).next, true, 0, s).s.intruded
    decreases a
  {
    hide Spans, RunPipeline, RunAndOrRest, SkipNewlines, WriteStages;
    Bounded(t, i, e, WriteAndOr(a));
    var j, k := JointParts(t, i, e, a);
    PlainSkipped(o, t, i, j, a.p, s);
    RestGoes(o, t, j, k, 0, s);
    if a.isAnd {
      RunsOn(o, t, k, s);
    } else {
      PlainSkippedHead(o, t, k, e, a.rest, s);
      AndRuns(o, t, k, e, a.rest, s);
    }
  }

  lemma RunsOn(o: Oracle, t: seq<Token>, i: nat, s: State)
    requires i <= |t| && s.flow != NoFlow
    ensures var m := RunPipeline(o, t, i, true, s); RunAndOrRest(o, t, m.next, true, m.status, m.s).s.intruded
  {
    hide RunPipeline, RunAndOrRest;
    Intrudes(o, t, i, s);
  }

  lemma {:induction false} TargetIntrudes(ss: seq<int>, at: nat, k: nat, t: seq<Token>, i: nat, e: nat, a: AndOr,
                                          s: State)
    requires AllPlain(a) && GoodAndOr(a) && !BuiltinChain(a) && Spans(t, i, e, WriteAndOr(a)) && FollowsList(t, e)
    requires Still(s) && |s.history| == k <= |ss| && ss[k..] == Passing(a) && at == k + Target(a)
    ensures i <= |t| && RunAndOr(LeaverAt(Script(0, ss), at), t, i, true, s).s.intruded
    decreases a
  {
    hide Spans, RunAndOr, WriteStages, WriteSimple, DoStages, LeavingPipeline, MayReturn, AllOr;
    var o := LeaverAt(Script(0, ss), at);
    var u := DoStages(o, a.p.stages, false, s);
    assert ss[k] == Passing(a)[0] && ss[k + 1..] == Passing(a.rest);
    LeaverAtDoes(Script(0, ss), at, a.p, s);
    if LeavingPipeline(a.p) && (MayReturn(a.p) || !AllOr(a)) {
      if MayReturn(a.p) {
        var n := LinkRuns(o, t, i, e, a, s);
        Intrudes(o, t, n, u.s);
      } else {
        ZeroIntrudes(o, t, i, e, a, s);
      }
    } else {
      var n := LinkRuns(o, t, i, e, a, s);
      TargetIntrudes(ss, at, k + 1, t, n, e, a.rest, u.s);
    }
  }

  /** A break in front of a chain with an && somewhere. */
  lemma ZeroIntrudes(o: Oracle, t: seq<Token>, i: nat, e: nat, a: AndOr, s: State)
    requires AllPlain(a) && GoodAndOr(a) && !AllOr(a) && Spans(t, i, e, WriteAndOr(a)) && FollowsList(t, e) && Calm(s)
    requires var d := DoStages(o, a.p.stages, false, s); d.s.flow != NoFlow && d.status == 0
    ensures i <= |t| && RunAndOr(o, t, i, true, s).s.intruded
  {
    hide Spans, RunPipeline, RunAndOrRest, SkipNewlines, WriteStages, DoStages;
    var j, k := JointParts(t, i, e, a);
    MeansStages(o, t, i, j, a.p.stages, s);
    var u := DoStages(o, a.p.stages, false, s);
    RestGoes(o, t, j, k, 0, u.s);
    if a.isAnd {
      RunsOn(o, t, k, u.s);
    } else {
      PlainSkippedHead(o, t, k, e, a.rest, u.s);
      AndRuns(o, t, k, e, a.rest, u.s);
    }
  }

  /**
    With break, continue and return answering as they do, a chain of simple commands and pipelines is in turn if and
    only if a pipeline that may leave is the last, or cannot return and is followed by no && anywhere.
   */
  lemma BuiltinChainExactly(a: AndOr)
    requires AllPlain(a) && GoodAndOr(a)
    ensures InTurnAsBuiltins(WriteAndOr(a)) <==> BuiltinChain(a)
  {
    hide RunList, BuiltinChain, WriteAndOr, AsBuiltins;
    var t := WriteAndOr(a);
    if BuiltinChain(a) {
      forall o, s | AsBuiltins(o) && Still(s) ensures Clear(RunList(o, t, 0, true, s).s) {
        BuiltinInTurn(o, a, s);
      }
    } else {
      var s := State(NoFlow, 0, 0, map[], [], false, false);
      var ss := Passing(a);
      LeaverAtFits(Script(0, ss), Target(a));
      assert t[0..|t|] == t && ss[0..] == ss;
      TargetIntrudes(ss, Target(a), 0, t, 0, |t|, a, s);
      ListKeeps(LeaverAt(Script(0, ss), Target(a)), t, a, s);
    }
  }
}
