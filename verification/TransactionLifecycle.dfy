/**
  The lifecycle of updates, kernel updates included: what holds in every state that herald's
  operations can leave behind, each of them run to its end, failed, or cut off by a power loss, also in
  the middle of removing the transaction directory, and exactly when one such state is no safe start.
 */
module TransactionLifecycle {
  import opened Common
  import opened Transaction
  import opened TransactionSafety
  import opened TransactionCleanup
  import opened TransactionOutcome

  /** The operations as herald's main calls them. */
  datatype Call =
    | BeginCall
    | StageCall(path: Path, bytes: Bytes)
    | DeleteCall(path: Path)
    | CommitCall
    | RecoverCall
    | FinalizeCall
    | RollbackCall

  /** Nothing that a left-over journal would do: every line of it says what the live files are already. */
  predicate Harmless(w: World) {
    w.journal.Some? ==>
      forall r | r in w.journal.value ::
        if r.Restore? then r.path in w.live && r.path in w.backup && w.backup[r.path] == w.live[r.path]
        else r.path !in w.live
  }

  /**
    Files are staged, deletions queued and commits started only in a begun transaction, and
    txn_rollback is called only where recovery returned 1. Where no state file says what to make of a
    journal that a cleanup left behind, a transaction may begin only if that journal is harmless.
   */
  predicate Enabled(w: World, call: Call) {
    match call
    case BeginCall => w.state == None ==> Harmless(w)
    case StageCall(path, _) => Begun(w) && SafeRel(path)
    case DeleteCall(path) => Begun(w) && SafeRel(path)
    case CommitCall => Begun(w) && (w.deletes.Some? ==> Disjoint(w))
    case RollbackCall => w.state == Some(PendingKernel)
    case _ => true
  }

  predicate Begun(w: World) {
    w.state == Some(Prepared) && w.journal == Some([])
  }

  function Run(w: World, call: Call): World {
    match call
    case BeginCall => Begin(w).world
    case StageCall(path, bytes) => StageFile(w, path, bytes).world
    case DeleteCall(path) => if w.deletes.None? then w else w.(deletes := Some(w.deletes.value + [path]))
    case CommitCall => Commit(w).world
    case RecoverCall => Recover(w).world
    case FinalizeCall => Finalize(w).world
    case RollbackCall => Rollback(w).world
  }

  /** What every journal is: safe paths, each once. */
  predicate Sane(w: World) {
    w.journal.Some? ==> Once(w.journal.value) && forall r | r in w.journal.value :: SafeRel(r.path)
  }

  /**
    The lifecycle invariant. `base` is the tree without the pending update: what a rollback restores,
    or what a decided update keeps. Of the transaction directory a cut-off cleanup may have left anything.
   */
  ghost predicate Inv(base: Tree, w: World) {
    MARKER !in base && Distinct(w.stage) &&
    match w.state
    case None => w.live == base && Sane(w)
    case Some(Committed) => w.live - {MARKER} == base && Sane(w)
    case Some(_) => Undoable(base, w)
  }

  /** The tree that counts as decided after a call. */
  function Rebase(base: Tree, w: World, call: Call): Tree {
    var u := Run(w, call);
    if call == CommitCall && w.deletes.Some? && PastCommit(u) then Post(w)
    else if call == FinalizeCall && w.state == Some(PendingKernel) && PastCommit(u) then w.live - {MARKER}
    else base
  }

  lemma UndoableSane(base: Tree, w: World)
    requires Undoable(base, w)
    ensures Sane(w)
  {
    if w.journal.Some? {
      forall r | r in w.journal.value ensures SafeRel(r.path) { assert Truthful(base, w.backup, r); }
    }
  }

  lemma BegunLive(base: Tree, w: World)
    requires Inv(base, w) && Begun(w)
    ensures w.live == base
  {
    forall p ensures Same(w.live, base, p) { SameThere(base, w, p); }
    SameTree(w.live, base);
  }

  /** Undoing and cleaning up, wherever it is cut off. */
  lemma UndoKeeps(base: Tree, w: World)
    requires Inv(base, w) && w.state.Some? && w.state != Some(Committed)
    ensures var r := UndoAndClean(w);
            && Inv(base, r.world) && (r.world.state == None || r.world.state == w.state)
            && (r.Done? ==> r.world.live == base && r.world.state == None && r.world.journal == None)
  {
    hide Undoable, Journalled, UndoAndClean, Sane;
    UndoAndCleanBinds(base, w);
    UndoableSane(base, UndoAndClean(w).world);
  }

  /** Dropping the marker of a decided update and cleaning up, wherever it is cut off. */
  lemma RetireKeeps(base: Tree, w: World)
    requires Inv(base, w) && w.state == Some(Committed)
    ensures var r := RetireAndClean(w);
            && Inv(base, r.world) && PastCommit(r.world)
            && (r.Done? ==> r.world.live == base && r.world.state == None && r.world.journal == None)
  {
    hide RetireAndClean, Sane;
    RetireAndCleanBinds(w);
    SaneAs(w, RetireAndClean(w).world);
  }

  lemma RecoverKeeps(base: Tree, w: World)
    requires Inv(base, w)
    ensures var e := Recover(w);
            && Inv(base, e.world)
            && (e.Exit? && e.code == 0 ==>
                  e.world.state == None && (e.world.journal == None || (w.state == None && SameLog(w, e.world))))
            && (e.Exit? && e.code == 1 <==> Probe(w).Done? && w.state == Some(PendingKernel))
  {
    hide Inv, RetireAndClean, UndoAndClean;
    var read := Probe(w);
    Refault(base, w, read.world.faults);
    if read.Done? {
      match w.state
      case None =>
      case Some(PendingKernel) =>
      case Some(Committed) => RetireKeeps(base, read.world);
      case Some(_) => UndoKeeps(base, read.world);
    }
  }

  lemma SaneAs(w: World, u: World)
    requires u.journal == w.journal || u.journal == None
    ensures Sane(w) ==> Sane(u)
  {
  }

  lemma RollbackKeeps(base: Tree, w: World)
    requires Inv(base, w) && w.state == Some(PendingKernel)
    ensures var e := Rollback(w);
            && Inv(base, e.world)
            && (e.world.state == None || e.world.state == Some(PendingKernel))
            && (e.Exit? && e.code == 0 ==> e.world.live == base && e.world.state == None)
  {
    hide Inv, UndoAndClean;
    UndoKeeps(base, w);
  }

  lemma FinalizeKeeps(base: Tree, w: World)
    requires Inv(base, w)
    ensures var e := Finalize(w);
            && Inv(Rebase(base, w, FinalizeCall), e.world)
            && (w.state == Some(PendingKernel) && !PastCommit(e.world) ==>
                  e.world.state == w.state && e.world.live == w.live)
            && (e.Exit? && e.code == 0 ==> e.world.live == w.live - {MARKER} && e.world.state == None)
  {
    hide Inv, RetireAndClean;
    var read := Probe(w);
    Refault(base, w, read.world.faults);
    if read.Done? && w.state == Some(PendingKernel) {
      var stated := WriteState(read.world, Committed);
      Refault(base, w, stated.world.faults);
      if stated.world.state == Some(Committed) {
        Decide(base, w, stated.world);
      }
      if stated.Done? {
        RetireKeeps(w.live - {MARKER}, stated.world);
      }
    }
  }

  lemma Decide(base: Tree, w: World, u: World)
    requires Inv(base, w) && w.state == Some(PendingKernel)
    requires u == w.(state := Some(Committed), faults := u.faults)
    ensures Inv(w.live - {MARKER}, u)
  {
    hide Undoable;
    UndoableSane(base, w);
  }

  /** A commit with the marker staged ends pending, still undoable, or bound to be undone. */
  lemma PendingCommitKeeps(w: World)
    requires Inv(w.live, w) && Begun(w) && w.deletes.Some? && Disjoint(w)
    requires MARKER in StagePaths(w.stage)
    ensures var e := Commit(w);
            && Inv(w.live, e.world) && !PastCommit(e.world)
            && (e.Exit? && e.code == 0 ==> e.world.state == Some(PendingKernel) && e.world.live == Post(w))
  {
    hide Undoable, Journalled, Disjoint, Post, Apply, RollBack;
    var started := WriteState(w, Applying);
    SameUndo(w.live, w, started.world);
    if started.Done? {
      SamePost(w, started.world);
      ApplyKeeps(w.live, started.world, PendingKernel);
      UndoWorld(w.live, Apply(started.world, PendingKernel).world);
    }
  }

  lemma PlainCommitKeeps(w: World)
    requires Inv(w.live, w) && Begun(w) && w.deletes.Some? && Disjoint(w)
    requires MARKER !in StagePaths(w.stage)
    ensures Inv(Rebase(w.live, w, CommitCall), Commit(w).world)
  {
    hide Undoable, Journalled, Disjoint, Apply, Conclude, Post;
    var started := WriteState(w, Applying);
    UnmarkedPost(w);
    SameUndo(w.live, w, started.world);
    if started.Done? {
      PlainConclude(w, started.world);
    }
  }

  lemma PlainConclude(w: World, started: World)
    requires Distinct(w.stage) && w.journal == Some([]) && w.deletes.Some? && Disjoint(w)
    requires MARKER !in w.live && MARKER !in Post(w) && Post(w) - {MARKER} == Post(w)
    requires started == w.(state := Some(Applying), faults := started.faults)
    ensures var u := Conclude(Apply(started, Committed), false).world;
            Inv(if PastCommit(u) then Post(w) else w.live, u)
  {
    hide Undoable, Journalled, Disjoint, Post, Apply, RollBack, Sane;
    SamePost(w, started);
    ApplyKeeps(w.live, started, Committed);
    var applied := Apply(started, Committed);
    UndoWorld(w.live, applied.world);
    UndoableSane(w.live, applied.world);
    if applied.Done? {
      var cleaned := Cleanup(applied.world);
      SaneAs(applied.world, cleaned.world);
      if applied.world.Next().Bad? {
        ExceptDistinct(applied.world.stage, applied.world.Next().removed.stage);
      }
    }
  }

  lemma SamePost(w: World, u: World)
    requires w.deletes.Some? && u.deletes == w.deletes && u.live == w.live && u.stage == w.stage
    ensures Post(u) == Post(w)
    ensures Disjoint(u) == Disjoint(w)
  {
  }

  lemma UnmarkedPost(w: World)
    requires w.deletes.Some? && MARKER !in w.live && MARKER !in StagePaths(w.stage)
    ensures MARKER !in Post(w) && Post(w) - {MARKER} == Post(w)
  {
    StageTreeKeys(w.stage);
  }

  lemma HarmlessUndoable(w: World)
    requires Harmless(w) && Sane(w)
    ensures Undoable(w.live, w)
  {
    if w.journal.Some? {
      forall r | r in w.journal.value ensures Truthful(w.live, w.backup, r) {
        assert SafeRel(r.path);
      }
    }
  }

  lemma EmptyUndoable(w: World)
    requires w.journal == Some([])
    ensures Undoable(w.live, w)
  {
  }

  lemma PrepareKeepsInv(base: Tree, w: World)
    requires Inv(base, w) && w.state == None && Harmless(w)
    ensures Inv(base, Prepare(w).world)
  {
    hide Undoable, Journalled, Harmless;
    HarmlessUndoable(w);
    var dirs := Probe(w);
    if dirs.Done? {
      var stated := WriteState(dirs.world, Prepared);
      SameUndo(base, w, stated.world);
      if stated.Done? {
        var created := Probe(stated.world);
        SameUndo(base, w, created.world);
        if created.Done? {
          ListKeepsInv(base, created.world.(journal := Some([])));
        }
      }
    }
  }

  lemma ListKeepsInv(base: Tree, w: World)
    requires MARKER !in base && Distinct(w.stage) && w.live == base && Begun(w)
    ensures var created := Probe(w);
            && Inv(base, created.world)
            && (created.Done? ==>
                  var listed := created.world.(deletes := Some([]));
                  && (DATABASE in listed.live ==> Inv(base, StageFile(listed, DATABASE, listed.live[DATABASE]).world))
                  && Inv(base, Probe(listed).world))
  {
    hide Undoable, Journalled;
    var created := Probe(w);
    EmptyUndoable(created.world);
    var listed := created.world.(deletes := Some([]));
    EmptyUndoable(Probe(listed).world);
    if DATABASE in listed.live {
      StageKeepsInv(base, listed, DATABASE, listed.live[DATABASE]);
    }
  }

  lemma StageKeepsInv(base: Tree, w: World, path: Path, bytes: Bytes)
    requires MARKER !in base && Distinct(w.stage) && w.live == base && Begun(w)
    ensures Inv(base, StageFile(w, path, bytes).world)
  {
    hide Undoable;
    ExceptDistinct(w.stage, {path});
    EmptyUndoable(StageFile(w, path, bytes).world);
  }

  /** Every call, under every tape, keeps the lifecycle invariant. */
  lemma CallKeeps(base: Tree, w: World, call: Call)
    requires Inv(base, w) && Enabled(w, call)
    ensures Inv(Rebase(base, w, call), Run(w, call))
  {
    hide Undoable, Journalled, Recover, Finalize, Rollback, Post, Disjoint, Prepare, Harmless, Sane, Commit, StageFile;
    match call
    case BeginCall =>
      RecoverKeeps(base, w);
      var e := Recover(w);
      if e.Exit? && e.code == 0 {
        HarmlessAfter(w, e.world);
        PrepareKeepsInv(base, e.world);
      }
    case StageCall(path, bytes) =>
      BegunLive(base, w);
      StageKeepsInv(base, w, path, bytes);
    case DeleteCall(path) =>
      BegunLive(base, w);
      if w.deletes.Some? {
        SameUndo(base, w, w.(deletes := Some(w.deletes.value + [path])));
      }
    case CommitCall =>
      BegunLive(base, w);
      CommitKeeps(w);
    case RecoverCall =>
      RecoverKeeps(base, w);
    case FinalizeCall =>
      FinalizeKeeps(base, w);
    case RollbackCall =>
      RollbackKeeps(base, w);
  }

  /** A recovery that had nothing to do leaves the left-overs as they are. */
  lemma HarmlessAfter(w: World, u: World)
    requires u.journal == None || (w.state == None && SameLog(w, u) && Harmless(w) && u.live == w.live)
    ensures Harmless(u)
  {
  }

  lemma CommitKeeps(w: World)
    requires Inv(w.live, w) && Enabled(w, CommitCall)
    ensures Inv(Rebase(w.live, w, CommitCall), Commit(w).world)
  {
    hide Undoable, Journalled, Post, Disjoint;
    if w.deletes.None? {
      NoList(w);
    } else if MARKER in StagePaths(w.stage) {
      PendingCommitKeeps(w);
    } else {
      PlainCommitKeeps(w);
    }
  }

  lemma NoList(w: World)
    requires Inv(w.live, w) && Begun(w) && w.deletes.None?
    ensures Inv(w.live, Commit(w).world)
  {
    hide Undoable, Journalled;
    var started := WriteState(w, Applying);
    SameUndo(w.live, w, started.world);
    UndoWorld(w.live, started.world);
  }

  /** A history of calls, each under its own tape. */
  predicate Legal(w: World, calls: seq<(Call, seq<Fault>)>)
    decreases |calls|
  {
    calls == [] ||
    (Enabled(w, calls[0].0) && Legal(Run(w.(faults := calls[0].1), calls[0].0), calls[1..]))
  }

  function RunAll(w: World, calls: seq<(Call, seq<Fault>)>): World
    decreases |calls|
  {
    if calls == [] then w else RunAll(Run(w.(faults := calls[0].1), calls[0].0), calls[1..])
  }

  lemma Refault(base: Tree, w: World, tape: seq<Fault>)
    requires Inv(base, w)
    ensures Inv(base, w.(faults := tape))
  {
    hide Undoable;
    if w.state.Some? && w.state != Some(Committed) {
      SameUndo(base, w, w.(faults := tape));
    }
  }

  /** The tree that counts as decided after a history. */
  function RebaseAll(base: Tree, w: World, calls: seq<(Call, seq<Fault>)>): Tree
    decreases |calls|
  {
    if calls == [] then base
    else
      var u := w.(faults := calls[0].1);
      RebaseAll(Rebase(base, u, calls[0].0), Run(u, calls[0].0), calls[1..])
  }

  /** From an idle system, every history of calls and faults stays inside the invariant, with the tree it decided. */
  lemma {:induction false} EveryReachableWorld(base: Tree, w: World, calls: seq<(Call, seq<Fault>)>)
    requires Inv(base, w) && Legal(w, calls)
    ensures Inv(RebaseAll(base, w, calls), RunAll(w, calls))
    decreases |calls|
  {
    hide Inv, Enabled, Rebase, Run;
    if calls != [] {
      var u := w.(faults := calls[0].1);
      Refault(base, w, calls[0].1);
      SameEnabled(w, u, calls[0].0);
      CallKeeps(base, u, calls[0].0);
      EveryReachableWorld(Rebase(base, u, calls[0].0), Run(u, calls[0].0), calls[1..]);
    }
  }

  lemma SameEnabled(w: World, u: World, call: Call)
    requires Enabled(w, call) && u == w.(faults := u.faults)
    ensures Enabled(u, call)
  {
    if call == CommitCall && w.deletes.Some? {
      SamePost(w, u);
    }
  }

  /**
    A live marker always has an owner: a pending kernel update, a decided one that is being cleaned
    up, or an interrupted commit whose journal will remove it.
   */
  lemma MarkerExplained(base: Tree, w: World)
    requires Inv(base, w) && MARKER in w.live
    ensures || w.state == Some(PendingKernel) || w.state == Some(Committed)
            || (w.state.Some? && w.journal.Some? && Remove(MARKER) in w.journal.value)
  {
    hide Undoable, Journalled;
    if w.state == Some(Applying) || w.state == Some(Prepared) {
      MarkerJournalled(base, w);
    }
  }

  lemma MarkerJournalled(base: Tree, w: World)
    requires Undoable(base, w) && MARKER !in base && MARKER in w.live
    ensures w.journal.Some? && Remove(MARKER) in w.journal.value
  {
    assert !Same(w.live, base, MARKER);
    assert MARKER in Journalled(w);
    var r :| r in w.journal.value && r.path == MARKER;
    assert Truthful(base, w.backup, r);
  }

  /** While a kernel is awaited no transaction begins, and nothing on disk is touched. */
  lemma BeginRefuses(w: World)
    requires w.state == Some(PendingKernel)
    ensures var e := Begin(w);
            && (e.Exit? ==> e.code == -1)
            && e.world == w.(faults := e.world.faults)
  {
  }

  /** txn_rollback run again and again, each time under its own tape, until it returns 0. */
  function RollbackAttempts(w: World, tapes: seq<seq<Fault>>): Exit
    requires tapes != []
    decreases |tapes|
  {
    var e := Rollback(w.(faults := tapes[0]));
    if |tapes| == 1 || e.world.state == None then e else RollbackAttempts(e.world, tapes[1..])
  }

  /** However often it is interrupted, a completed rollback restores the files and drops the marker. */
  lemma {:induction false} RollbackRestores(base: Tree, w: World, tapes: seq<seq<Fault>>)
    requires Inv(base, w) && w.state == Some(PendingKernel) && tapes != []
    ensures var e := RollbackAttempts(w, tapes);
            && Inv(base, e.world)
            && (e.Exit? && e.code == 0 ==> e.world.live == base && MARKER !in e.world.live && e.world.state == None)
    decreases |tapes|
  {
    Refault(base, w, tapes[0]);
    RollbackKeeps(base, w.(faults := tapes[0]));
    var e := Rollback(w.(faults := tapes[0]));
    if |tapes| > 1 && e.world.state != None {
      RollbackRestores(base, e.world, tapes[1..]);
    }
  }

  /**
    Finalizing under any faults either leaves the update pending and the files alone, or decides it:
    then recovery, itself interrupted any number of times, ends with the new files and no marker.
   */
  lemma FinalizeCompletes(base: Tree, w: World, tapes: seq<seq<Fault>>)
    requires Inv(base, w) && w.state == Some(PendingKernel) && tapes != []
    ensures var u := Finalize(w).world;
            if !PastCommit(u) then
              Inv(base, u) && u.state == Some(PendingKernel) && u.live == w.live
            else
              var e := Attempts(u, tapes);
              e.Exit? && e.code == 0 ==> e.world.live == w.live - {MARKER} && e.world.state == None
  {
    hide Undoable, Journalled, Finalize, Attempts;
    FinalizeKeeps(base, w);
    var u := Finalize(w).world;
    if PastCommit(u) {
      DecidedRecovers(w.live - {MARKER}, u, tapes);
    }
  }

  lemma {:induction false} DecidedRecovers(t: Tree, w: World, tapes: seq<seq<Fault>>)
    requires Inv(t, w) && PastCommit(w) && tapes != []
    ensures var e := Attempts(w, tapes);
            e.Exit? && e.code == 0 ==> e.world.live == t && e.world.state == None
    decreases |tapes|
  {
    RecoverKeeps(t, w.(faults := tapes[0]));
    var e := Recover(w.(faults := tapes[0]));
    if |tapes| > 1 {
      RetireAndCleanBinds(w.(faults := tapes[0]).Spend());
      DecidedRecovers(t, e.world, tapes[1..]);
    }
  }

  // ---------------------------------------------------------------------------------------------
  // Between a pending commit and its end
  // ---------------------------------------------------------------------------------------------

  /** The update is still pending after every call of the history. */
  predicate StaysPending(w: World, calls: seq<(Call, seq<Fault>)>)
    decreases |calls|
  {
    w.state == Some(PendingKernel) &&
    (calls == [] || StaysPending(Run(w.(faults := calls[0].1), calls[0].0), calls[1..]))
  }

  predicate NoRollback(calls: seq<(Call, seq<Fault>)>) {
    forall c | c in calls :: c.0 != RollbackCall
  }

  /** While the update stays pending, only a rollback touches the files. */
  lemma PendingCall(base: Tree, w: World, call: Call)
    requires Inv(base, w) && w.state == Some(PendingKernel) && Enabled(w, call)
    requires Run(w, call).state == Some(PendingKernel)
    ensures Inv(base, Run(w, call)) && (call != RollbackCall ==> Run(w, call).live == w.live)
  {
    hide Undoable, Journalled, Finalize, Rollback, Begin;
    CallKeeps(base, w, call);
    match call
    case BeginCall => BeginRefuses(w);
    case FinalizeCall => FinalizeKeeps(base, w);
    case _ =>
  }

  lemma {:induction false} PendingHistory(base: Tree, w: World, calls: seq<(Call, seq<Fault>)>)
    requires Inv(base, w) && Legal(w, calls) && StaysPending(w, calls)
    ensures var u := RunAll(w, calls);
            && Inv(base, u) && u.state == Some(PendingKernel)
            && (NoRollback(calls) ==> u.live == w.live)
    decreases |calls|
  {
    hide Inv, Enabled, Run;
    if calls != [] {
      var u := w.(faults := calls[0].1);
      Refault(base, w, calls[0].1);
      SameEnabled(w, u, calls[0].0);
      PendingCall(base, u, calls[0].0);
      PendingHistory(base, Run(u, calls[0].0), calls[1..]);
    }
  }

  /** A begun kernel update whose commit goes through. */
  ghost predicate GoesPending(w: World) {
    && Begun(w) && w.deletes.Some? && Disjoint(w) && MARKER in StagePaths(w.stage)
    && Commit(w).Exit? && Commit(w).code == 0
  }

  lemma PendingStart(base: Tree, w: World, calls: seq<(Call, seq<Fault>)>)
    requires Inv(base, w) && GoesPending(w) && Legal(Commit(w).world, calls) && StaysPending(Commit(w).world, calls)
    ensures var u := RunAll(Commit(w).world, calls);
            && base == w.live && Inv(w.live, u) && u.state == Some(PendingKernel)
            && (NoRollback(calls) ==> u.live == Post(w))
  {
    hide Undoable, Journalled, Commit, Post, Disjoint, RunAll, Legal;
    BegunLive(base, w);
    PendingCommitKeeps(w);
    PendingHistory(w.live, Commit(w).world, calls);
  }

  /**
    Whatever happens between the commit of a kernel update and its finalization, if no rollback was attempted the
    finalization decides exactly the update, at once or through recoveries interrupted any number of times.
   */
  lemma FinalizeDecidesUpdate(base: Tree, w: World, calls: seq<(Call, seq<Fault>)>, tape: seq<Fault>,
                              tapes: seq<seq<Fault>>)
    requires Inv(base, w) && GoesPending(w) && Legal(Commit(w).world, calls) && StaysPending(Commit(w).world, calls)
    requires NoRollback(calls) && tapes != []
    ensures var f := Finalize(RunAll(Commit(w).world, calls).(faults := tape));
            && (f.Exit? && f.code == 0 ==> f.world.live == Post(w) - {MARKER} && f.world.state == None)
            && (PastCommit(f.world) ==>
                  var e := Attempts(f.world, tapes);
                  e.Exit? && e.code == 0 ==> e.world.live == Post(w) - {MARKER} && e.world.state == None)
            && (!PastCommit(f.world) ==> f.world.state == Some(PendingKernel) && f.world.live == Post(w))
  {
    hide Inv, Commit, Post, Disjoint, RunAll, Legal, Finalize, Attempts, GoesPending, StaysPending, NoRollback;
    PendingStart(base, w, calls);
    var u := RunAll(Commit(w).world, calls);
    Refault(w.live, u, tape);
    FinalizeKeeps(w.live, u.(faults := tape));
    FinalizeCompletes(w.live, u.(faults := tape), tapes);
  }

  /** And a rollback completed after any such history restores the tree from before the commit. */
  lemma RollbackAfterHistory(base: Tree, w: World, calls: seq<(Call, seq<Fault>)>, tapes: seq<seq<Fault>>)
    requires Inv(base, w) && GoesPending(w) && Legal(Commit(w).world, calls) && StaysPending(Commit(w).world, calls)
    requires tapes != []
    ensures var e := RollbackAttempts(RunAll(Commit(w).world, calls), tapes);
            e.Exit? && e.code == 0 ==> e.world.live == w.live && e.world.state == None
  {
    hide Inv, Commit, RunAll, Legal, GoesPending, StaysPending, NoRollback, RollbackAttempts;
    PendingStart(base, w, calls);
    RollbackRestores(w.live, RunAll(Commit(w).world, calls), tapes);
  }

  /** From an idle system on: what a rollback restores is the tree that the history before the commit had decided. */
  lemma UpdateUndone(base: Tree, start: World, before: seq<(Call, seq<Fault>)>, tape: seq<Fault>,
                     calls: seq<(Call, seq<Fault>)>, tapes: seq<seq<Fault>>)
    requires Inv(base, start) && Legal(start, before)
    requires var w := RunAll(start, before).(faults := tape);
             GoesPending(w) && Legal(Commit(w).world, calls) && StaysPending(Commit(w).world, calls) && tapes != []
    ensures var w := RunAll(start, before).(faults := tape);
            var e := RollbackAttempts(RunAll(Commit(w).world, calls), tapes);
            e.Exit? && e.code == 0 ==> e.world.live == RebaseAll(base, start, before) && e.world.state == None
  {
    hide Commit, RunAll, Legal, StaysPending, RollbackAttempts, Disjoint, RebaseAll, Undoable, Journalled;
    EveryReachableWorld(base, start, before);
    Refault(RebaseAll(base, start, before), RunAll(start, before), tape);
    BegunLive(RebaseAll(base, start, before), RunAll(start, before).(faults := tape));
    RollbackAfterHistory(RebaseAll(base, start, before), RunAll(start, before).(faults := tape), calls, tapes);
  }

  lemma InterruptedRollback(base: Tree, w: World, p: Path)
    requires Undoable(base, w) && w.faults == [Fine, POWER_LOSS] && p in w.backup
    requires w.journal.Some? && w.journal.value != [] && w.journal.value[0] == Restore(p)
    ensures p in base && Rollback(w).world == w.(live := w.live[p := base[p]], faults := [])
  {
    assert Truthful(base, w.backup, w.journal.value[0]);
    var u := w.(live := w.live[p := base[p]], faults := [POWER_LOSS]);
    var rest := w.journal.value[1..];
    assert RollBack(w) == RollBackRecords(u, rest);
    if rest != [] {
      assert Truthful(base, w.backup, rest[0]) by { assert rest[0] in w.journal.value; }
    } else {
      ExceptNone(u.stage);
      assert u.backup - {} == u.backup;
    }
  }

  /**
    txn_finalize does not look at the files: after a rollback that lost power past its first restored file, it
    decides a tree that is neither the update nor the one before it, if that file and another one were changed.
   */
  lemma FinalizeAfterInterruptedRollback(base: Tree, w: World, p: Path, q: Path)
    requires Inv(base, w) && w.state == Some(PendingKernel)
    requires w.journal.Some? && w.journal.value != [] && w.journal.value[0] == Restore(p) && p in w.backup
    requires !Same(w.live, base, p) && !Same(w.live, base, q) && q != p && q != MARKER
    ensures var torn := Rollback(w.(faults := [Fine, POWER_LOSS])).world;
            var e := Finalize(torn);
            && torn.state == Some(PendingKernel) && e.Exit? && e.code == 0
            && p in base && e.world.live == (w.live - {MARKER})[p := base[p]]
            && e.world.live != base && e.world.live != w.live - {MARKER}
  {
    hide Undoable, Journalled, Rollback, Finalize;
    var t := w.(faults := [Fine, POWER_LOSS]);
    SameUndo(base, w, t);
    InterruptedRollback(base, t, p);
    var torn := Rollback(t).world;
    FinalizeExactly(torn);
    var mixed := (w.live - {MARKER})[p := base[p]];
    assert torn.live - {MARKER} == mixed;
    assert !Same(mixed, base, q);
    assert !Same(mixed, w.live - {MARKER}, p);
  }

  // ---------------------------------------------------------------------------------------------
  // What a cut-off cleanup leaves behind
  // ---------------------------------------------------------------------------------------------

  /** After a begin that was cut off somewhere, recovery without faults succeeds and leaves the files alone. */
  ghost predicate SafeBegin(w: World, tape: seq<Fault>) {
    var e := Recover(Begin(w.(faults := tape)).world.(faults := []));
    e.Exit? && e.code == 0 && e.world.live == w.live
  }

  /** Where no state file is left, txn_begin touches neither the files nor the backups. */
  lemma BeginShape(w: World)
    requires w.state == None
    ensures var u := Begin(w).world;
            && u.live == w.live && u.backup == w.backup && (u.state == None || u.state == Some(Prepared))
            && (u.journal == w.journal || u.journal == Some([]))
  {
    hide Prepare;
  }

  /** What the replay of a whole journal without faults leaves at the paths it names, and nowhere else. */
  lemma {:induction false} CalmEffect(w: World, records: seq<Record>)
    requires w.faults == [] && Once(records) && RollBackRecords(w, records).Done?
    ensures var u := RollBackRecords(w, records).world;
            && u.backup == w.backup
            && (forall p | p !in PathsOf(records) :: Same(u.live, w.live, p))
            && (forall r | r in records ::
                  if r.Restore? then r.path in w.backup && r.path in u.live && u.live[r.path] == w.backup[r.path]
                  else r.path !in u.live)
    decreases |records|
  {
    if records != [] {
      var v := UndoRecord(w, records[0]).world;
      var rest := records[1..];
      assert Once(rest);
      CalmEffect(v, rest);
      PathsHead(records);
      var u := RollBackRecords(w, records).world;
      assert records[0].path !in PathsOf(rest) by {
        forall r | r in rest ensures r.path != records[0].path {
          var i :| 0 <= i < |rest| && rest[i] == r;
          assert rest[i] == records[i + 1];
        }
      }
      assert Same(u.live, v.live, records[0].path);
      forall p | p !in PathsOf(records) ensures Same(u.live, w.live, p) {
        assert Same(u.live, v.live, p);
      }
    }
  }

  /** A replay that leaves the files as they are was of a harmless journal. */
  lemma ReplayShows(w: World)
    requires w.faults == [] && Sane(w) && RollBack(w).Done? && RollBack(w).world.live == w.live
    ensures Harmless(w)
  {
    if w.journal.Some? {
      CalmEffect(w, w.journal.value);
    }
  }

  lemma CutBegin(w: World)
    requires w.state == None
    ensures Begin(w.(faults := [Fine, Fine, Fine, POWER_LOSS])).world == w.(state := Some(Prepared), faults := [])
  {
    var f3, f2, f1 := [Fine, Fine, POWER_LOSS], [Fine, POWER_LOSS], [POWER_LOSS];
    assert [Fine, Fine, Fine, POWER_LOSS][1..] == f3 && f3[1..] == f2 && f2[1..] == f1 && f1[1..] == [];
  }

  /**
    txn_begin writes "prepared" before it empties the journal. Where a cleanup took the state file and left the
    journal, it is safe under every tape if and only if that journal is harmless.
   */
  lemma BeginExactly(base: Tree, w: World)
    requires Inv(base, w) && w.state == None
    ensures (forall tape :: SafeBegin(w, tape)) <==> Harmless(w)
  {
    hide Begin, Recover, Undoable, Harmless, Sane, Whole;
    if Harmless(w) {
      forall tape ensures SafeBegin(w, tape) {
        var v := w.(faults := tape);
        Refault(base, w, tape);
        HarmlessSame(w, v);
        HarmlessBegin(base, v);
        assert v.(faults := tape) == v;
      }
    } else {
      CutBegin(w);
      var u := w.(state := Some(Prepared), faults := []);
      SaneAs(w, u);
      if SafeBegin(w, [Fine, Fine, Fine, POWER_LOSS]) {
        RecoverShows(u);
        HarmlessSame(w, u);
      }
    }
  }

  lemma HarmlessSame(w: World, u: World)
    requires u.journal == w.journal && u.backup == w.backup && u.live == w.live
    ensures Harmless(u) == Harmless(w)
  {
  }

  lemma RecoverShows(u: World)
    requires u.state == Some(Prepared) && u.faults == [] && Sane(u)
    requires var e := Recover(u); e.Exit? && e.code == 0 && e.world.live == u.live
    ensures Harmless(u)
  {
    hide RollBack, Harmless;
    ReplayShows(u);
  }

  lemma HarmlessBegin(base: Tree, w: World)
    requires Inv(base, w) && w.state == None && Harmless(w)
    ensures SafeBegin(w, w.faults)
  {
    hide Undoable, Begin, Sane;
    CallKeeps(base, w, BeginCall);
    BeginShape(w);
    var u := Begin(w).world;
    assert w.(faults := w.faults) == w;
    assert Whole(u);
    if u.state == Some(Prepared) {
      RecoverExactly(base, u);
    }
  }

  /** A decided update whose cleanup lost power just past the state file. */
  lemma CutOffCommitted(base: Tree, w: World)
    requires Inv(base, w) && w.state == Some(Committed)
    ensures var cut := Bad(true, false, Untouched, Removed({}, {}, false, false, true));
            Recover(w.(faults := [Fine, Fine, cut])).world == w.(live := base, state := None, faults := [])
  {
    var cut := Bad(true, false, Untouched, Removed({}, {}, false, false, true));
    assert [Fine, Fine, cut][1..] == [Fine, cut] && [Fine, cut][1..] == [cut] && [cut][1..] == [];
    ExceptNone(w.stage);
    assert w.backup - {} == w.backup;
  }

  /**
    So two power losses can take back a decided update: one in its cleanup, one in the next txn_begin. If it had
    replaced the file `p`, the recovery after them brings the old one back or loses a file.
   */
  lemma DecidedUpdateTakenBack(base: Tree, w: World, p: Path) returns (first: seq<Fault>, second: seq<Fault>)
    requires Inv(base, w) && w.state == Some(Committed)
    requires w.journal.Some? && Restore(p) in w.journal.value && p in w.backup && p in base && w.backup[p] != base[p]
    ensures var idle := Recover(w.(faults := first)).world;
            && idle.live == base && idle.state == None
            && var e := Recover(Begin(idle.(faults := second)).world.(faults := []));
               !(e.Exit? && e.code == 0 && e.world.live == base)
  {
    hide Begin, Undoable, Sane;
    first := [Fine, Fine, Bad(true, false, Untouched, Removed({}, {}, false, false, true))];
    CutOffCommitted(base, w);
    var idle := Recover(w.(faults := first)).world;
    SaneAs(w, idle);
    assert !Harmless(idle) by { assert Restore(p) in idle.journal.value; }
    BeginExactly(base, idle);
    second :| !SafeBegin(idle, second);
  }

  /**
    txn_begin empties journal and delete list but not the stage: what a cleanup left staged there is still staged,
    so the transaction starts with nothing but the database if and only if nothing else was left.
   */
  lemma BeginStages(w: World)
    requires w.state == None && Begin(w).Exit? && Begin(w).code == 0
    ensures var u := Begin(w).world;
            && Begun(u) && u.deletes == Some([]) && u.live == w.live
            && (forall s :: s in u.stage <==>
                  if s.path == DATABASE && DATABASE in w.live then s.bytes == w.live[DATABASE] else s in w.stage)
            && (StagePaths(u.stage) <= {DATABASE} <==> StagePaths(w.stage) <= {DATABASE})
  {
    hide Prepare, Except;
    ExceptKeeps(w.stage, {DATABASE});
    var u := Begin(w).world;
    assert forall s :: s in u.stage <==>
      if s.path == DATABASE && DATABASE in w.live then s.bytes == w.live[DATABASE] else s in w.stage;
    if StagePaths(u.stage) <= {DATABASE} {
      forall s | s in w.stage ensures s.path == DATABASE {
        assert s.path == DATABASE || s in u.stage;
      }
    }
  }
}
