/**
  What the operations answer. A commit answers 0 exactly when the state file has its final word; when nothing fails,
  every operation answers 0 exactly under a condition on the world it is called in, and leaves exactly the world that
  its caller asked for; and a commit that meets one failure is as if it had not been started.
 */
module TransactionOutcome {
  import opened Common
  import opened Transaction
  import opened TransactionSafety
  import opened TransactionCleanup

  // ---------------------------------------------------------------------------------------------
  // Under every tape
  // ---------------------------------------------------------------------------------------------

  /** The answer of a commit is what the state file says: final, or not. */
  lemma CommitAnswers(w: World)
    requires w.state == Some(Prepared) || w.state == Some(Applying)
    ensures var e := Commit(w);
      e.Exit? ==>
        && (e.code == 0 || e.code == -1)
        && (e.code == 0 <==> if MARKER in StagePaths(w.stage) then e.world.state == Some(PendingKernel)
                             else PastCommit(e.world))
  {
    hide ApplyFiles, RollBack, Strip;
    var last := if MARKER in StagePaths(w.stage) then PendingKernel else Committed;
    var started := WriteState(w, Applying);
    if started.Done? && w.journal.Some? && w.deletes.Some? {
      var applied := ApplyFiles(started.world);
      if applied.Done? && WriteState(applied.world, last).Done? {
        var cleaned := WriteState(applied.world, last).world;
        if cleaned.Next().Bad? { StripState(cleaned.Spend(), cleaned.Next().removed); }
      }
    }
  }

  lemma StripState(w: World, removed: Removed)
    ensures Strip(w, removed).state == w.state || Strip(w, removed).state == None
  {
  }

  // ---------------------------------------------------------------------------------------------
  // When nothing fails
  // ---------------------------------------------------------------------------------------------

  /** Every queued path passes safe_rel; an empty line of the delete list is none. */
  predicate Checked(w: World)
    requires w.deletes.Some?
  {
    (forall p | p in w.deletes.value :: p == "" || SafeRel(p)) && (forall s | s in w.stage :: SafeRel(s.path))
  }

  lemma CalmPrepare(w: World, path: Path)
    requires w.faults == [] && w.journal.Some?
    ensures var r := PrepareTarget(w, path);
      && (r.Done? <==> SafeRel(path)) && (r.Stopped? ==> !r.crash)
      && r.world.faults == [] && r.world.deletes == w.deletes
  {
    hide SafeRel;
  }

  lemma CalmDelete(w: World, path: Path)
    requires w.faults == [] && w.journal.Some?
    ensures var r := ApplyDelete(w, path);
      && (r.Done? <==> path == "" || SafeRel(path)) && (r.Stopped? ==> !r.crash)
      && r.world.faults == [] && r.world.deletes == w.deletes && r.world.stage == w.stage
      && (r.Done? ==> r.world.live == if path == "" then w.live else w.live - {path})
  {
    hide SafeRel, PrepareTarget;
    CalmPrepare(w, path);
  }

  lemma {:induction false} CalmDeletes(w: World, paths: seq<Path>)
    requires w.faults == [] && w.journal.Some?
    ensures var r := ApplyDeletes(w, paths);
      && (r.Done? <==> forall p | p in paths :: p == "" || SafeRel(p)) && (r.Stopped? ==> !r.crash)
      && r.world.faults == [] && r.world.deletes == w.deletes && r.world.stage == w.stage
      && (r.Done? ==> r.world.live == w.live - Nonempty(paths))
    decreases |paths|
  {
    hide SafeRel, ApplyDelete;
    if paths != [] {
      CalmDelete(w, paths[0]);
      assert paths == [paths[0]] + paths[1..];
      assert Nonempty(paths) == Nonempty([paths[0]]) + Nonempty(paths[1..]);
      var first := ApplyDelete(w, paths[0]);
      if first.Done? {
        CalmDeletes(first.world, paths[1..]);
      }
    }
  }

  lemma {:induction false} CalmStage(w: World)
    requires w.faults == [] && w.journal.Some?
    ensures var r := ApplyStage(w);
      && (r.Done? <==> forall s | s in w.stage :: SafeRel(s.path)) && (r.Stopped? ==> !r.crash)
      && r.world.faults == [] && r.world.deletes == w.deletes
      && (r.Done? ==> r.world.live == w.live + StageTree(w.stage) && r.world.stage == [])
    decreases |w.stage|
  {
    hide SafeRel, PrepareTarget, StageTree;
    StageInstalls(w);
    if w.stage != [] {
      CalmPrepare(w, w.stage[0].path);
      assert w.stage == [w.stage[0]] + w.stage[1..];
      var first := ApplyStaged(w);
      if first.Done? {
        CalmStage(first.world);
      }
    }
  }

  lemma {:induction false} CalmReplayEnds(w: World, records: seq<Record>)
    requires w.faults == []
    ensures var r := RollBackRecords(w, records); r.world.faults == [] && (r.Stopped? ==> !r.crash)
    decreases |records|
  {
    if records != [] && SafeRel(records[0].path) && UndoRecord(w, records[0]).Done? {
      CalmReplayEnds(UndoRecord(w, records[0]).world, records[1..]);
    }
  }

  /**
    A commit that nothing disturbs answers 0 if and only if it has a journal and a delete list and every path queued
    is safe, whether or not a path is both deleted and installed. Then the live files are exactly the old
    ones without the deletions and with the staged files, and of the transaction all is gone, or, with the marker
    staged, all that a rollback needs is kept.
   */
  lemma CommitExactly(w: World)
    requires w.faults == []
    ensures var e := Commit(w);
      && e.Exit? && (e.code == 0 <==> w.journal.Some? && w.deletes.Some? && Checked(w))
      && (e.code == 0 ==>
            if MARKER in StagePaths(w.stage) then
              e.world.live == Post(w) && e.world.state == Some(PendingKernel) && e.world.stage == []
            else e.world == World(Post(w), [], map[], None, None, None, []))
  {
    hide ApplyDeletes, ApplyStage, SafeRel, RollBackRecords, StageTree, Nonempty;
    var started := WriteState(w, Applying).world;
    if w.journal.Some? && w.deletes.Some? {
      CalmDeletes(started, w.deletes.value);
      var deleted := ApplyDeletes(started, w.deletes.value);
      if deleted.Done? {
        CalmStage(deleted.world);
      }
    }
    if w.journal.Some? {
      var applied := Apply(started, if MARKER in StagePaths(w.stage) then PendingKernel else Committed);
      if applied.Stopped? {
        CalmReplayEnds(applied.world, applied.world.journal.value);
      }
    }
  }

  /** Recovery that nothing disturbs, by what the state file says; RecoverExactly is the rest of it. */
  lemma RecoverCalmly(w: World)
    requires w.faults == []
    ensures w.state == None ==> Recover(w) == Exit(0, w)
    ensures w.state == Some(PendingKernel) ==> Recover(w) == Exit(1, w)
    ensures w.state == Some(Committed) ==>
      Recover(w) == Exit(0, World(w.live - {MARKER}, [], map[], None, None, None, []))
  {
  }

  /** Finalizing that nothing disturbs answers 0 exactly for a pending update, and leaves any other world alone. */
  lemma FinalizeExactly(w: World)
    requires w.faults == []
    ensures Finalize(w) ==
      if w.state == Some(PendingKernel) then Exit(0, World(w.live - {MARKER}, [], map[], None, None, None, []))
      else Exit(-1, w)
  {
  }

  /** A transaction begins exactly where recovery answers 0, with nothing queued but the database. */
  lemma BeginCalmly(w: World)
    requires w.faults == []
    ensures var e, r := Begin(w), Recover(w);
      && (e.Exit? && e.code == 0 <==> r.Exit? && r.code == 0) && (e.Exit? ==> e.code == 0 || e.code == -1)
      && (e.Exit? && e.code == 0 ==>
            && e.world.state == Some(Prepared) && e.world.journal == Some([]) && e.world.deletes == Some([])
            && e.world.live == r.world.live && e.world.faults == []
            && if DATABASE in r.world.live then Staged(DATABASE, r.world.live[DATABASE]) in e.world.stage
               else e.world.stage == r.world.stage)
      && (!(e.Exit? && e.code == 0) ==> e.world == r.world)
  {
    hide Recover, Except;
    RecoverUsesUp(w);
  }

  lemma RecoverUsesUp(w: World)
    requires w.faults == []
    ensures Recover(w).world.faults == []
  {
    if w.journal.Some? {
      CalmReplayEnds(w, w.journal.value);
    }
  }

  // ---------------------------------------------------------------------------------------------
  // One call that fails
  // ---------------------------------------------------------------------------------------------

  /** At most one call fails, and none loses power. */
  predicate Lone(faults: seq<Fault>) {
    forall i | 0 <= i < |faults| && faults[i].Bad? :: i == |faults| - 1 && !faults[i].crash
  }

  /** Either the step went through, or it met the one failure. */
  predicate MetOne(r: Result) {
    if r.Done? then Lone(r.world.faults) else !r.crash && r.world.faults == []
  }

  lemma LoneNext(w: World)
    requires Lone(w.faults)
    ensures Lone(w.Spend().faults) && (w.Next().Bad? ==> w.Spend().faults == [] && !w.Next().crash)
  {
  }

  lemma LonePrepare(w: World, path: Path)
    requires Lone(w.faults) && w.journal.Some? && SafeRel(path)
    ensures MetOne(PrepareTarget(w, path))
  {
    hide SafeRel, Lone;
    LoneNext(w);
    var found := Probe(w);
    if found.Done? {
      LoneLog(found.world, path);
      var logged := Log(found.world, path);
      if logged.Done? { LoneNext(logged.world); }
    }
  }

  lemma LoneLog(w: World, path: Path)
    requires Lone(w.faults) && w.journal.Some?
    ensures MetOne(Log(w, path))
  {
    hide Lone;
    LoneNext(w);
    if path in w.live {
      var copied := CopyToBackup(w, path);
      if copied.Done? { LoneNext(copied.world); }
    }
  }

  lemma LoneDelete(w: World, path: Path)
    requires Lone(w.faults) && w.journal.Some? && (path == "" || SafeRel(path))
    ensures MetOne(ApplyDelete(w, path))
  {
    hide SafeRel, Lone, PrepareTarget;
    LoneNext(w);
    var found := Probe(w);
    if path != "" && found.Done? && path in w.live {
      LonePrepare(found.world, path);
      var prepared := PrepareTarget(found.world, path);
      if prepared.Done? { LoneNext(prepared.world); }
    }
  }

  lemma {:induction false} LoneDeletes(w: World, paths: seq<Path>)
    requires Lone(w.faults) && w.journal.Some? && forall p | p in paths :: p == "" || SafeRel(p)
    ensures MetOne(ApplyDeletes(w, paths))
    decreases |paths|
  {
    hide SafeRel, Lone, ApplyDelete;
    if paths != [] {
      LoneDelete(w, paths[0]);
      var first := ApplyDelete(w, paths[0]);
      if first.Done? { LoneDeletes(first.world, paths[1..]); }
    }
  }

  lemma {:induction false} LoneStage(w: World)
    requires Lone(w.faults) && w.journal.Some? && forall s | s in w.stage :: SafeRel(s.path)
    ensures MetOne(ApplyStage(w))
    decreases |w.stage|
  {
    hide SafeRel, Lone, PrepareTarget;
    if w.stage != [] {
      LonePrepare(w, w.stage[0].path);
      var prepared := PrepareTarget(w, w.stage[0].path);
      if prepared.Done? { LoneNext(prepared.world); }
      var first := ApplyStaged(w);
      if first.Done? { LoneStage(first.world); }
    }
  }

  lemma LoneApply(w: World, last: Phase)
    requires Lone(w.faults) && w.journal.Some? && w.deletes.Some? && Checked(w)
    ensures MetOne(Apply(w, last))
  {
    hide SafeRel, Lone, ApplyDeletes, ApplyStage;
    LoneDeletes(w, w.deletes.value);
    var deleted := ApplyDeletes(w, w.deletes.value);
    if deleted.Done? {
      DeletesKeepStage(w, w.deletes.value);
      LoneStage(deleted.world);
      var staged := ApplyStage(deleted.world);
      if staged.Done? { LoneNext(staged.world); }
    }
  }

  lemma {:induction false} DeletesKeepStage(w: World, paths: seq<Path>)
    requires w.journal.Some?
    ensures ApplyDeletes(w, paths).world.stage == w.stage
    decreases |paths|
  {
    hide SafeRel;
    if paths != [] {
      var first := ApplyDelete(w, paths[0]);
      if first.Done? { DeletesKeepStage(first.world, paths[1..]); }
    }
  }

  /**
    A commit in which one call fails, whichever it is: it answers 0 with the new tree, or it answers -1 with exactly
    the tree it started from, without waiting for a recovery.
   */
  lemma OneFailureUndone(w: World)
    requires Ready(w) && Disjoint(w) && Lone(w.faults)
    ensures var e := Commit(w);
      && e.Exit? && (e.code == 0 || e.code == -1)
      && e.world.live == if e.code == 0 then Post(w) else w.live
  {
    hide Undoable, Apply, RollBack, Lone, Disjoint, Post, Strip;
    LoneNext(w);
    var started := WriteState(w, Applying);
    if started.Done? {
      var last := if MARKER in StagePaths(w.stage) then PendingKernel else Committed;
      SameDisjoint(w, started.world);
      SamePost(w, started.world);
      ApplyKeeps(w.live, started.world, last);
      LoneApply(started.world, last);
      var applied := Apply(started.world, last);
      if applied.Done? {
        LoneNext(applied.world);
        if applied.world.Next().Bad? { StripLive(applied.world.Spend(), applied.world.Next().removed); }
      } else {
        UndoWorld(w.live, applied.world);
        CalmRollBack(w.live, applied.world);
      }
    }
  }

  lemma StripLive(w: World, removed: Removed)
    ensures Strip(w, removed).live == w.live
  {
  }

  lemma SamePost(w: World, u: World)
    requires w.deletes.Some? && u.deletes == w.deletes && u.live == w.live && u.stage == w.stage
    ensures Post(u) == Post(w)
  {
  }

  lemma CalmRollBack(t: Tree, w: World)
    requires Undoable(t, w) && Whole(w) && w.faults == []
    ensures RollBack(w).Done?
  {
    if w.journal.Some? {
      forall r | r in w.journal.value ensures SafeRel(r.path) { assert Truthful(t, w.backup, r); }
      CalmReplay(w, w.journal.value);
    }
  }

  // ---------------------------------------------------------------------------------------------
  // What the faults can do
  // ---------------------------------------------------------------------------------------------

  /**
    A call that writes the state file, appends to the journal or changes a name of the live tree can fail or lose
    power without effect, and can lose power behind its effect; a journal line can also be there after a failure.
   */
  lemma StepsStop(w: World, phase: Phase, record: Record, path: Path, crash: bool)
    requires w.faults == []
    ensures exists f: Fault :: WriteState(w.(faults := [f]), phase) == Stopped(crash, w)
    ensures exists f: Fault :: WriteState(w.(faults := [f]), phase) == Stopped(true, w.(state := Some(phase)))
    ensures exists f: Fault :: Unlink(w.(faults := [f]), path) == Stopped(crash, w)
    ensures exists f: Fault :: Unlink(w.(faults := [f]), path) == Stopped(true, w.(live := w.live - {path}))
    ensures w.journal.Some? ==>
      && (exists f: Fault :: AppendRecord(w.(faults := [f]), record) == Stopped(crash, w))
      && var longer := w.(journal := Some(w.journal.value + [record]));
         exists f: Fault :: AppendRecord(w.(faults := [f]), record) == Stopped(crash, longer)
    ensures w.stage != [] ==>
      && (exists f: Fault :: RenameStaged(w.(faults := [f])) == Stopped(crash, w))
      && var moved := w.(live := w.live[w.stage[0].path := w.stage[0].bytes], stage := w.stage[1..]);
         exists f: Fault :: RenameStaged(w.(faults := [f])) == Stopped(true, moved)
  {
    var early, late := Bad(crash, false, Untouched, NOTHING), Bad(true, true, Untouched, NOTHING);
    assert WriteState(w.(faults := [early]), phase) == Stopped(crash, w);
    assert WriteState(w.(faults := [late]), phase) == Stopped(true, w.(state := Some(phase)));
    assert Unlink(w.(faults := [early]), path) == Stopped(crash, w);
    assert Unlink(w.(faults := [late]), path) == Stopped(true, w.(live := w.live - {path}));
    if w.journal.Some? {
      assert AppendRecord(w.(faults := [early]), record) == Stopped(crash, w);
      assert AppendRecord(w.(faults := [Bad(crash, true, Untouched, NOTHING)]), record)
          == Stopped(crash, w.(journal := Some(w.journal.value + [record])));
    }
    if w.stage != [] {
      assert RenameStaged(w.(faults := [early])) == Stopped(crash, w);
      assert RenameStaged(w.(faults := [late]))
          == Stopped(true, w.(live := w.live[w.stage[0].path := w.stage[0].bytes], stage := w.stage[1..]));
    }
  }

  /** A copy that does not finish can leave its target alone, without a file, or with anything in it. */
  lemma CopiesStop(w: World, path: Path, bytes: Bytes, torn: Bytes, crash: bool)
    requires w.faults == [] && path in w.live
    ensures exists f: Fault :: CopyToBackup(w.(faults := [f]), path) == Stopped(crash, w)
    ensures exists f: Fault :: CopyToBackup(w.(faults := [f]), path) == Stopped(crash, w.(backup := w.backup - {path}))
    ensures exists f: Fault ::
      CopyToBackup(w.(faults := [f]), path) == Stopped(crash, w.(backup := w.backup[path := torn]))
    ensures exists f: Fault :: CopyFromBackup(w.(faults := [f]), path) == Stopped(crash, w)
    ensures exists f: Fault :: CopyFromBackup(w.(faults := [f]), path) == Stopped(crash, w.(live := w.live - {path}))
    ensures exists f: Fault ::
      CopyFromBackup(w.(faults := [f]), path) == Stopped(crash, w.(live := w.live[path := torn]))
    ensures exists f: Fault :: StageFile(w.(faults := [f]), path, bytes) == Stopped(crash, w)
    ensures var others := Except(w.stage, {path});
      && (exists f: Fault :: StageFile(w.(faults := [f]), path, bytes) == Stopped(crash, w.(stage := others)))
      && exists f: Fault ::
           StageFile(w.(faults := [f]), path, bytes) == Stopped(crash, w.(stage := others + [Staged(path, torn)]))
  {
    var a, b, c := Bad(crash, false, Untouched, NOTHING), Bad(crash, false, Gone, NOTHING),
                   Bad(crash, false, Torn(torn), NOTHING);
    assert CopyToBackup(w.(faults := [a]), path) == Stopped(crash, w);
    assert CopyToBackup(w.(faults := [b]), path) == Stopped(crash, w.(backup := w.backup - {path}));
    assert CopyToBackup(w.(faults := [c]), path) == Stopped(crash, w.(backup := w.backup[path := torn]));
    assert CopyFromBackup(w.(faults := [a]), path) == Stopped(crash, w);
    assert CopyFromBackup(w.(faults := [b]), path) == Stopped(crash, w.(live := w.live - {path}));
    assert CopyFromBackup(w.(faults := [c]), path) == Stopped(crash, w.(live := w.live[path := torn]));
    var others := Except(w.stage, {path});
    assert StageFile(w.(faults := [a]), path, bytes) == Stopped(crash, w);
    assert StageFile(w.(faults := [b]), path, bytes) == Stopped(crash, w.(stage := others));
    assert StageFile(w.(faults := [c]), path, bytes) == Stopped(crash, w.(stage := others + [Staged(path, torn)]));
  }
}
