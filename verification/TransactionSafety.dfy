/**
  What the transaction protocol keeps under every tape of faults: a crashed or failed commit can
  always be undone exactly, a committed one stays committed, and recovery may itself be interrupted
  any number of times.
 */
module TransactionSafety {
  import opened Common
  import opened Transaction

  // ---------------------------------------------------------------------------------------------
  // The undo invariant
  // ---------------------------------------------------------------------------------------------

  ghost predicate Same(a: Tree, b: Tree, p: Path) {
    if p in a then p in b && a[p] == b[p] else p !in b
  }

  function PathsOf(records: seq<Record>): set<Path> {
    set r | r in records :: r.path
  }

  function Journalled(w: World): set<Path> {
    if w.journal.None? then {} else PathsOf(w.journal.value)
  }

  /**
    One journal line tells the truth about the tree before the transaction. A cleanup that was cut off may have
    removed the backup, but never changes it.
   */
  ghost predicate Truthful(pre: Tree, backup: Tree, r: Record) {
    SafeRel(r.path) &&
    match r
    case Restore(p) => p in pre && (p in backup ==> backup[p] == pre[p])
    case Remove(p) => p !in pre
  }

  /** No path is journalled twice. */
  predicate Once(records: seq<Record>) {
    forall i, j | 0 <= i < j < |records| :: records[i].path != records[j].path
  }

  /** Every journal line is truthful, each path has one, and only journalled paths differ from `pre`. */
  ghost predicate Undoable(pre: Tree, w: World) {
    && (w.journal.Some? ==> Once(w.journal.value) && forall r | r in w.journal.value :: Truthful(pre, w.backup, r))
    && (forall p :: p !in Journalled(w) ==> Same(w.live, pre, p))
  }

  /** No backup that the journal names is missing. */
  predicate Whole(w: World) {
    w.journal.Some? ==> forall r | r in w.journal.value && r.Restore? :: r.path in w.backup
  }

  /** Everything but the live tree and the tape is the same. */
  ghost predicate SameLog(a: World, b: World) {
    a.journal == b.journal && a.backup == b.backup && a.state == b.state
    && a.stage == b.stage && a.deletes == b.deletes
  }

  lemma SameUndo(pre: Tree, w: World, u: World)
    requires Undoable(pre, w)
    requires u.journal == w.journal && u.backup == w.backup && u.live == w.live
    ensures Undoable(pre, u) && Journalled(u) == Journalled(w) && Whole(u) == Whole(w)
  {
  }

  lemma SameThere(pre: Tree, w: World, p: Path)
    requires Undoable(pre, w) && p !in Journalled(w)
    ensures Same(w.live, pre, p)
  {
  }

  lemma SameTree(a: Tree, b: Tree)
    requires forall p :: Same(a, b, p)
    ensures a == b
  {
    assert forall p :: p in a <==> p in b by {
      forall p ensures p in a <==> p in b { assert Same(a, b, p); }
    }
    forall p | p in a ensures a[p] == b[p] { assert Same(a, b, p); }
  }

  lemma UndoOne(pre: Tree, w: World, r: Record)
    requires Undoable(pre, w) && w.journal.Some? && r in w.journal.value
    ensures var u := UndoRecord(w, r);
            && Undoable(pre, u.world) && SameLog(w, u.world)
            && (forall p :: p != r.path ==> Same(u.world.live, w.live, p))
            && (u.Done? ==> Same(u.world.live, pre, r.path))
  {
    var u := UndoRecord(w, r);
    assert Truthful(pre, w.backup, r);
    assert r.path in Journalled(w);
    forall p ensures p != r.path ==> Same(u.world.live, w.live, p) {}
    forall p | p !in Journalled(u.world) ensures Same(u.world.live, pre, p) {
      assert Same(w.live, pre, p);
    }
  }

  /** Rolling back keeps the undo invariant at every fault, and a completed rollback is exact. */
  lemma {:induction false} UndoAll(pre: Tree, w: World, records: seq<Record>, settled: set<Path>)
    requires Undoable(pre, w) && w.journal.Some?
    requires forall r | r in records :: r in w.journal.value
    requires settled + PathsOf(records) == Journalled(w)
    requires forall p | p in settled :: Same(w.live, pre, p)
    ensures var r := RollBackRecords(w, records);
            && Undoable(pre, r.world) && SameLog(w, r.world)
            && (r.Done? ==> r.world.live == pre)
    decreases |records|
  {
    if records == [] {
      forall p ensures Same(w.live, pre, p) {}
      SameTree(w.live, pre);
    } else {
      assert Truthful(pre, w.backup, records[0]);
      hide Undoable, Truthful, UndoRecord, SafeRel, PathsOf;
      UndoOne(pre, w, records[0]);
      var u := UndoRecord(w, records[0]);
      assert SafeRel(records[0].path) by { TruthSafe(pre, w.backup, records[0]); }
      if u.Done? {
        PathsHead(records);
        OneMore(pre, w.live, u.world.live, records[0].path, settled);
        UndoAll(pre, u.world, records[1..], settled + {records[0].path});
      }
    }
  }

  lemma OneMore(pre: Tree, before: Tree, after: Tree, path: Path, settled: set<Path>)
    requires forall p | p in settled :: Same(before, pre, p)
    requires Same(after, pre, path) && forall p :: p != path ==> Same(after, before, p)
    ensures forall p | p in settled + {path} :: Same(after, pre, p)
  {
    forall p | p in settled + {path} ensures Same(after, pre, p) {
      if p != path { assert Same(before, pre, p) && Same(after, before, p); }
    }
  }

  lemma TruthSafe(pre: Tree, backup: Tree, r: Record)
    requires Truthful(pre, backup, r)
    ensures SafeRel(r.path)
  {
  }

  lemma PathsHead(records: seq<Record>)
    requires records != []
    ensures PathsOf(records) == {records[0].path} + PathsOf(records[1..])
  {
    assert records == [records[0]] + records[1..];
  }

  lemma UndoWorld(pre: Tree, w: World)
    requires Undoable(pre, w)
    ensures var r := RollBack(w);
            && Undoable(pre, r.world) && SameLog(w, r.world)
            && (r.Done? ==> r.world.live == pre)
  {
    if w.journal.None? {
      SameTree(w.live, pre);
    } else {
      UndoAll(pre, w, w.journal.value, {});
    }
  }

  // ---------------------------------------------------------------------------------------------
  // Applying
  // ---------------------------------------------------------------------------------------------

  /** Only the undo log and the tape may differ. */
  ghost predicate SameRest(a: World, b: World) {
    a.live == b.live && a.state == b.state && a.stage == b.stage && a.deletes == b.deletes
  }

  /** Backing a fresh path up and journalling it keeps the undo invariant, before it is touched. */
  lemma LogKeeps(pre: Tree, w: World, path: Path)
    requires Undoable(pre, w) && w.journal.Some? && SafeRel(path) && path !in Journalled(w)
    ensures var r := Log(w, path);
            && Undoable(pre, r.world) && SameRest(w, r.world) && r.world.journal.Some?
            && Journalled(w) <= Journalled(r.world) <= Journalled(w) + {path}
            && (r.Done? ==> path in Journalled(r.world)) && (Whole(w) ==> Whole(r.world))
  {
    var u := Log(w, path).world;
    assert Same(w.live, pre, path);
    forall r | r in w.journal.value
      ensures Truthful(pre, u.backup, r) && (r.path in w.backup ==> r.path in u.backup)
    {
      assert Truthful(pre, w.backup, r);
      assert r.path in Journalled(w);
    }
    if path in w.live {
      var c := CopyToBackup(w, path);
      if c.Done? {
        AppendedPaths(w.journal.value, Restore(path));
        assert Truthful(pre, u.backup, Restore(path));
      }
    } else {
      AppendedPaths(w.journal.value, Remove(path));
    }
    forall p | p !in Journalled(u) ensures Same(u.live, pre, p) {
      assert Same(w.live, pre, p);
    }
  }

  lemma AppendedPaths(records: seq<Record>, r: Record)
    ensures PathsOf(records + [r]) == PathsOf(records) + {r.path}
    ensures Once(records) && r.path !in PathsOf(records) ==> Once(records + [r])
  {
    assert r in records + [r];
    if r.path !in PathsOf(records) {
      forall i | 0 <= i < |records| ensures records[i].path != r.path { assert records[i] in records; }
    }
  }

  lemma PrepareKeeps(pre: Tree, w: World, path: Path)
    requires Undoable(pre, w) && w.journal.Some? && path !in Journalled(w)
    ensures var r := PrepareTarget(w, path);
            && Undoable(pre, r.world) && SameRest(w, r.world) && r.world.journal.Some?
            && Journalled(w) <= Journalled(r.world) <= Journalled(w) + {path}
            && (r.Done? ==> path in Journalled(r.world)) && (Whole(w) ==> Whole(r.world))
  {
    hide Undoable, Journalled, Log, SafeRel;
    var found := Probe(w);
    SameUndo(pre, w, found.world);
    if SafeRel(path) && found.Done? {
      LogKeeps(pre, found.world, path);
      var logged := Log(found.world, path);
      SameUndo(pre, logged.world, Probe(logged.world).world);
    }
  }

  /** A change to the live tree at a journalled path keeps the undo invariant. */
  lemma TouchJournalled(pre: Tree, w: World, u: World, path: Path)
    requires Undoable(pre, w) && path in Journalled(w)
    requires u.journal == w.journal && u.backup == w.backup
    requires forall p :: p != path ==> Same(u.live, w.live, p)
    ensures Undoable(pre, u) && Journalled(u) == Journalled(w) && Whole(u) == Whole(w)
  {
    forall p | p !in Journalled(u) ensures Same(u.live, pre, p) {
      assert Same(w.live, pre, p);
      assert Same(u.live, w.live, p);
    }
  }

  function Nonempty(paths: seq<Path>): set<Path> {
    set p | p in paths && p != ""
  }

  /** While deletions run, the journalled paths are exactly deleted ones. */
  ghost predicate OnlyDeletions(pre: Tree, w: World) {
    forall p | p in Journalled(w) :: p !in w.live && p in pre
  }

  lemma DeleteKeeps(pre: Tree, w: World, path: Path)
    requires Undoable(pre, w) && w.journal.Some? && OnlyDeletions(pre, w)
    ensures var r := ApplyDelete(w, path);
            && Undoable(pre, r.world) && r.world.journal.Some?
            && r.world.stage == w.stage && r.world.state == w.state && r.world.deletes == w.deletes
            && Journalled(r.world) <= Journalled(w) + Nonempty([path]) * pre.Keys && (Whole(w) ==> Whole(r.world))
            && (r.Done? ==> OnlyDeletions(pre, r.world)
                            && r.world.live == if path == "" then w.live else w.live - {path})
  {
    hide PrepareTarget, SafeRel, Undoable, Whole, Journalled;
    if path != "" && SafeRel(path) {
      var found := Probe(w);
      SameUndo(pre, w, found.world);
      if found.Done? {
        var f := found.world;
        if path in f.live {
          assert path !in Journalled(f);
          SameThere(pre, f, path);
          PrepareKeeps(pre, f, path);
          var prepared := PrepareTarget(f, path);
          if prepared.Done? {
            TouchJournalled(pre, prepared.world, Unlink(prepared.world, path).world, path);
          }
        }
      }
    }
  }

  lemma {:induction false} DeletesKeep(pre: Tree, w: World, paths: seq<Path>)
    requires Undoable(pre, w) && w.journal.Some? && OnlyDeletions(pre, w)
    ensures var r := ApplyDeletes(w, paths);
            && Undoable(pre, r.world) && r.world.journal.Some?
            && r.world.stage == w.stage && r.world.state == w.state && r.world.deletes == w.deletes
            && Journalled(r.world) <= Journalled(w) + Nonempty(paths) * pre.Keys && (Whole(w) ==> Whole(r.world))
            && (r.Done? ==> OnlyDeletions(pre, r.world) && r.world.live == w.live - Nonempty(paths))
    decreases |paths|
  {
    hide Undoable, OnlyDeletions, ApplyDelete, Journalled;
    if paths != [] {
      DeleteKeeps(pre, w, paths[0]);
      var first := ApplyDelete(w, paths[0]);
      assert paths == [paths[0]] + paths[1..];
      assert Nonempty(paths) == Nonempty([paths[0]]) + Nonempty(paths[1..]);
      if first.Done? {
        DeletesKeep(pre, first.world, paths[1..]);
      }
    }
  }

  function StageTree(stage: seq<Staged>): Tree {
    if stage == [] then map[] else map[stage[0].path := stage[0].bytes] + StageTree(stage[1..])
  }

  lemma {:induction false} StageTreeKeys(stage: seq<Staged>)
    ensures StageTree(stage).Keys == StagePaths(stage)
  {
    if stage != [] {
      StageTreeKeys(stage[1..]);
      assert stage == [stage[0]] + stage[1..];
    }
  }

  /** A directory lists each name once. */
  predicate Distinct(stage: seq<Staged>) {
    forall i, j | 0 <= i < j < |stage| :: stage[i].path != stage[j].path
  }

  lemma StageHead(stage: seq<Staged>)
    requires stage != [] && Distinct(stage)
    ensures Distinct(stage[1..])
    ensures StagePaths(stage) == {stage[0].path} + StagePaths(stage[1..])
    ensures stage[0].path !in StagePaths(stage[1..])
  {
    assert stage == [stage[0]] + stage[1..];
  }

  lemma StagedKeeps(pre: Tree, w: World)
    requires Undoable(pre, w) && w.journal.Some? && w.stage != []
    requires w.stage[0].path !in Journalled(w)
    ensures var r := ApplyStaged(w);
            && Undoable(pre, r.world) && r.world.journal.Some?
            && r.world.state == w.state && r.world.deletes == w.deletes
            && Journalled(r.world) <= Journalled(w) + {w.stage[0].path} && (Whole(w) ==> Whole(r.world))
            && (r.world.stage == w.stage || r.world.stage == w.stage[1..])
            && (r.Done? ==> Journalled(r.world) == Journalled(w) + {w.stage[0].path})
  {
    PrepareKeeps(pre, w, w.stage[0].path);
    var prepared := PrepareTarget(w, w.stage[0].path);
    if prepared.Done? {
      TouchJournalled(pre, prepared.world, RenameStaged(prepared.world).world, w.stage[0].path);
    }
  }

  lemma {:induction false} StageKeeps(pre: Tree, w: World)
    requires Undoable(pre, w) && w.journal.Some?
    requires Distinct(w.stage) && StagePaths(w.stage) !! Journalled(w)
    ensures var r := ApplyStage(w);
            && Undoable(pre, r.world)
            && r.world.state == w.state && r.world.deletes == w.deletes && (Whole(w) ==> Whole(r.world))
            && Distinct(r.world.stage)
            && (r.Done? ==> Journalled(r.world) == Journalled(w) + StagePaths(w.stage))
    decreases |w.stage|
  {
    if w.stage != [] {
      StageHead(w.stage);
      StagedKeeps(pre, w);
      var first := ApplyStaged(w);
      if first.Done? {
        StageKeeps(pre, first.world);
      }
    }
  }

  lemma PutThenMerge(a: Tree, s: Staged, b: Tree)
    ensures a[s.path := s.bytes] + b == a + (map[s.path := s.bytes] + b)
  {
  }

  lemma {:induction false} StageInstalls(w: World)
    requires w.journal.Some?
    ensures var r := ApplyStage(w); r.Done? ==> r.world.live == w.live + StageTree(w.stage)
    decreases |w.stage|
  {
    if w.stage != [] {
      var first := ApplyStaged(w);
      if first.Done? {
        StageInstalls(first.world);
        PutThenMerge(w.live, w.stage[0], StageTree(w.stage[1..]));
      }
    }
  }

  // ---------------------------------------------------------------------------------------------
  // Atomicity
  // ---------------------------------------------------------------------------------------------

  /** A begun transaction: nothing applied yet, and every queued path was checked by safe_rel. */
  predicate Ready(w: World) {
    && w.state == Some(Prepared) && w.journal == Some([]) && w.deletes.Some?
    && Distinct(w.stage) && MARKER !in w.live
    && (forall p | p in w.deletes.value :: SafeRel(p))
    && (forall s | s in w.stage :: SafeRel(s.path))
  }

  /** No file that the transaction deletes is also one that it installs. */
  predicate Disjoint(w: World)
    requires w.deletes.Some?
  {
    forall p | p in w.deletes.value && p in w.live :: p !in StagePaths(w.stage)
  }

  /** The tree that a completed commit leaves. */
  function Post(w: World): Tree
    requires w.deletes.Some?
  {
    (w.live - Nonempty(w.deletes.value)) + StageTree(w.stage)
  }

  predicate PastCommit(w: World) {
    w.state == None || w.state == Some(Committed)
  }

  /** Whatever interrupts recovery, it can only ever end in `t`. */
  ghost predicate Bound(t: Tree, w: World) {
    MARKER !in t &&
    match w.state
    case None => w.live == t
    case Some(Committed) => w.live == t
    case Some(PendingKernel) => false
    case _ => Undoable(t, w)
  }

  lemma FilesKeep(pre: Tree, w: World)
    requires w.live == pre && w.journal == Some([]) && w.deletes.Some?
    requires Distinct(w.stage) && Disjoint(w)
    ensures var r := ApplyFiles(w);
            && Undoable(pre, r.world) && r.world.state == w.state && Whole(r.world)
            && Distinct(r.world.stage)
            && (r.Done? ==> r.world.live == Post(w) && StagePaths(w.stage) <= Journalled(r.world))
  {
    DeletesKeep(pre, w, w.deletes.value);
    var deleted := ApplyDeletes(w, w.deletes.value);
    if deleted.Done? {
      StageKeeps(pre, deleted.world);
      StageInstalls(deleted.world);
    }
  }

  lemma ApplyKeeps(pre: Tree, w: World, last: Phase)
    requires w.live == pre && w.journal == Some([]) && w.deletes.Some?
    requires Distinct(w.stage) && Disjoint(w) && w.state != Some(last)
    ensures var r := Apply(w, last);
            && Undoable(pre, r.world) && Whole(r.world) && Distinct(r.world.stage)
            && (r.Stopped? && !r.crash ==> r.world.state == w.state)
            && if r.world.state == Some(last) then
                 r.world.live == Post(w) && StagePaths(w.stage) <= Journalled(r.world)
               else
                 !r.Done? && r.world.state == w.state
  {
    hide Undoable, Journalled, ApplyFiles, Post;
    FilesKeep(pre, w);
    var applied := ApplyFiles(w);
    if applied.Done? {
      SameUndo(pre, applied.world, WriteState(applied.world, last).world);
    }
  }

  /** Once everything is undone, whatever a cleanup leaves can still only be undone to the same tree. */
  lemma StripKeeps(t: Tree, w: World, removed: Removed)
    requires Undoable(t, w) && w.live == t
    ensures Undoable(t, Strip(w, removed)) && Strip(w, removed).live == t
  {
    var u := Strip(w, removed);
    if u.journal.Some? {
      forall r | r in u.journal.value ensures Truthful(t, u.backup, r) { assert Truthful(t, w.backup, r); }
    }
  }

  /** Undoing and cleaning up keeps the world bound, and completed it has restored the tree. */
  lemma UndoAndCleanBinds(t: Tree, w: World)
    requires Undoable(t, w) && w.state.Some?
    ensures var r := UndoAndClean(w);
            && Undoable(t, r.world) && (r.world.state == None || r.world.state == w.state)
            && (r.world.state == None ==> r.world.live == t)
            && (r.Done? ==> r.world == World(t, [], map[], None, None, None, r.world.faults))
            && (forall s | s in r.world.stage :: s in w.stage) && (Distinct(w.stage) ==> Distinct(r.world.stage))
  {
    hide Undoable, Journalled, RollBack;
    UndoWorld(t, w);
    var undone := RollBack(w);
    if undone.Done? {
      var u := undone.world.Spend();
      SameUndo(t, undone.world, u);
      Emptied(t, u.faults);
      match undone.world.Next()
      case Fine =>
      case Bad(_, _, _, removed) =>
        StripKeeps(t, u, removed);
        ExceptDistinct(u.stage, removed.stage);
    }
  }

  lemma Emptied(t: Tree, faults: seq<Fault>)
    ensures Undoable(t, World(t, [], map[], None, None, None, faults))
  {
  }

  lemma {:induction false} ExceptDistinct(stage: seq<Staged>, paths: set<Path>)
    ensures forall s | s in Except(stage, paths) :: s in stage && s.path !in paths
    ensures Distinct(stage) ==> Distinct(Except(stage, paths))
  {
    if stage != [] {
      ExceptDistinct(stage[1..], paths);
      var rest := Except(stage[1..], paths);
      if Distinct(stage) {
        StageHead(stage);
        forall s | s in rest ensures s.path != stage[0].path { assert s in stage[1..]; }
      }
    }
  }

  lemma RetireAndCleanBinds(w: World)
    ensures var r := RetireAndClean(w);
            && (r.world.state == w.state || r.world.state == None)
            && r.world.live - {MARKER} == w.live - {MARKER}
            && (r.world.state == None && w.state != None ==> MARKER !in r.world.live)
            && (r.world.journal == w.journal || r.world.journal == None)
            && (Distinct(w.stage) ==> Distinct(r.world.stage))
            && (r.Done? ==> r.world == World(w.live - {MARKER}, [], map[], None, None, None, r.world.faults))
  {
    var retired := Unlink(w, MARKER);
    assert (w.live - {MARKER}) - {MARKER} == w.live - {MARKER};
    if retired.Done? && retired.world.Next().Bad? {
      ExceptDistinct(w.stage, retired.world.Next().removed.stage);
    }
  }

  /** The world after "applying" was written, to the end of txn_commit. */
  lemma ConcludeBinds(w: World, started: World)
    requires Ready(w) && Disjoint(w) && MARKER !in StagePaths(w.stage)
    requires started == w.(state := Some(Applying), faults := started.faults)
    ensures var e := Conclude(Apply(started, Committed), false);
            && Bound(if PastCommit(e.world) then Post(w) else w.live, e.world)
            && (e.Exit? && e.code == 0 ==> PastCommit(e.world))
  {
    hide Undoable, Journalled, Apply, RollBack;
    StageTreeKeys(w.stage);
    ApplyKeeps(w.live, started, Committed);
    assert Post(started) == Post(w);
    UndoWorld(w.live, Apply(started, Committed).world);
  }

  /** Commit leaves a world bound to the new tree exactly when its state file says so. */
  lemma CommitBinds(w: World)
    requires Ready(w) && Disjoint(w) && MARKER !in StagePaths(w.stage)
    ensures var u := Commit(w).world;
            Bound(if PastCommit(u) then Post(w) else w.live, u)
    ensures var e := Commit(w); e.Exit? && e.code == 0 ==> PastCommit(e.world)
  {
    var started := WriteState(w, Applying);
    if started.Done? {
      ConcludeBinds(w, started.world);
    } else {
      SameUndo(w.live, w, started.world);
    }
  }

  /** Recovery never changes which tree a world is bound to; returning 0, it has reached that tree. */
  lemma RecoverBinds(t: Tree, w: World)
    requires Bound(t, w)
    ensures var e := Recover(w);
            && Bound(t, e.world)
            && (e.Exit? ==> e.code == 0 || e.code == -1)
            && (e.Exit? && e.code == 0 ==> e.world.live == t && e.world.state == None)
  {
    var read := Probe(w);
    SameUndoOrSettled(t, w, read.world.faults);
    if read.Done? && w.state.Some? {
      if w.state == Some(Committed) {
        assert w.live - {MARKER} == w.live;
      } else {
        UndoAndCleanBinds(t, read.world);
      }
    }
  }

  /** Recovery run again and again, each time under its own tape. */
  function Attempts(w: World, tapes: seq<seq<Fault>>): Exit
    requires tapes != []
    decreases |tapes|
  {
    var e := Recover(w.(faults := tapes[0]));
    if |tapes| == 1 then e else Attempts(e.world, tapes[1..])
  }

  lemma {:induction false} AttemptsBind(t: Tree, w: World, tapes: seq<seq<Fault>>)
    requires Bound(t, w) && tapes != []
    ensures var e := Attempts(w, tapes);
            Bound(t, e.world) && (e.Exit? && e.code == 0 ==> e.world.live == t)
    decreases |tapes|
  {
    SameUndoOrSettled(t, w, tapes[0]);
    RecoverBinds(t, w.(faults := tapes[0]));
    if |tapes| > 1 {
      AttemptsBind(t, Recover(w.(faults := tapes[0])).world, tapes[1..]);
    }
  }

  lemma SameUndoOrSettled(t: Tree, w: World, tape: seq<Fault>)
    requires Bound(t, w)
    ensures Bound(t, w.(faults := tape))
  {
    if !PastCommit(w) {
      SameUndo(t, w, w.(faults := tape));
    }
  }

  /**
    Atomicity. Commit under any faults, then recover any number of times under any faults. When
    recovery at last returns 0, the live files are the tree before the transaction or the committed
    tree, and they are the committed tree exactly when the state file had reached "committed".
   */
  lemma Atomicity(w: World, tape: seq<Fault>, tapes: seq<seq<Fault>>)
    requires Ready(w) && Disjoint(w) && MARKER !in StagePaths(w.stage) && tapes != []
    ensures var c := Commit(w.(faults := tape)).world;
            var e := Attempts(c, tapes);
            e.Exit? && e.code == 0 ==> e.world.live == if PastCommit(c) then Post(w) else w.live
  {
    var begun := w.(faults := tape);
    assert Post(begun) == Post(w);
    CommitBinds(begun);
    var c := Commit(begun).world;
    AttemptsBind(if PastCommit(c) then Post(w) else w.live, c, tapes);
  }
}
