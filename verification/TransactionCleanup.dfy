/**
  The removal of the transaction directory, entry by entry, and what recovery can do after one that was cut off:
  it succeeds exactly when no backup that the journal still names has been removed.
 */
module TransactionCleanup {
  import opened Common
  import opened Transaction
  import opened TransactionSafety

  // ---------------------------------------------------------------------------------------------
  // Entry by entry
  // ---------------------------------------------------------------------------------------------

  /** The files of the transaction directory. */
  datatype Entry = StageFileEntry(path: Path) | BackupEntry(path: Path) | JournalEntry | DeletesEntry | StateEntry

  function UnlinkEntry(w: World, e: Entry): World {
    match e
    case StageFileEntry(p) => w.(stage := Except(w.stage, {p}))
    case BackupEntry(p) => w.(backup := w.backup - {p})
    case JournalEntry => w.(journal := None)
    case DeletesEntry => w.(deletes := None)
    case StateEntry => w.(state := None)
  }

  function UnlinkAll(w: World, entries: seq<Entry>): World
    decreases |entries|
  {
    if entries == [] then w else UnlinkAll(UnlinkEntry(w, entries[0]), entries[1..])
  }

  /** All the entries in one. */
  function Together(entries: seq<Entry>): Removed {
    Removed(set e | e in entries && e.StageFileEntry? :: e.path, set e | e in entries && e.BackupEntry? :: e.path,
            JournalEntry in entries, DeletesEntry in entries, StateEntry in entries)
  }

  lemma {:induction false} ExceptTwice(stage: seq<Staged>, a: set<Path>, b: set<Path>)
    ensures Except(Except(stage, a), b) == Except(stage, a + b)
  {
    if stage != [] {
      ExceptTwice(stage[1..], a, b);
      var rest := Except(stage[1..], a);
      if stage[0].path !in a {
        assert Except(stage, a) == [stage[0]] + rest;
        assert ([stage[0]] + rest)[1..] == rest;
      } else {
        assert Except(stage, a) == rest && stage[0].path in a + b;
        assert Except(stage, a + b) == Except(stage[1..], a + b);
      }
    }
  }

  lemma {:induction false} ExceptNone(stage: seq<Staged>)
    ensures Except(stage, {}) == stage
  {
    if stage != [] {
      ExceptNone(stage[1..]);
    }
  }

  lemma {:induction false} ExceptKeeps(stage: seq<Staged>, paths: set<Path>)
    ensures forall s :: s in Except(stage, paths) <==> s in stage && s.path !in paths
  {
    if stage != [] {
      ExceptKeeps(stage[1..], paths);
      assert stage == [stage[0]] + stage[1..];
    }
  }

  lemma {:induction false} ExceptAll(stage: seq<Staged>, paths: set<Path>)
    requires StagePaths(stage) <= paths
    ensures Except(stage, paths) == []
  {
    if stage != [] {
      assert stage == [stage[0]] + stage[1..];
      ExceptAll(stage[1..], paths);
    }
  }

  lemma TogetherHead(entries: seq<Entry>)
    requires entries != []
    ensures var all, one, rest := Together(entries), Together([entries[0]]), Together(entries[1..]);
      all == Removed(one.stage + rest.stage, one.backup + rest.backup, one.journal || rest.journal,
                     one.deletes || rest.deletes, one.state || rest.state)
  {
    assert entries == [entries[0]] + entries[1..];
  }

  lemma OneEntry(w: World, e: Entry)
    ensures UnlinkEntry(w, e) == Strip(w, Together([e]))
  {
    ExceptNone(w.stage);
    assert w.backup - {} == w.backup;
    var t := Together([e]);
    assert t.stage == (if e.StageFileEntry? then {e.path} else {});
    assert t.backup == (if e.BackupEntry? then {e.path} else {});
  }

  lemma StripTwice(w: World, a: Removed, b: Removed)
    ensures Strip(Strip(w, a), b)
         == Strip(w, Removed(a.stage + b.stage, a.backup + b.backup, a.journal || b.journal, a.deletes || b.deletes,
                             a.state || b.state))
  {
    ExceptTwice(w.stage, a.stage, b.stage);
    assert w.backup - a.backup - b.backup == w.backup - (a.backup + b.backup);
  }

  /** Unlinking any entries one after the other, in any order, leaves the world without them. */
  lemma {:induction false} AnyOrder(w: World, entries: seq<Entry>)
    ensures UnlinkAll(w, entries) == Strip(w, Together(entries))
    decreases |entries|
  {
    hide UnlinkEntry, Strip, Together;
    if entries == [] {
      StripNothing(w);
    } else {
      OneEntry(w, entries[0]);
      AnyOrder(UnlinkEntry(w, entries[0]), entries[1..]);
      StripTwice(w, Together([entries[0]]), Together(entries[1..]));
      TogetherHead(entries);
    }
  }

  lemma StripNothing(w: World)
    ensures Strip(w, Together([])) == w
  {
    ExceptNone(w.stage);
    assert w.backup - {} == w.backup;
    assert Together([]) == NOTHING;
  }

  /** So a cleanup that is cut off after some of them, in whatever order it came to them, leaves what Cleanup says. */
  lemma CutOffAnywhere(w: World, entries: seq<Entry>, crash: bool)
    ensures exists f: Fault ::
      f.Bad? && Cleanup(w.(faults := [f])) == Stopped(crash, UnlinkAll(w.(faults := []), entries))
  {
    AnyOrder(w.(faults := []), entries);
    var f := Bad(crash, false, Untouched, Together(entries));
    assert Cleanup(w.(faults := [f])) == Stopped(crash, UnlinkAll(w.(faults := []), entries));
  }

  // ---------------------------------------------------------------------------------------------
  // When recovery succeeds
  // ---------------------------------------------------------------------------------------------

  ghost predicate Replayable(backup: Tree, records: seq<Record>) {
    forall r | r in records && r.Restore? :: r.path in backup
  }

  /** Under no tape is a journal replayed to its end past a missing backup. */
  lemma {:induction false} ReplayNeedsBackups(w: World, records: seq<Record>)
    ensures RollBackRecords(w, records).Done? ==> Replayable(w.backup, records)
    decreases |records|
  {
    if records != [] && SafeRel(records[0].path) && UndoRecord(w, records[0]).Done? {
      ReplayNeedsBackups(UndoRecord(w, records[0]).world, records[1..]);
      assert records == [records[0]] + records[1..];
    }
  }

  /** Without faults it is replayed exactly up to the first missing backup, whose file is then gone. */
  lemma {:induction false} CalmReplay(w: World, records: seq<Record>)
    requires w.faults == [] && forall r | r in records :: SafeRel(r.path)
    ensures var r := RollBackRecords(w, records);
      && r.world == w.(live := r.world.live) && (r.Done? <==> Replayable(w.backup, records))
      && (r.Stopped? ==>
            !r.crash && exists x :: x in records && x.Restore? && x.path !in w.backup && x.path !in r.world.live)
    decreases |records|
  {
    if records != [] {
      var u := UndoRecord(w, records[0]);
      assert records == [records[0]] + records[1..];
      if u.Done? {
        CalmReplay(u.world, records[1..]);
      } else {
        assert records[0] in records && records[0].Restore? && records[0].path !in w.backup;
      }
    }
  }

  lemma RollbackNeedsBackups(w: World)
    ensures RollBack(w).Done? ==> Whole(w)
  {
    if w.journal.Some? {
      ReplayNeedsBackups(w, w.journal.value);
    }
  }

  ghost predicate Succeeds(w: World, tape: seq<Fault>) {
    var e := Recover(w.(faults := tape));
    e.Exit? && e.code == 0
  }

  /**
    An interrupted transaction that is to be undone: recovery can succeed if and only if no journalled backup is
    missing, and then it does if nothing fails. Otherwise it never does, and a file of the old tree is lost.
   */
  lemma RecoverExactly(t: Tree, w: World)
    requires Undoable(t, w) && (w.state == Some(Prepared) || w.state == Some(Applying))
    ensures (exists tape :: Succeeds(w, tape)) <==> Whole(w)
    ensures var e := Recover(w.(faults := []));
      && e.Exit? && (e.code == 0 <==> Whole(w))
      && if Whole(w) then e.world == World(t, [], map[], None, None, None, [])
         else exists p :: p in t && p !in w.backup && p !in e.world.live && Restore(p) in w.journal.value
  {
    var calm := w.(faults := []);
    SameUndo(t, w, calm);
    CalmUndo(t, calm);
    if Whole(w) {
      assert Succeeds(w, []);
    }
    forall tape | Succeeds(w, tape) ensures Whole(w) {
      var read := Probe(w.(faults := tape));
      RollbackNeedsBackups(read.world);
    }
  }

  ghost predicate RollsBack(w: World, tape: seq<Fault>) {
    var e := Rollback(w.(faults := tape));
    e.Exit? && e.code == 0
  }

  /** The same of txn_rollback, run on a pending update. */
  lemma RollbackExactly(t: Tree, w: World)
    requires Undoable(t, w)
    ensures (exists tape :: RollsBack(w, tape)) <==> Whole(w)
    ensures var e := Rollback(w.(faults := []));
      && e.Exit? && (e.code == 0 <==> Whole(w))
      && if Whole(w) then e.world == World(t, [], map[], None, None, None, [])
         else exists p :: p in t && p !in w.backup && p !in e.world.live && Restore(p) in w.journal.value
  {
    SameUndo(t, w, w.(faults := []));
    CalmUndo(t, w.(faults := []));
    if Whole(w) {
      assert RollsBack(w, []);
    }
    forall tape | RollsBack(w, tape) ensures Whole(w) {
      RollbackNeedsBackups(w.(faults := tape));
    }
  }

  lemma CalmUndo(t: Tree, w: World)
    requires Undoable(t, w) && w.faults == []
    ensures var r := UndoAndClean(w);
      && (r.Done? <==> Whole(w)) && (r.Done? ==> r.world == World(t, [], map[], None, None, None, []))
      && (r.Stopped? ==>
            && !r.crash && w.journal.Some?
            && exists p :: p in t && p !in w.backup && p !in r.world.live && Restore(p) in w.journal.value)
  {
    UndoWorld(t, w);
    if w.journal.Some? {
      forall r | r in w.journal.value ensures SafeRel(r.path) { assert Truthful(t, w.backup, r); }
      CalmReplay(w, w.journal.value);
      var r := RollBack(w);
      if r.Stopped? {
        var x :| x in w.journal.value && x.Restore? && x.path !in w.backup && x.path !in r.world.live;
        assert Truthful(t, w.backup, x);
        assert x == Restore(x.path);
      }
    }
  }

  /** A commit itself, however it ends, leaves nothing that the next recovery cannot finish. */
  lemma CommitRecovers(w: World)
    requires Ready(w) && Disjoint(w) && MARKER !in StagePaths(w.stage)
    ensures var c := Commit(w).world;
      var e := Recover(c.(faults := []));
      e.Exit? && e.code == 0 && e.world.live == if PastCommit(c) then Post(w) else w.live
  {
    hide Undoable, Commit, Disjoint, Post;
    CommitBinds(w);
    CommitWhole(w);
    var c := Commit(w).world;
    if !PastCommit(c) {
      RecoverExactly(w.live, c);
    } else {
      assert c.live - {MARKER} == c.live;
    }
  }

  lemma CommitWhole(w: World)
    requires Ready(w) && Disjoint(w) && MARKER !in StagePaths(w.stage)
    ensures PastCommit(Commit(w).world) || Whole(Commit(w).world)
  {
    hide Undoable, Journalled, Apply, RollBack, Disjoint, Post;
    var started := WriteState(w, Applying);
    if started.Done? {
      assert Disjoint(started.world) by { SameDisjoint(w, started.world); }
      ApplyKeeps(w.live, started.world, Committed);
      UndoWorld(w.live, Apply(started.world, Committed).world);
    }
  }

  lemma SameDisjoint(w: World, u: World)
    requires w.deletes.Some? && u.deletes == w.deletes && u.live == w.live && u.stage == w.stage
    ensures Disjoint(u) == Disjoint(w)
  {
  }

  // ---------------------------------------------------------------------------------------------
  // The file that is lost
  // ---------------------------------------------------------------------------------------------

  function Fines(n: nat): seq<Fault> {
    if n == 0 then [] else [Fine] + Fines(n - 1)
  }

  lemma {:induction false} FineReplay(w: World, records: seq<Record>, rest: seq<Fault>)
    requires Replayable(w.backup, records) && forall r | r in records :: SafeRel(r.path)
    ensures var r := RollBackRecords(w.(faults := Fines(|records|) + rest), records);
      r.Done? && r.world == w.(live := r.world.live, faults := rest)
    decreases |records|
  {
    if records == [] {
      assert Fines(0) + rest == rest;
    } else {
      var tape := Fines(|records|) + rest;
      assert tape[0] == Fine && tape[1..] == Fines(|records| - 1) + rest;
      var u := UndoRecord(w.(faults := tape), records[0]);
      assert records[0] in records;
      FineReplay(u.world.(faults := []), records[1..], rest);
    }
  }

  /**
    A recovery that has undone everything and loses power in its cleanup, past the backup of `p` and before the
    journal and the state file: no later recovery succeeds, and the first one unlinks a file it had restored.
   */
  lemma CutOffLosesFile(t: Tree, w: World, p: Path) returns (tape: seq<Fault>)
    requires Undoable(t, w) && w.state == Some(Applying) && Whole(w)
    requires w.journal.Some? && Restore(p) in w.journal.value
    ensures var u := Recover(w.(faults := tape)).world;
      && u.live == t && u.state == w.state && p in t
      && (forall later :: !Succeeds(u, later))
      && exists q :: q in t && q !in Recover(u.(faults := [])).world.live
  {
    var records := w.journal.value;
    var cut := Bad(true, false, Untouched, Removed({}, {p}, false, false, false));
    forall r | r in records ensures SafeRel(r.path) { assert Truthful(t, w.backup, r); }
    FineReplay(w, records, [cut]);
    tape := [Fine] + (Fines(|records|) + [cut]);
    assert tape[1..] == Fines(|records|) + [cut];
    var undone := w.(faults := tape[1..]);
    SameUndo(t, w, undone);
    UndoWorld(t, undone);
    CutUndo(t, undone, cut);
    var u := Recover(w.(faults := tape)).world;
    assert Truthful(t, w.backup, Restore(p));
    RecoverExactly(t, u);
    forall later ensures !Succeeds(u, later) {
    }
  }

  lemma CutUndo(t: Tree, w: World, cut: Fault)
    requires Undoable(t, w) && cut.Bad? && cut.removed.stage == {} && !cut.removed.journal && !cut.removed.state
    requires RollBack(w).Done? && RollBack(w).world.faults == [cut] && RollBack(w).world.live == t
    requires SameLog(w, RollBack(w).world)
    ensures var u := UndoAndClean(w).world;
      && Undoable(t, u) && u.live == t && u.journal == w.journal && u.state == w.state
      && u.backup == w.backup - cut.removed.backup
  {
    var r := RollBack(w).world;
    UndoWorld(t, w);
    SameUndo(t, r, r.Spend());
    StripKeeps(t, r.Spend(), cut.removed);
  }
}
