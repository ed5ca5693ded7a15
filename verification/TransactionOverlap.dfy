/**
  Atomicity needs the deleted and the installed paths to be disjoint, because rollback replays the
  journal forwards: a path that is first deleted (`R`) and then installed (`N`) is restored and then
  removed again. This module turns every such overlap into a run that loses a file, so disjointness
  is exactly the condition under which commit is atomic.
 */
module TransactionOverlap {
  import opened Common
  import opened Transaction
  import opened TransactionSafety

  /** Every journal line can be replayed. */
  ghost predicate Replayable(w: World) {
    w.journal.Some? && forall r | r in w.journal.value :: CanReplay(w, r)
  }

  ghost predicate CanReplay(w: World, r: Record) {
    SafeRel(r.path) && (r.Restore? ==> r.path in w.backup)
  }

  /** The last line about `p` removes it. */
  ghost predicate LastRemoves(records: seq<Record>, p: Path) {
    exists k :: 0 <= k < |records| && records[k] == Remove(p)
                && forall m | k < m < |records| :: records[m].path != p
  }

  lemma LastRemovesAppend(records: seq<Record>, r: Record, p: Path)
    requires if r.path == p then r.Remove? else LastRemoves(records, p)
    ensures LastRemoves(records + [r], p)
  {
    var after := records + [r];
    if r.path == p {
      assert after[|records|] == Remove(p);
    } else {
      var k :| 0 <= k < |records| && records[k] == Remove(p)
               && forall m | k < m < |records| :: records[m].path != p;
      assert after[k] == Remove(p);
      forall m | k < m < |after| ensures after[m].path != p {
        if m < |records| { assert after[m] == records[m]; }
      }
    }
  }

  /** A fault-free prepare_target consumes the tape down to `rest`. */
  lemma FinePrepare(w: World, path: Path, rest: seq<Fault>) returns (tape: seq<Fault>, u: World)
    requires Replayable(w) && SafeRel(path)
    ensures PrepareTarget(w.(faults := tape), path) == Done(u) && u.faults == rest
    ensures PrepareTarget(w.(faults := []), path) == Done(u.(faults := []))
    ensures Replayable(u) && u.state == w.state && u.deletes == w.deletes
    ensures u.journal.value == w.journal.value + [if path in w.live then Restore(path) else Remove(path)]
  {
    tape := (if path in w.live then [Fine, Fine, Fine, Fine] else [Fine, Fine, Fine]) + rest;
    u := PrepareTarget(w.(faults := tape), path).world;
    assert tape[1..] == (if path in w.live then [Fine, Fine, Fine] else [Fine, Fine]) + rest;
    assert tape[1..][1..] == (if path in w.live then [Fine, Fine] else [Fine]) + rest;
    forall r | r in u.journal.value ensures CanReplay(u, r) {
      if r in w.journal.value { assert CanReplay(w, r); }
    }
  }

  lemma FineDelete(w: World, path: Path, rest: seq<Fault>) returns (tape: seq<Fault>, u: World)
    requires Replayable(w) && SafeRel(path)
    ensures ApplyDelete(w.(faults := tape), path) == Done(u) && u.faults == rest
    ensures ApplyDelete(w.(faults := []), path) == Done(u.(faults := []))
    ensures Replayable(u) && u.state == w.state && u.deletes == w.deletes && u.stage == w.stage
    ensures u.live == w.live - {path}
  {
    if path in w.live {
      var inner, v := FinePrepare(w, path, [Fine] + rest);
      tape := [Fine] + inner;
      u := Unlink(v, path).world;
      assert tape[1..] == inner;
      forall r | r in u.journal.value ensures CanReplay(u, r) { assert CanReplay(v, r); }
    } else {
      tape := [Fine] + rest;
      u := w.(faults := rest);
      assert tape[1..] == rest;
      forall r | r in u.journal.value ensures CanReplay(u, r) { assert CanReplay(w, r); }
    }
  }

  lemma {:induction false} FineDeletes(w: World, paths: seq<Path>, rest: seq<Fault>)
    returns (tape: seq<Fault>, u: World)
    requires Replayable(w) && forall p | p in paths :: SafeRel(p)
    ensures ApplyDeletes(w.(faults := tape), paths) == Done(u) && u.faults == rest
    ensures ApplyDeletes(w.(faults := []), paths) == Done(u.(faults := []))
    ensures Replayable(u) && u.state == w.state && u.deletes == w.deletes && u.stage == w.stage
    ensures forall p | p in paths :: p !in u.live
    ensures u.live.Keys <= w.live.Keys
    decreases |paths|
  {
    if paths == [] {
      tape, u := rest, w.(faults := rest);
    } else {
      var _, v := FineDelete(w, paths[0], []);
      var later, last := FineDeletes(v, paths[1..], rest);
      var first, v' := FineDelete(w, paths[0], later);
      assert v == v'.(faults := []) && v' == v.(faults := later);
      tape, u := first, last;
    }
  }

  lemma FineStaged(w: World, rest: seq<Fault>) returns (tape: seq<Fault>, u: World)
    requires Replayable(w) && w.stage != [] && SafeRel(w.stage[0].path)
    ensures ApplyStaged(w.(faults := tape)) == Done(u) && u.faults == rest
    ensures ApplyStaged(w.(faults := [])) == Done(u.(faults := []))
    ensures Replayable(u) && u.state == w.state && u.deletes == w.deletes
    ensures var path := w.stage[0].path;
            u.journal.value == w.journal.value + [if path in w.live then Restore(path) else Remove(path)]
  {
    var v;
    tape, v := FinePrepare(w, w.stage[0].path, [Fine] + rest);
    u := RenameStaged(v).world;
    forall r | r in u.journal.value ensures CanReplay(u, r) { assert CanReplay(v, r); }
  }

  /** Staging a path that is not live makes its removal the last word about it in the journal. */
  lemma {:induction false} FineStage(w: World, p: Path, rest: seq<Fault>)
    returns (tape: seq<Fault>, u: World)
    requires Replayable(w) && Distinct(w.stage) && forall s | s in w.stage :: SafeRel(s.path)
    requires if p in StagePaths(w.stage) then p !in w.live else LastRemoves(w.journal.value, p)
    ensures ApplyStage(w.(faults := tape)) == Done(u) && u.faults == rest
    ensures Replayable(u) && u.state == w.state && LastRemoves(u.journal.value, p)
    decreases |w.stage|
  {
    if w.stage == [] {
      tape, u := rest, w.(faults := rest);
      forall r | r in u.journal.value ensures CanReplay(u, r) { assert CanReplay(w, r); }
    } else {
      StageHead(w.stage);
      var _, v := FineStaged(w, []);
      if w.stage[0].path == p || p !in StagePaths(w.stage) {
        LastRemovesAppend(w.journal.value,
          if w.stage[0].path in w.live then Restore(w.stage[0].path) else Remove(w.stage[0].path), p);
      }
      var later, last := FineStage(v, p, rest);
      var first, v' := FineStaged(w, later);
      assert v' == v.(faults := later);
      tape, u := first, last;
    }
  }

  /** Replaying the journal forwards without faults leaves out what its last line about it removes. */
  lemma {:induction false} ReplayLoses(w: World, records: seq<Record>, p: Path)
    requires w.faults == [] && forall r | r in records :: CanReplay(w, r)
    requires if p in PathsOf(records) then LastRemoves(records, p) else p !in w.live
    ensures var r := RollBackRecords(w, records); r.Done? && p !in r.world.live && r.world.faults == []
    decreases |records|
  {
    if records != [] {
      assert CanReplay(w, records[0]);
      var u := UndoRecord(w, records[0]).world;
      assert records == [records[0]] + records[1..];
      assert PathsOf(records) == {records[0].path} + PathsOf(records[1..]);
      forall r | r in records[1..] ensures CanReplay(u, r) { assert CanReplay(w, r); }
      if p in PathsOf(records) {
        var k :| 0 <= k < |records| && records[k] == Remove(p)
                 && forall m | k < m < |records| :: records[m].path != p;
        if k > 0 {
          assert records[1..][k - 1] == Remove(p) && records[1..][k - 1] in records[1..];
          assert forall m | k - 1 < m < |records[1..]| :: records[1..][m].path != p;
        } else {
          assert forall r | r in records[1..] :: r.path != p;
        }
      }
      ReplayLoses(u, records[1..], p);
    }
  }

  lemma LastRemovesMentions(records: seq<Record>, p: Path)
    requires LastRemoves(records, p)
    ensures p in PathsOf(records)
  {
    var k :| 0 <= k < |records| && records[k] == Remove(p);
    assert records[k] in records;
  }

  /** The weaker reading of atomicity: recovery that returns 0 ends in one of the two trees. */
  predicate Atomic(w: World, tape: seq<Fault>, tapes: seq<seq<Fault>>)
    requires w.deletes.Some? && tapes != []
  {
    var e := Attempts(Commit(w.(faults := tape)).world, tapes);
    e.Exit? && e.code == 0 ==> e.world.live == w.live || e.world.live == Post(w)
  }

  lemma FineFiles(w: World, p: Path, rest: seq<Fault>) returns (tape: seq<Fault>, u: World)
    requires Replayable(w) && w.deletes.Some? && Distinct(w.stage)
    requires forall p | p in w.deletes.value :: SafeRel(p)
    requires forall s | s in w.stage :: SafeRel(s.path)
    requires p in w.deletes.value && p in StagePaths(w.stage)
    ensures ApplyFiles(w.(faults := tape)) == Done(u) && u.faults == rest
    ensures Replayable(u) && u.state == w.state && LastRemoves(u.journal.value, p)
  {
    var _, v := FineDeletes(w, w.deletes.value, []);
    var later, applied := FineStage(v, p, rest);
    var first, v' := FineDeletes(w, w.deletes.value, later);
    assert v == v'.(faults := []) && v' == v.(faults := later);
    tape, u := first, applied;
  }

  /** A power loss just before "committed" is written, with everything applied. */
  lemma AppliedThenCrash(w: World, p: Path) returns (tape: seq<Fault>, u: World)
    requires Ready(w) && MARKER !in StagePaths(w.stage)
    requires p in w.deletes.value && p in w.live && p in StagePaths(w.stage)
    ensures Commit(w.(faults := tape)) == Crash(u)
    ensures Replayable(u) && u.state == Some(Applying) && LastRemoves(u.journal.value, p)
  {
    var started := w.(state := Some(Applying));
    var first, applied := FineFiles(started, p, [POWER_LOSS]);
    tape := [Fine] + first;
    assert tape[1..] == first;
    u := applied.(faults := []);
    assert Apply(started.(faults := first), Committed) == Stopped(true, u);
    forall r | r in u.journal.value ensures CanReplay(u, r) { assert CanReplay(applied, r); }
  }

  lemma OverlapLosesFile(w: World, p: Path) returns (tape: seq<Fault>)
    requires Ready(w) && MARKER !in StagePaths(w.stage)
    requires p in w.deletes.value && p in w.live && p in StagePaths(w.stage)
    ensures var e := Attempts(Commit(w.(faults := tape)).world, [[]]);
            e.Exit? && e.code == 0 && p !in e.world.live
    ensures !Atomic(w, tape, [[]])
  {
    var u;
    tape, u := AppliedThenCrash(w, p);
    LastRemovesMentions(u.journal.value, p);
    var calm := u.(faults := []);
    forall r | r in calm.journal.value ensures CanReplay(calm, r) { assert CanReplay(u, r); }
    ReplayLoses(calm, calm.journal.value, p);
    StageTreeKeys(w.stage);
  }

  /** Commit is atomic under every run of faults if and only if nothing deleted is also installed. */
  lemma AtomicityExactly(w: World)
    requires Ready(w) && MARKER !in StagePaths(w.stage)
    ensures (forall tape, tapes | tapes != [] :: Atomic(w, tape, tapes)) <==> Disjoint(w)
  {
    if Disjoint(w) {
      forall tape, tapes | tapes != [] ensures Atomic(w, tape, tapes) {
        Atomicity(w, tape, tapes);
      }
    } else {
      var p :| p in w.deletes.value && p in w.live && p in StagePaths(w.stage);
      var tape := OverlapLosesFile(w, p);
      assert !Atomic(w, tape, [[]]);
    }
  }
}
