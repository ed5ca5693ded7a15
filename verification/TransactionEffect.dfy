/**
  What upgrading or removing one package does to the live files: the owner lists that queue the
  deletions (txn_remove_stale, txn_remove_owned) composed with a completed commit.
 */
module TransactionEffect {
  import opened Common
  import opened Transaction
  import opened TransactionSafety
  import opened TransactionOutcome

  /** queue_delete: one checked line at the end of the delete list. */
  function QueueDelete(w: World, path: Path): (r: Result)
    ensures r.world.live == w.live && r.world.stage == w.stage && r.world.state == w.state
    ensures r.world.journal == w.journal
  {
    if !SafeRel(path) || w.deletes.None? then
      Stopped(false, w)
    else
      var opened' :- Probe(w);
      Done(opened'.(deletes := Some(opened'.deletes.value + [path])))
  }

  /** The lines of the old owner list that the new one no longer has. */
  function RemoveStale(w: World, before: seq<Path>, after: seq<Path>): (r: Result)
    ensures r.world.live == w.live && r.world.stage == w.stage && r.world.state == w.state
    ensures r.world.journal == w.journal
    decreases |before|
  {
    if before == [] then
      Done(w)
    else if before[0] == "" || before[0] in after then
      RemoveStale(w, before[1..], after)
    else
      var queued :- QueueDelete(w, before[0]);
      RemoveStale(queued, before[1..], after)
  }

  /** Every owned file, then the owner list itself. */
  function RemoveOwned(w: World, owned: seq<Path>, list: Path): (r: Result)
    ensures r.world.live == w.live && r.world.stage == w.stage && r.world.state == w.state
    ensures r.world.journal == w.journal
  {
    var queued :- RemoveStale(w, owned, []);
    QueueDelete(queued, list)
  }

  function Stale(before: seq<Path>, after: seq<Path>): set<Path> {
    set p | p in before && p !in after && p != ""
  }

  lemma {:induction false} StaleQueued(w: World, before: seq<Path>, after: seq<Path>)
    requires w.deletes.Some?
    ensures var r := RemoveStale(w, before, after);
            r.Done? ==> && r.world.deletes.Some?
                        && Nonempty(r.world.deletes.value) == Nonempty(w.deletes.value) + Stale(before, after)
    decreases |before|
  {
    if before != [] {
      assert before == [before[0]] + before[1..];
      assert Stale(before, after) == Stale([before[0]], after) + Stale(before[1..], after);
      if before[0] == "" || before[0] in after {
        StaleQueued(w, before[1..], after);
      } else {
        var queued := QueueDelete(w, before[0]);
        if queued.Done? {
          StaleQueued(queued.world, before[1..], after);
        }
      }
    }
  }

  /** When nothing fails, stale files are queued if and only if there is a list to queue them on and all are safe. */
  lemma {:induction false} StaleQueuedExactly(w: World, before: seq<Path>, after: seq<Path>)
    requires w.faults == []
    ensures RemoveStale(w, before, after).Done? <==>
      Stale(before, after) == {} || (w.deletes.Some? && forall p | p in Stale(before, after) :: SafeRel(p))
    ensures RemoveStale(w, before, after).Stopped? ==> !RemoveStale(w, before, after).crash
    decreases |before|
  {
    hide SafeRel;
    if before != [] {
      assert before == [before[0]] + before[1..];
      assert Stale(before, after) == Stale([before[0]], after) + Stale(before[1..], after);
      if before[0] == "" || before[0] in after {
        assert Stale([before[0]], after) == {};
        StaleQueuedExactly(w, before[1..], after);
      } else {
        assert before[0] in Stale([before[0]], after);
        var queued := QueueDelete(w, before[0]);
        if queued.Done? {
          StaleQueuedExactly(queued.world, before[1..], after);
        }
      }
    }
  }

  /**
    A commit that returns 0, as one does when nothing fails, leaves exactly the old tree, minus the deletions, plus
    the staged files.
   */
  lemma CommittedTree(w: World)
    requires Ready(w) && Disjoint(w) && MARKER !in StagePaths(w.stage)
    ensures var e := Commit(w);
      && (e.Exit? && e.code == 0 ==> e.world.live == Post(w))
      && (w.faults == [] ==> e.Exit? && e.code == 0)
  {
    CommitBinds(w);
    if w.faults == [] {
      CommitExactly(w);
    }
  }

  /**
    Upgrade of one package: `queued` is the world after txn_remove_stale and `ready` the world once
    the files are staged, in whatever order. Every path ends as the new package has it.
   */
  lemma UpgradeEffect(begun: World, before: seq<Path>, after: seq<Path>, ready: World, p: Path)
    requires begun.deletes == Some([])
    requires var r := RemoveStale(begun, before, after);
             r.Done? && ready.deletes == r.world.deletes && ready.live == begun.live
    requires Ready(ready) && MARKER !in StagePaths(ready.stage)
    requires forall s | s in ready.stage :: s.path in after || s.path !in before
    ensures ready.faults == [] ==> Commit(ready).Exit? && Commit(ready).code == 0
    ensures var e := Commit(ready);
            e.Exit? && e.code == 0 ==>
              if p in StagePaths(ready.stage) then
                p in e.world.live && Staged(p, e.world.live[p]) in ready.stage
              else if p in before && p !in after && p != "" then
                p !in e.world.live
              else
                Same(e.world.live, begun.live, p)
  {
    StaleQueued(begun, before, after);
    forall q | q in ready.deletes.value ensures q !in StagePaths(ready.stage) {
      assert q in Nonempty(ready.deletes.value);
      assert q in Stale(before, after);
    }
    CommittedTree(ready);
    StageTreeKeys(ready.stage);
    StageTreeFrom(ready.stage, p);
  }

  lemma {:induction false} StageTreeFrom(stage: seq<Staged>, p: Path)
    ensures p in StageTree(stage) ==> Staged(p, StageTree(stage)[p]) in stage
  {
    if stage != [] {
      StageTreeFrom(stage[1..], p);
    }
  }

  /** Removal of one package: its files and its owner list go, nothing else changes but staged metadata. */
  lemma RemovalEffect(begun: World, owned: seq<Path>, list: Path, ready: World, p: Path)
    requires begun.deletes == Some([])
    requires var r := RemoveOwned(begun, owned, list);
             r.Done? && ready.deletes == r.world.deletes && ready.live == begun.live
    requires Ready(ready) && MARKER !in StagePaths(ready.stage)
    requires forall s | s in ready.stage :: s.path !in owned && s.path != list
    ensures ready.faults == [] ==> Commit(ready).Exit? && Commit(ready).code == 0
    ensures var e := Commit(ready);
            e.Exit? && e.code == 0 ==>
              if p != "" && p in owned + [list] then p !in e.world.live
              else p in StagePaths(ready.stage) || Same(e.world.live, begun.live, p)
  {
    StaleQueued(begun, owned, []);
    var queued := RemoveStale(begun, owned, []).world;
    assert ready.deletes.value == queued.deletes.value + [list];
    assert Nonempty(ready.deletes.value) == Stale(owned, []) + {list};
    forall q | q in ready.deletes.value ensures q !in StagePaths(ready.stage) {
      assert q in Nonempty(ready.deletes.value);
    }
    CommittedTree(ready);
    StageTreeKeys(ready.stage);
  }
}
