/**
  transaction.c in its own form: operations that change the disk step by step, loop over the
  journal, the delete list and the stage directory, and leave early when a call fails. Every one is
  proved to do what the functions of module Transaction say, so what is proved about those holds of
  these loops.
 */
module TransactionDisk {
  import opened Common
  import opened Transaction
  import opened TransactionEffect
  import opened TransactionCleanup

  datatype Status = Ok | Failed | PowerLoss

  function Outcome(s: Status, w: World): Result {
    match s
    case Ok => Done(w)
    case Failed => Stopped(false, w)
    case PowerLoss => Stopped(true, w)
  }

  function Ended(s: Status, code: int, w: World): Exit {
    if s == PowerLoss then Crash(w) else Exit(code, w)
  }

  class Disk {
    var live: Tree
    var stage: seq<Staged>
    var backup: Tree
    var journal: Option<seq<Record>>
    var deletes: Option<seq<Path>>
    var state: Option<Phase>
    var faults: seq<Fault>

    ghost function View(): World
      reads this
    {
      World(live, stage, backup, journal, deletes, state, faults)
    }

    constructor (live: Tree, faults: seq<Fault>)
      ensures View() == World(live, [], map[], None, None, None, faults)
    {
      this.live, this.faults := live, faults;
      stage, backup, journal, deletes, state := [], map[], None, None, None;
    }

    method Take() returns (f: Fault)
      modifies this`faults
      ensures f == old(View()).Next() && View() == old(View()).Spend()
    {
      f := Fine;
      if faults != [] {
        f, faults := faults[0], faults[1..];
      }
    }

    method Touch() returns (s: Status)
      modifies this`faults
      ensures Outcome(s, View()) == Probe(old(View()))
    {
      var f := Take();
      s := if f.Fine? then Ok else if f.crash then PowerLoss else Failed;
    }

    method SetState(phase: Phase) returns (s: Status)
      modifies this`faults, this`state
      ensures Outcome(s, View()) == WriteState(old(View()), phase)
    {
      var f := Take();
      if f.Fine? || (f.crash && f.late) {
        state := Some(phase);
      }
      s := if f.Fine? then Ok else if f.crash then PowerLoss else Failed;
    }

    method Append(record: Record) returns (s: Status)
      requires journal.Some?
      modifies this`faults, this`journal
      ensures Outcome(s, View()) == AppendRecord(old(View()), record)
    {
      var f := Take();
      if f.Fine? || f.late {
        journal := Some(journal.value + [record]);
      }
      s := if f.Fine? then Ok else if f.crash then PowerLoss else Failed;
    }

    method BackUp(path: Path) returns (s: Status)
      requires path in live
      modifies this`faults, this`backup
      ensures Outcome(s, View()) == CopyToBackup(old(View()), path)
    {
      var f := Take();
      if f.Fine? {
        backup := backup[path := live[path]];
        s := Ok;
      } else {
        backup := Leave(backup, path, f.residue);
        s := if f.crash then PowerLoss else Failed;
      }
    }

    method BringBack(path: Path) returns (s: Status)
      modifies this`faults, this`live
      ensures Outcome(s, View()) == CopyFromBackup(old(View()), path)
    {
      var f := Take();
      if f.Bad? {
        live := Leave(live, path, f.residue);
        s := if f.crash then PowerLoss else Failed;
      } else if path in backup {
        live := live[path := backup[path]];
        s := Ok;
      } else {
        live := live - {path};
        s := Failed;
      }
    }

    method Drop(path: Path) returns (s: Status)
      modifies this`faults, this`live
      ensures Outcome(s, View()) == Unlink(old(View()), path)
    {
      var f := Take();
      if f.Fine? || (f.crash && f.late) {
        live := live - {path};
      }
      s := if f.Fine? then Ok else if f.crash then PowerLoss else Failed;
    }

    method Install() returns (s: Status)
      requires stage != []
      modifies this`faults, this`live, this`stage
      ensures Outcome(s, View()) == RenameStaged(old(View()))
    {
      var f := Take();
      if f.Fine? || (f.crash && f.late) {
        live, stage := live[stage[0].path := stage[0].bytes], stage[1..];
      }
      s := if f.Fine? then Ok else if f.crash then PowerLoss else Failed;
    }

    /** remove_tree: the entries one after the other, up to where it fails or loses power. */
    method RemoveTree() returns (s: Status)
      modifies this
      ensures Outcome(s, View()) == Cleanup(old(View()))
    {
      var f := Take();
      if f.Fine? {
        ExceptAll(stage, StagePaths(stage));
        UnlinkStage(StagePaths(stage));
        UnlinkBackups(backup.Keys);
        assert backup == map[];
        journal, deletes, state := None, None, None;
        return Ok;
      }
      UnlinkStage(f.removed.stage);
      UnlinkBackups(f.removed.backup);
      if f.removed.journal { journal := None; }
      if f.removed.deletes { deletes := None; }
      if f.removed.state { state := None; }
      s := if f.crash then PowerLoss else Failed;
    }

    method UnlinkStage(paths: set<Path>)
      modifies this`stage
      ensures stage == Except(old(stage), paths)
    {
      hide Except;
      var left := paths;
      ExceptNone(stage);
      assert paths - left == {};
      while left != {}
        invariant left <= paths && stage == Except(old(stage), paths - left)
        decreases |left|
      {
        var p :| p in left;
        ExceptTwice(old(stage), paths - left, {p});
        assert paths - left + {p} == paths - (left - {p});
        stage := Except(stage, {p});
        left := left - {p};
      }
      assert paths - {} == paths;
    }

    method UnlinkBackups(paths: set<Path>)
      modifies this`backup
      ensures backup == old(backup) - paths
    {
      var left := paths;
      while left != {}
        invariant left <= paths && backup == old(backup) - (paths - left)
        decreases |left|
      {
        var p :| p in left;
        backup := backup - {p};
        left := left - {p};
        assert old(backup) - (paths - left - {p}) - {p} == old(backup) - (paths - left);
      }
      assert paths - {} == paths;
    }

    method PrepareTarget(path: Path) returns (s: Status)
      requires journal.Some?
      modifies this`faults, this`backup, this`journal
      ensures Outcome(s, View()) == Transaction.PrepareTarget(old(View()), path)
      ensures journal.Some?
    {
      if !SafeRel(path) { return Failed; }
      s := Touch();
      if s != Ok { return; }
      if path in live {
        s := BackUp(path);
        if s != Ok { return; }
        s := Append(Restore(path));
      } else {
        s := Append(Remove(path));
      }
      if s != Ok { return; }
      s := Touch();
    }

    method ApplyDelete(path: Path) returns (s: Status)
      requires journal.Some?
      modifies this`faults, this`live, this`backup, this`journal
      ensures Outcome(s, View()) == Transaction.ApplyDelete(old(View()), path)
      ensures journal.Some?
    {
      if path == "" { return Ok; }
      if !SafeRel(path) { return Failed; }
      s := Touch();
      if s != Ok || path !in live { return; }
      s := PrepareTarget(path);
      if s != Ok { return; }
      s := Drop(path);
    }

    method ApplyDeletes() returns (s: Status)
      requires journal.Some? && deletes.Some?
      modifies this`faults, this`live, this`backup, this`journal
      ensures Outcome(s, View()) == Transaction.ApplyDeletes(old(View()), deletes.value)
      ensures journal.Some?
    {
      var paths, i := deletes.value, 0;
      s := Ok;
      while i < |paths|
        invariant 0 <= i <= |paths| && journal.Some? && s == Ok
        invariant Transaction.ApplyDeletes(View(), paths[i..]) == Transaction.ApplyDeletes(old(View()), paths)
      {
        assert paths[i..][1..] == paths[i + 1..];
        s := ApplyDelete(paths[i]);
        if s != Ok { return; }
        i := i + 1;
      }
    }

    method ApplyStage() returns (s: Status)
      requires journal.Some?
      modifies this`faults, this`live, this`backup, this`journal, this`stage
      ensures Outcome(s, View()) == Transaction.ApplyStage(old(View()))
      ensures journal.Some?
    {
      s := Ok;
      while stage != []
        invariant journal.Some? && s == Ok
        invariant Transaction.ApplyStage(View()) == Transaction.ApplyStage(old(View()))
        decreases |stage|
      {
        s := PrepareTarget(stage[0].path);
        if s != Ok { return; }
        s := Install();
        if s != Ok { return; }
      }
    }

    method RollBack() returns (s: Status)
      modifies this`faults, this`live
      ensures Outcome(s, View()) == Transaction.RollBack(old(View()))
    {
      s := Ok;
      if journal.None? { return; }
      var records, i := journal.value, 0;
      while i < |records|
        invariant 0 <= i <= |records| && s == Ok
        invariant RollBackRecords(View(), records[i..]) == RollBackRecords(old(View()), records)
      {
        assert records[i..][1..] == records[i + 1..];
        if !SafeRel(records[i].path) { return Failed; }
        match records[i] {
          case Remove(path) => s := Drop(path);
          case Restore(path) => s := BringBack(path);
        }
        if s != Ok { return; }
        i := i + 1;
      }
    }

    method Commit() returns (s: Status, code: int)
      modifies this
      ensures Ended(s, code, View()) == Transaction.Commit(old(View()))
    {
      hide Transaction.WriteState, Transaction.RollBack, Transaction.Cleanup, Transaction.ApplyDeletes;
      hide Transaction.ApplyStage;
      code := -1;
      var pending := exists i :: 0 <= i < |stage| && stage[i].path == MARKER;
      assert pending == (MARKER in StagePaths(stage));
      s := SetState(Applying);
      if s != Ok || journal.None? { return; }
      s := if deletes.None? then Failed else Ok;
      if s == Ok { s := ApplyDeletes(); }
      if s == Ok { s := ApplyStage(); }
      if s == Ok { s := SetState(if pending then PendingKernel else Committed); }
      if s == Failed {
        var undone := RollBack();
        if undone == PowerLoss { s := PowerLoss; }
      } else if s == Ok {
        code := 0;
        if !pending {
          var cleaned := RemoveTree();
          if cleaned == PowerLoss { s := PowerLoss; }
        }
      }
    }

    method Recover() returns (s: Status, code: int)
      modifies this
      ensures Ended(s, code, View()) == Transaction.Recover(old(View()))
    {
      code := -1;
      s := Touch();
      if s != Ok { return; }
      if state == None { return Ok, 0; }
      if state == Some(PendingKernel) { return Ok, 1; }
      if state != Some(Committed) {
        s := RollBack();
      } else {
        s := Drop(MARKER);
      }
      if s == Ok { s := RemoveTree(); }
      code := if s == Ok then 0 else -1;
    }

    method Finalize() returns (s: Status, code: int)
      modifies this
      ensures Ended(s, code, View()) == Transaction.Finalize(old(View()))
    {
      code := -1;
      s := Touch();
      if s != Ok || state != Some(PendingKernel) { return; }
      s := SetState(Committed);
      if s != Ok { return; }
      s := Drop(MARKER);
      if s != Ok { return; }
      s := RemoveTree();
      code := if s == Ok then 0 else -1;
    }

    method Rollback() returns (s: Status, code: int)
      modifies this
      ensures Ended(s, code, View()) == Transaction.Rollback(old(View()))
    {
      code := -1;
      s := RollBack();
      if s != Ok { return; }
      s := RemoveTree();
      code := if s == Ok then 0 else -1;
    }

    method QueueDelete(path: Path) returns (s: Status)
      modifies this`faults, this`deletes
      ensures Outcome(s, View()) == TransactionEffect.QueueDelete(old(View()), path)
    {
      if !SafeRel(path) || deletes.None? { return Failed; }
      s := Touch();
      if s != Ok { return; }
      deletes := Some(deletes.value + [path]);
    }

    method RemoveStale(before: seq<Path>, after: seq<Path>) returns (s: Status)
      modifies this`faults, this`deletes
      ensures Outcome(s, View()) == TransactionEffect.RemoveStale(old(View()), before, after)
    {
      var i := 0;
      s := Ok;
      while i < |before|
        invariant 0 <= i <= |before| && s == Ok
        invariant TransactionEffect.RemoveStale(View(), before[i..], after)
                  == TransactionEffect.RemoveStale(old(View()), before, after)
      {
        assert before[i..][1..] == before[i + 1..];
        if before[i] != "" && before[i] !in after {
          s := QueueDelete(before[i]);
          if s != Ok { return; }
        }
        i := i + 1;
      }
    }
  }
}
