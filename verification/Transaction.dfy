/**
  The crash-recoverable root-filesystem transaction of the herald package manager
  (user/bin/herald/transaction.c).

  A `World` is everything the protocol keeps on disk, regular files only, together with the tape of
  faults that the next system calls will meet. Each system call takes one fault off the tape: it may
  go through, fail, or be cut off by a power loss, and a cut-off call may or may not have taken
  effect. An empty tape means that nothing goes wrong, so a statement about every tape is a statement
  about a failure or a crash between any two steps.
 */
module Transaction {
  import opened Common

  type Path = string
  type Bytes = seq<bv8>
  type Tree = map<Path, Bytes>

  /** The live marker of a kernel update that still awaits its kernel (transaction.h). */
  const MARKER: Path := "etc/aegis/update" + "/pending"
  /** The installed-package database, staged by every transaction (db.h). */
  const DATABASE: Path := "etc/aegis/herald/db"

  /** The contents of the state file. */
  datatype Phase = Prepared | Applying | Committed | PendingKernel

  /** A journal line: `R` restores the backup of a path, `N` removes a path that was new. */
  datatype Record = Restore(path: Path) | Remove(path: Path)

  /** A file waiting under the stage directory, in the order the directory lists them. */
  datatype Staged = Staged(path: Path, bytes: Bytes)

  /** What an unfinished file copy leaves at its destination. */
  datatype Residue = Untouched | Gone | Torn(bytes: Bytes)

  /** The entries of the transaction directory that a removal which did not finish had come to. */
  datatype Removed = Removed(stage: set<Path>, backup: set<Path>, journal: bool, deletes: bool, state: bool)

  const NOTHING := Removed({}, {}, false, false, false)
  const POWER_LOSS := Bad(true, false, Untouched, NOTHING)

  /**
    What one system call meets; `late` says that the call had taken effect by then. A removed directory is the one
    thing that takes many calls here: `removed` is what they had come to, in whatever order.
   */
  datatype Fault = Fine | Bad(crash: bool, late: bool, residue: Residue, removed: Removed)

  datatype World = World(
    live: Tree,
    stage: seq<Staged>,
    backup: Tree,
    journal: Option<seq<Record>>,
    deletes: Option<seq<Path>>,
    state: Option<Phase>,
    faults: seq<Fault>)
  {
    function Next(): Fault {
      if faults == [] then Fine else faults[0]
    }

    function Spend(): World {
      if faults == [] then this else this.(faults := faults[1..])
    }
  }

  /** A C function that returned 0, or one that stopped: with -1, or because the power went. */
  datatype Result = Done(world: World) | Stopped(crash: bool, world: World) {
    predicate IsFailure() {
      Stopped?
    }

    function PropagateFailure(): Result
      requires Stopped?
    {
      this
    }

    function Extract(): World
      requires Done?
    {
      world
    }
  }

  /** How a whole operation ends for its caller. */
  datatype Exit = Exit(code: int, world: World) | Crash(world: World)

  // ---------------------------------------------------------------------------------------------
  // System calls
  // ---------------------------------------------------------------------------------------------

  /** A call that changes nothing modelled here (lstat, open, mkdir) and may fail. */
  function Probe(w: World): Result {
    match w.Next()
    case Fine => Done(w.Spend())
    case Bad(crash, _, _, _) => Stopped(crash, w.Spend())
  }

  /** Replaces the state file by writing a temporary and renaming it. */
  function WriteState(w: World, phase: Phase): Result {
    match w.Next()
    case Fine => Done(w.Spend().(state := Some(phase)))
    case Bad(crash, late, _, _) =>
      Stopped(crash, if crash && late then w.Spend().(state := Some(phase)) else w.Spend())
  }

  /** Appends one whole line to the journal, or none of it. */
  function AppendRecord(w: World, record: Record): Result
    requires w.journal.Some?
  {
    var appended := w.Spend().(journal := Some(w.journal.value + [record]));
    match w.Next()
    case Fine => Done(appended)
    case Bad(crash, late, _, _) => Stopped(crash, if late then appended else w.Spend())
  }

  /** What a file copy that did not finish leaves in `tree`. */
  function Leave(tree: Tree, path: Path, residue: Residue): Tree {
    match residue
    case Untouched => tree
    case Gone => tree - {path}
    case Torn(bytes) => tree[path := bytes]
  }

  /** copy_file from a live file to its backup. */
  function CopyToBackup(w: World, path: Path): Result
    requires path in w.live
  {
    match w.Next()
    case Fine => Done(w.Spend().(backup := w.backup[path := w.live[path]]))
    case Bad(crash, _, residue, _) => Stopped(crash, w.Spend().(backup := Leave(w.backup, path, residue)))
  }

  /** copy_file from a backup to the live file; without a source it fails and unlinks its target. */
  function CopyFromBackup(w: World, path: Path): Result {
    match w.Next()
    case Fine =>
      if path in w.backup then
        Done(w.Spend().(live := w.live[path := w.backup[path]]))
      else
        Stopped(false, w.Spend().(live := w.live - {path}))
    case Bad(crash, _, residue, _) => Stopped(crash, w.Spend().(live := Leave(w.live, path, residue)))
  }

  /** unlink of a live file; a missing file is no error to any of its callers. */
  function Unlink(w: World, path: Path): Result {
    var unlinked := w.Spend().(live := w.live - {path});
    match w.Next()
    case Fine => Done(unlinked)
    case Bad(crash, late, _, _) => Stopped(crash, if crash && late then unlinked else w.Spend())
  }

  /** rename of the first staged file onto its live path. */
  function RenameStaged(w: World): Result
    requires w.stage != []
  {
    var renamed := w.Spend().(live := w.live[w.stage[0].path := w.stage[0].bytes], stage := w.stage[1..]);
    match w.Next()
    case Fine => Done(renamed)
    case Bad(crash, late, _, _) => Stopped(crash, if crash && late then renamed else w.Spend())
  }

  /** The staged files at other paths. */
  function Except(stage: seq<Staged>, paths: set<Path>): seq<Staged> {
    if stage == [] then []
    else (if stage[0].path in paths then [] else [stage[0]]) + Except(stage[1..], paths)
  }

  /** The world without these entries of the transaction directory. */
  function Strip(w: World, removed: Removed): World {
    World(w.live, Except(w.stage, removed.stage), w.backup - removed.backup,
          if removed.journal then None else w.journal, if removed.deletes then None else w.deletes,
          if removed.state then None else w.state, w.faults)
  }

  /**
    remove_tree of the transaction directory. It unlinks entry by entry in the order the directory lists them, and
    may fail or lose power between any two.
   */
  function Cleanup(w: World): Result {
    match w.Next()
    case Fine => Done(World(w.live, [], map[], None, None, None, w.Spend().faults))
    case Bad(crash, _, _, removed) => Stopped(crash, Strip(w.Spend(), removed))
  }

  // ---------------------------------------------------------------------------------------------
  // safe_rel
  // ---------------------------------------------------------------------------------------------

  function FirstSlash(p: string): (n: nat)
    ensures n <= |p|
  {
    if p == "" || p[0] == '/' then 0 else 1 + FirstSlash(p[1..])
  }

  predicate SafeComponents(p: string)
    decreases |p|
  {
    p == "" ||
    var n := FirstSlash(p);
    n != 0 && p[..n] != "." && p[..n] != ".." && (n == |p| || SafeComponents(p[n + 1..]))
  }

  /** Relative, and free of empty, "." and ".." components. */
  predicate SafeRel(p: string) {
    p != "" && SafeComponents(p)
  }

  /** The part of `p` between two slashes, or between one and an end. */
  ghost predicate Component(p: string, i: int, j: int) {
    && 0 <= i <= j <= |p| && (i == 0 || p[i - 1] == '/') && (j == |p| || p[j] == '/')
    && forall k | i <= k < j :: p[k] != '/'
  }

  ghost predicate Plain(p: string, i: int, j: int)
    requires 0 <= i <= j <= |p|
  {
    p[i..j] != "." && p[i..j] != ".." && (i == j ==> i == |p|)
  }

  lemma {:induction false} SafeComponentsExactly(p: string)
    ensures SafeComponents(p) <==> forall i, j | Component(p, i, j) :: Plain(p, i, j)
    decreases |p|
  {
    if p != "" {
      var n := FirstSlash(p);
      FirstSlashFirst(p);
      assert Component(p, 0, n);
      if n < |p| {
        var rest := p[n + 1..];
        SafeComponentsExactly(rest);
        forall i, j | Component(p, i, j) && i != 0
          ensures Component(rest, i - n - 1, j - n - 1) && rest[i - n - 1..j - n - 1] == p[i..j]
        {
        }
        forall i, j | Component(rest, i, j)
          ensures Component(p, i + n + 1, j + n + 1) && p[i + n + 1..j + n + 1] == rest[i..j]
        {
        }
      }
    }
  }

  lemma {:induction false} FirstSlashFirst(p: string)
    ensures (forall k | 0 <= k < FirstSlash(p) :: p[k] != '/') && (FirstSlash(p) < |p| ==> p[FirstSlash(p)] == '/')
  {
    if p != "" && p[0] != '/' {
      FirstSlashFirst(p[1..]);
    }
  }

  /**
    A path passes safe_rel if and only if it is not empty and no component is ".", ".." or empty, but for the empty
    one after a slash at its very end; so it does not start with a slash either.
   */
  lemma SafeRelExactly(p: string)
    ensures SafeRel(p) <==> p != "" && forall i, j | Component(p, i, j) :: Plain(p, i, j)
    ensures SafeRel(p) ==> p[0] != '/'
  {
    SafeComponentsExactly(p);
    if p != "" && p[0] == '/' {
      assert Component(p, 0, 0);
    }
  }

  // ---------------------------------------------------------------------------------------------
  // Commit
  // ---------------------------------------------------------------------------------------------

  /** Backs an existing target up before journalling it; journals a missing one as new. */
  function Log(w: World, path: Path): (r: Result)
    requires w.journal.Some?
    ensures r.world.journal.Some? && r.world.stage == w.stage && r.world.live == w.live && r.world.state == w.state
  {
    if path in w.live then
      var copied :- CopyToBackup(w, path);
      AppendRecord(copied, Restore(path))
    else
      AppendRecord(w, Remove(path))
  }

  function PrepareTarget(w: World, path: Path): (r: Result)
    requires w.journal.Some?
    ensures r.world.journal.Some? && r.world.stage == w.stage && r.world.live == w.live && r.world.state == w.state
  {
    if !SafeRel(path) then
      Stopped(false, w)
    else
      var found :- Probe(w);
      var logged :- Log(found, path);
      Probe(logged)
  }

  function ApplyDelete(w: World, path: Path): (r: Result)
    requires w.journal.Some?
    ensures r.world.journal.Some? && r.world.state == w.state
  {
    if path == "" then
      Done(w)
    else if !SafeRel(path) then
      Stopped(false, w)
    else
      var found :- Probe(w);
      if path !in found.live then
        Done(found)
      else
        var prepared :- PrepareTarget(found, path);
        Unlink(prepared, path)
  }

  function ApplyDeletes(w: World, paths: seq<Path>): (r: Result)
    requires w.journal.Some?
    ensures r.world.journal.Some? && r.world.state == w.state
    decreases |paths|
  {
    if paths == [] then
      Done(w)
    else
      var first :- ApplyDelete(w, paths[0]);
      ApplyDeletes(first, paths[1..])
  }

  /** One regular file of the stage directory. */
  function ApplyStaged(w: World): (r: Result)
    requires w.journal.Some? && w.stage != []
    ensures r.world.journal.Some? && r.world.state == w.state
    ensures r.Done? ==> r.world.stage == w.stage[1..]
                        && r.world.live == w.live[w.stage[0].path := w.stage[0].bytes]
  {
    var prepared :- PrepareTarget(w, w.stage[0].path);
    RenameStaged(prepared)
  }

  function ApplyStage(w: World): (r: Result)
    requires w.journal.Some?
    ensures r.world.journal.Some? && r.world.state == w.state
    decreases |w.stage|
  {
    if w.stage == [] then
      Done(w)
    else
      var first :- ApplyStaged(w);
      ApplyStage(first)
  }

  /** The deletions, then the staged files. */
  function ApplyFiles(w: World): (r: Result)
    requires w.journal.Some? && w.deletes.Some?
    ensures r.world.journal.Some? && r.world.state == w.state
  {
    var deleted :- ApplyDeletes(w, w.deletes.value);
    ApplyStage(deleted)
  }

  /** Everything txn_commit does between writing "applying" and its final state. */
  function Apply(w: World, last: Phase): Result
    requires w.journal.Some?
  {
    if w.deletes.None? then
      Stopped(false, w)
    else
      var applied :- ApplyFiles(w);
      WriteState(applied, last)
  }

  function UndoRecord(w: World, r: Record): Result {
    match r
    case Remove(path) => Unlink(w, path)
    case Restore(path) => CopyFromBackup(w, path)
  }

  function RollBackRecords(w: World, records: seq<Record>): (r: Result)
    ensures r.world.state == w.state
    decreases |records|
  {
    if records == [] then
      Done(w)
    else if !SafeRel(records[0].path) then
      Stopped(false, w)
    else
      var undone :- UndoRecord(w, records[0]);
      RollBackRecords(undone, records[1..])
  }

  /** Replays the journal forwards; no journal means nothing to undo. */
  function RollBack(w: World): (r: Result)
    ensures r.world.state == w.state
  {
    if w.journal.None? then Done(w) else RollBackRecords(w, w.journal.value)
  }

  function StagePaths(stage: seq<Staged>): set<Path> {
    set s | s in stage :: s.path
  }

  /** The -1 or the power loss of a step, seen by the caller of the operation. */
  function Fail(r: Result): Exit
    requires r.Stopped?
  {
    if r.crash then Crash(r.world) else Exit(-1, r.world)
  }

  /** How txn_commit ends: a failure is rolled back, a plain commit is cleaned up. */
  function Conclude(r: Result, pending: bool): Exit {
    match r
    case Stopped(true, u) => Crash(u)
    case Stopped(false, u) =>
      var undone := RollBack(u);
      if undone.Stopped? && undone.crash then Crash(undone.world) else Exit(-1, undone.world)
    case Done(applied) =>
      if pending then
        Exit(0, applied)
      else
        var cleaned := Cleanup(applied);
        if cleaned.Stopped? && cleaned.crash then Crash(cleaned.world) else Exit(0, cleaned.world)
  }

  function Commit(w: World): Exit {
    var pending := MARKER in StagePaths(w.stage);
    match WriteState(w, Applying)
    case Stopped(crash, u) => Fail(Stopped(crash, u))
    case Done(started) =>
      if started.journal.None? then
        Exit(-1, started)
      else
        Conclude(Apply(started, if pending then PendingKernel else Committed), pending)
  }

  // ---------------------------------------------------------------------------------------------
  // Recovery, finalization, rollback, begin
  // ---------------------------------------------------------------------------------------------

  function Finish(r: Result): Exit {
    if r.Done? then Exit(0, r.world) else Fail(r)
  }

  function UndoAndClean(w: World): Result {
    var undone :- RollBack(w);
    Cleanup(undone)
  }

  function RetireAndClean(w: World): Result {
    var retired :- Unlink(w, MARKER);
    Cleanup(retired)
  }

  function Recover(w: World): Exit {
    match Probe(w)
    case Stopped(crash, u) => Fail(Stopped(crash, u))
    case Done(read) =>
      match read.state
      case None => Exit(0, read)
      case Some(PendingKernel) => Exit(1, read)
      case Some(Committed) => Finish(RetireAndClean(read))
      case _ => Finish(UndoAndClean(read))
  }

  function Finalize(w: World): Exit {
    match Probe(w)
    case Stopped(crash, u) => Fail(Stopped(crash, u))
    case Done(read) =>
      if read.state != Some(PendingKernel) then
        Exit(-1, read)
      else
        match WriteState(read, Committed)
        case Stopped(crash, u) => Fail(Stopped(crash, u))
        case Done(u) => Finish(RetireAndClean(u))
  }

  function Rollback(w: World): Exit {
    Finish(UndoAndClean(w))
  }

  /** A copy into the stage directory, replacing what was staged there. */
  function StageFile(w: World, path: Path, bytes: Bytes): (r: Result)
    ensures r.world == w.(stage := r.world.stage, faults := r.world.faults)
    ensures r.Done? ==> r.world.stage == Except(w.stage, {path}) + [Staged(path, bytes)]
  {
    match w.Next()
    case Fine => Done(w.Spend().(stage := Except(w.stage, {path}) + [Staged(path, bytes)]))
    case Bad(crash, _, residue, _) =>
      Stopped(crash,
        match residue
        case Untouched => w.Spend()
        case Gone => w.Spend().(stage := Except(w.stage, {path}))
        case Torn(torn) => w.Spend().(stage := Except(w.stage, {path}) + [Staged(path, torn)]))
  }

  /** The part of txn_begin that follows a recovery that returned 0. */
  function Prepare(w: World): (r: Result)
    ensures r.world.live == w.live && r.world.backup == w.backup
    ensures (r.world.state == w.state && r.world.journal == w.journal)
            || (r.world.state == Some(Prepared) && (r.world.journal == w.journal || r.world.journal == Some([])))
    ensures r.Done? ==>
      && r.world.state == Some(Prepared) && r.world.journal == Some([]) && r.world.deletes == Some([])
      && r.world.stage == if DATABASE in w.live then Except(w.stage, {DATABASE}) + [Staged(DATABASE, w.live[DATABASE])]
                          else w.stage
  {
    var dirs :- Probe(w);
    var stated :- WriteState(dirs, Prepared);
    var created :- Probe(stated);
    var journalled := created.(journal := Some([]));
    var created2 :- Probe(journalled);
    var listed := created2.(deletes := Some([]));
    if DATABASE in listed.live then StageFile(listed, DATABASE, listed.live[DATABASE]) else Probe(listed)
  }

  function Begin(w: World): Exit {
    match Recover(w)
    case Crash(u) => Crash(u)
    case Exit(code, u) => if code != 0 then Exit(-1, u) else Finish(Prepare(u))
  }
}
