# LoricaOS in Dafny

Models of the stateful cores of LoricaOS's user space, with proofs over all inputs, all fault runs or all
byte streams (`dafny verify dfyconfig.toml`).

The parts, each in the form of its source (objects and loops where the source changes things in place, with
the functions they are proved against beside them):

- **Transactions** (`Transaction*.dfy`): herald's crash-recoverable installation of files. A world is the live
  tree, the stage, the backups, the journal, the delete list and the state file, together with a tape of faults;
  every system call may fail or lose power before or after its effect, and the removal of the transaction
  directory after any of its entries. Recovery that returns 0 ends in the old or the new tree for all tapes, except
  exactly for transactions that delete and install the same live path: the journal is replayed forwards, so the
  later "new file" line unlinks what the earlier line restored. That recovery can return 0 at all needs the backups
  that the journal names: a cleanup that was cut off past one of them leaves a transaction that can never be undone.
  A cleanup that was cut off past the state file leaves its journal to the next transaction, which writes its own
  state before it empties the journal; both conditions are proved exact. `TransactionDisk` is the same protocol as
  methods that update the disk step by step.
- **Shell** (`Shell*.dfy`): stsh parses and runs in one pass over the tokens, and skips what it does not run with
  the same code. `ShellRun` is that executor as functions over a history of started commands and an oracle for
  what they do; `Shell` is the object that works on its fields, proved equal to them. `ShellGrammar` writes trees
  as text, `ShellMeaning` says what a tree means without any text, `ShellLaws` what that amounts to, and `ShellProof` shows that the text of every
  tree is executed as it means while two marks kept beside the state are clear: `intruded`, something was started
  while a break, continue or return was pending, and `astray`, the condition of a loop left one pending.
  `ShellOrderly` gives rules on the tree that keep them clear whatever the commands do, as long as only those three
  words leave and break and continue report 0: a command that may leave (a single command with one of those words,
  or a compound one that contains it) never stands before `&&` or `||` or in a condition, in a case arm only as its
  last command, and no `&&` or `||` follows a reserved word. `ShellExposed` shows what each rule is for. For chains
  they are exact if the words may leave with any status; `ShellBuiltins` has the exact rule for chains when they
  leave as the builtins do. For compound commands the rules err on the safe side: after a break the parser
  stands in the middle of text it has left and goes on from there, so `{ break; } && foo` is harmless by luck while `{ if a; then break; else { y; } && b; fi; }` runs `b`. An `if` whose taken branch is
  followed by another one reports what stepping over that one reports; the meaning follows the code here.
- **Arithmetic** (`Arithmetic*.dfy`): the `$((...))` evaluator on the text of any expression tree, and what its
  operators, numbers and variables are.
- **Kernel swap** (`BlockDevice`, `Fat16`, `KernelSwap`, `Directory`): lorica-update's raw block I/O, FAT16 geometry,
  chains and directories (Microsoft FAT specification) and two-slot swap. The device keeps every content it passes through, so a statement about
  its history is a statement about a power loss after any block write. A run after a power loss in the primary slot
  saves the torn primary over the last whole kernel.
- **Versions and dependencies** (`VersionOrder`, `VersionLaws`, `Resolver`): the version order, the choice of a candidate, and
  the install set with its in-place shift.
- **Terminal** (`Terminal*.dfy`): the emulator's ring of rows refines a list of lines. A control sequence
  (ECMA-48 section 5.4) whose first parameter is left empty loses it, `ESC [ ; 5 H` goes to row 5, and one with more
  than eight runs the rest into the eighth. `TerminalSequences` says what each sequence does, `TerminalText` everything
  else.
- **Drawing** (`LineDrawing`, `BoxBlur`, `BlurLaws`, `BlurSurface`, `Blending`, `BlendingLaws`): lines, box blur, blending. The
  blur's rounded-up reciprocal is safe exactly under a condition on the radius that fails at 154; the packed
  blend with alpha 0 darkens bright channels by one.
- **Supervisor** (`Supervisor`): vigil's service table under arbitrary deaths, fork failures and commands.
  Restarting a running service that is a oneshot, or has no restart budget, stops it.
- **Archives** (`Tar`, `TarLaws`): the ustar walker (POSIX.1-2017, XCU, pax) and its round trip.
- **Package database** (`Database`, `DatabaseText`, `DatabaseRuns`): the text file and its rewriting against a finite map. A zero
  byte in a line costs the line behind it too.

Where the code and its comments differ, the models follow the code: the comment on the blend says it rounds to
within one of the exact value, which holds, but full alpha does not reproduce a bright colour and alpha 0 does
not leave it alone (Blending.OpaqueBlend and Blending.InvisibleBlend say exactly when).

## Model

| member | source | states |
|---|---|---|
| TransactionSafety.LogKeeps | user/bin/herald/transaction.c:143-157 | backing up and journalling a fresh path keeps the world undoable at every fault, changes nothing else, and on success the path is journalled |
| TransactionSafety.PrepareKeeps | user/bin/herald/transaction.c:143-157 | the same for the whole of prepare_target, its existence test included |
| TransactionSafety.TouchJournalled | user/bin/herald/transaction.c:159-193 | changing the live tree at a journalled path, and only there, keeps it undoable |
| TransactionSafety.DeleteKeeps | user/bin/herald/transaction.c:159-168 | one deletion under any faults: undoable, journals at most that path, and on success removes exactly it |
| TransactionSafety.DeletesKeep | user/bin/herald/transaction.c:379-385 | the whole delete list under any faults: undoable, and on success the live tree minus the listed paths |
| TransactionSafety.StagedKeeps | user/bin/herald/transaction.c:170-193 | one staged file under any faults: undoable, and on success exactly that file installed |
| TransactionSafety.StageKeeps | user/bin/herald/transaction.c:170-193 | the whole stage directory under any faults stays undoable |
| TransactionSafety.StageInstalls | user/bin/herald/transaction.c:170-193 | on success every staged file is live with its bytes and nothing else has changed |
| TransactionSafety.FilesKeep | user/bin/herald/transaction.c:376-389 | deletions then installations: undoable throughout, and on success exactly the committed tree |
| TransactionSafety.UndoOne | user/bin/herald/transaction.c:204-215 | one journal record replayed: undoable at every fault, and on success its path is as before the transaction |
| TransactionSafety.UndoAll | user/bin/herald/transaction.c:195-220 | replaying any suffix of the journal ends exactly at the old tree or stays undoable |
| TransactionSafety.UndoWorld | user/bin/herald/transaction.c:195-220 | a completed rollback restores the exact old tree; an interrupted one can be run again |
| TransactionSafety.UndoAndCleanBinds | user/bin/herald/transaction.c:222-238 | rolling back and cleaning up, cut off between any two steps, keeps the world bound to the old tree and reaches it on success |
| TransactionSafety.StripKeeps | user/bin/herald/transaction.c:95-114 | once everything is undone, whatever entries a cleanup has removed, what is left can only be undone to the same tree |
| TransactionSafety.RetireAndCleanBinds | user/bin/herald/transaction.c:226-253 | dropping the marker and cleaning up, cut off between any two steps, keeps a decided world decided |
| TransactionSafety.ApplyKeeps | user/bin/herald/transaction.c:376-389 | from "applying" to "committed", every fault leaves a world bound to the old tree before the last write and to the new one after it |
| TransactionSafety.ConcludeBinds | user/bin/herald/transaction.c:388-399 | the end of txn_commit: a failure is rolled back, success is cleaned up, both keep the world bound |
| TransactionSafety.CommitBinds | user/bin/herald/transaction.c:370-399 | txn_commit under any faults leaves a world bound to the committed tree exactly when its state file says so, and to the old tree otherwise |
| TransactionSafety.RecoverBinds | user/bin/herald/transaction.c:222-238 | txn_recover under any faults never changes which tree a world is bound to; when it returns 0 that tree is live |
| TransactionSafety.AttemptsBind | user/bin/herald/transaction.c:222-238 | the same for any number of recoveries in a row, each interrupted anywhere |
| TransactionSafety.Atomicity | user/bin/herald/transaction.c:143-399 | for every stage set and disjoint delete set, every fault run of the commit and every sequence of interrupted recoveries: the recovery that returns 0 leaves exactly the old or exactly the committed tree, the latter exactly when the state file had reached "committed" |
| TransactionOverlap.FineDelete | user/bin/herald/transaction.c:159-168 | a deletion without faults, step by step |
| TransactionOverlap.FineStage | user/bin/herald/transaction.c:170-193 | without faults, staging a path that is not live makes its removal the last journal line about it |
| TransactionOverlap.ReplayLoses | user/bin/herald/transaction.c:195-220 | replaying a journal forwards leaves out any path whose last line removes it |
| TransactionOverlap.AppliedThenCrash | user/bin/herald/transaction.c:376-389 | for every overlapping transaction there is a fault run that loses power with everything applied and nothing committed |
| TransactionOverlap.OverlapLosesFile | user/bin/herald/transaction.c:195-220 | for every path both deleted and staged, recovery after that run returns 0 and the file is gone: neither the old nor the new tree |
| TransactionOverlap.AtomicityExactly | user/bin/herald/transaction.c:143-399 | a transaction is atomic under all fault runs if and only if no live path is both deleted and staged |
| TransactionLifecycle.RecoverKeeps | user/bin/herald/transaction.c:222-238 | recovery under any faults keeps the lifecycle invariant |
| TransactionLifecycle.RollbackKeeps | user/bin/herald/transaction.c:255-259 | rollback under any faults keeps it, and on success the old tree is back without a marker |
| TransactionLifecycle.FinalizeKeeps | user/bin/herald/transaction.c:240-253 | finalize under any faults keeps it: still pending with the same files, or decided |
| TransactionLifecycle.PendingCommitKeeps | user/bin/herald/transaction.c:370-399 | a commit with the marker staged ends pending and still undoable, or bound to be undone |
| TransactionLifecycle.PlainCommitKeeps | user/bin/herald/transaction.c:370-399 | a commit without the marker keeps the lifecycle invariant |
| TransactionLifecycle.CallKeeps | user/bin/herald/transaction.c:222-399 | every call under every fault tape, cut off in its cleanup or not, keeps the lifecycle invariant |
| TransactionLifecycle.EveryReachableWorld | user/bin/herald/transaction.c:222-399 | from an idle system every history of calls and faults, in which no transaction begins over a harmful left-over journal, stays inside the invariant, with the tree that the history decided, a fold over its calls |
| TransactionLifecycle.MarkerExplained | user/bin/herald/transaction.c:222-272 | in every reachable state a live marker means a pending update, a decided one in cleanup, or an interrupted commit whose journal removes it |
| TransactionLifecycle.BeginRefuses | user/bin/herald/transaction.c:261-272 | while a kernel is pending txn_begin refuses and touches nothing |
| TransactionLifecycle.RollbackRestores | user/bin/herald/transaction.c:255-259 | a rollback rerun under any faults until it returns 0 restores the pre-update files, without marker and without state |
| TransactionLifecycle.FinalizeCompletes | user/bin/herald/transaction.c:240-253 | a crash anywhere in finalize leaves the update pending and its files alone, or a later recovery, itself interrupted at will, ends with the new files and no marker |
| TransactionLifecycle.PendingHistory | user/bin/herald/transaction.c:222-259 | while an update stays pending, whatever is called and fails, it can be undone, and without a rollback its files stay as they are |
| TransactionLifecycle.FinalizeDecidesUpdate | user/bin/herald/transaction.c:240-399 | after the commit of a kernel update, every history without a rollback leaves exactly the update in place, and finalizing decides exactly it, at once or through interrupted recoveries |
| TransactionLifecycle.RollbackAfterHistory | user/bin/herald/transaction.c:255-399 | after any history, interrupted rollbacks included, a rollback that returns 0 restores the tree from before the commit |
| TransactionLifecycle.UpdateUndone | user/bin/herald/transaction.c:255-399 | end to end: it restores the tree that the history before the commit had decided |
| TransactionLifecycle.DecidedRecovers | user/bin/herald/transaction.c:222-238 | a decided update is finished by recovery however often it is interrupted |
| TransactionLifecycle.FinalizeAfterInterruptedRollback | user/bin/herald/transaction.c:240-259 | false after a rollback attempt: if it lost power past its first restored file and that file and another were changed, finalizing decides a tree that is neither the update nor the one before it |
| TransactionLifecycle.BeginExactly | user/bin/herald/transaction.c:222-272 | txn_begin where a cleanup took the state file: whatever cuts it off, a recovery without faults then succeeds and leaves the files alone, if and only if the journal left there says what the files are already |
| TransactionLifecycle.DecidedUpdateTakenBack | user/bin/herald/transaction.c:222-272 | two power losses take back a decided update that replaced a file: one in its cleanup, one in the next txn_begin between the state file and the journal |
| TransactionLifecycle.BeginStages | user/bin/herald/transaction.c:261-272 | txn_begin keeps what a cleanup left staged: the transaction starts with at most the database staged if and only if nothing else was left |
| TransactionCleanup.AnyOrder | user/bin/herald/transaction.c:95-114 | unlinking any entries of the transaction directory one after the other, in any order, leaves the world without them |
| TransactionCleanup.CutOffAnywhere | user/bin/herald/transaction.c:95-114 | so a cleanup cut off after any of them is one that the faults of the model include |
| TransactionCleanup.RecoverExactly | user/bin/herald/transaction.c:222-238 | a transaction to be undone: recovery can return 0 if and only if no backup that the journal names is missing, and then does without faults; otherwise never, and it unlinks a file of the old tree |
| TransactionCleanup.RollbackExactly | user/bin/herald/transaction.c:255-259 | the same of txn_rollback |
| TransactionCleanup.CommitRecovers | user/bin/herald/transaction.c:222-399 | a commit, however it is cut off, leaves something that the next recovery without faults finishes, at the tree the state file says |
| TransactionCleanup.CutOffLosesFile | user/bin/herald/transaction.c:95-114 | a recovery that loses power in its cleanup past a backup and before journal and state file: no later recovery succeeds, and the next one unlinks a restored file |
| Transaction.SafeRelExactly | user/bin/herald/transaction.c:43-56 | a path passes safe_rel if and only if it is not empty and no component is ".", ".." or empty, but for an empty one behind a slash at its end |
| TransactionOutcome.CommitAnswers | user/bin/herald/transaction.c:370-399 | under every tape, a commit that returns answers 0 if and only if the state file has its final word: "committed" or gone, or "pending-kernel" with the marker staged; else -1 |
| TransactionOutcome.CommitExactly | user/bin/herald/transaction.c:370-399 | a commit that nothing disturbs answers 0 if and only if journal and delete list are there and every queued path is safe, and leaves exactly the old tree, minus the deletions, plus the staged files, and nothing of the transaction unless a kernel is pending |
| TransactionOutcome.OneFailureUndone | user/bin/herald/transaction.c:370-399 | a commit in which one call fails, whichever it is, answers 0 with the new tree or -1 with exactly the old one, before any recovery |
| TransactionOutcome.RecoverCalmly | user/bin/herald/transaction.c:222-238 | recovery that nothing disturbs, by what the state file says: nothing to do, 1 for a pending kernel, a decided update finished |
| TransactionOutcome.FinalizeExactly | user/bin/herald/transaction.c:240-253 | finalizing that nothing disturbs answers 0 if and only if a kernel is pending, and leaves any other world alone |
| TransactionOutcome.BeginCalmly | user/bin/herald/transaction.c:261-272 | a transaction that nothing disturbs begins if and only if recovery answers 0, with empty journal and delete list and the database staged |
| TransactionEffect.StaleQueued | user/bin/herald/transaction.c:331-349 | the delete list after txn_remove_stale is exactly the non-empty lines of the old owner list that the new one lacks |
| TransactionOutcome.StepsStop | user/bin/herald/transaction.c:116-193 | the faults of the model include, for every step on state file, journal and live names, a failure and a power loss without effect and a power loss behind it |
| TransactionOutcome.CopiesStop | user/bin/herald/transaction.c:66-93 | and for every copy a target left alone, removed or torn |
| TransactionEffect.StaleQueuedExactly | user/bin/herald/transaction.c:331-349 | when nothing fails, the stale files are queued if and only if there are none, or there is a list and all are safe |
| TransactionEffect.CommittedTree | user/bin/herald/transaction.c:370-399 | a commit that returns 0, as every one does when nothing fails, leaves exactly the old tree, minus the deletions, plus the staged files |
| TransactionEffect.UpgradeEffect | user/bin/herald/transaction.c:331-399 | the upgrade of one package commits when nothing fails, and after a commit every path is the staged file, gone if only the old owner list had it, or as before |
| TransactionEffect.RemovalEffect | user/bin/herald/transaction.c:351-399 | the removal of one package commits when nothing fails, and after a commit every owned file and the owner list are gone and nothing else changed but staged metadata |
| TransactionDisk.Disk.SetState | user/bin/herald/transaction.c:116-133 | write_state as one step, which its rename makes of it: a failure or power loss leaves the old state or the new one: the new disk and the result are what the function of the same name in the value model says |
| TransactionDisk.Disk.Append | user/bin/herald/transaction.c:135-141 | one journal line: the new disk and the result are what the function of the same name in the value model says |
| TransactionDisk.Disk.BackUp | user/bin/herald/transaction.c:66-93 | the copy into the backup tree: the new disk and the result are what the function of the same name in the value model says |
| TransactionDisk.Disk.BringBack | user/bin/herald/transaction.c:66-93 | the copy back: the new disk and the result are what the function of the same name in the value model says |
| TransactionDisk.Disk.Drop | user/bin/herald/transaction.c:159-168 | an unlink: the new disk and the result are what the function of the same name in the value model says |
| TransactionDisk.Disk.Install | user/bin/herald/transaction.c:170-193 | the rename of a staged file over the live one: the new disk and the result are what the function of the same name in the value model says |
| TransactionDisk.Disk.RemoveTree | user/bin/herald/transaction.c:95-114 | the loops that unlink the entries of the transaction directory: the new disk and the result are what the function of the same name in the value model says |
| TransactionDisk.Disk.PrepareTarget | user/bin/herald/transaction.c:143-157 | prepare_target: the new disk and the result are what the function of the same name in the value model says |
| TransactionDisk.Disk.ApplyDelete | user/bin/herald/transaction.c:159-168 | apply_delete: the new disk and the result are what the function of the same name in the value model says |
| TransactionDisk.Disk.ApplyDeletes | user/bin/herald/transaction.c:379-385 | the loop over the delete list: the new disk and the result are what the function of the same name in the value model says |
| TransactionDisk.Disk.ApplyStage | user/bin/herald/transaction.c:170-193 | the loop over the stage directory: the new disk and the result are what the function of the same name in the value model says |
| TransactionDisk.Disk.RollBack | user/bin/herald/transaction.c:195-220 | the loop over the journal: the new disk and the result are what the function of the same name in the value model says |
| TransactionDisk.Disk.Commit | user/bin/herald/transaction.c:370-399 | txn_commit: the new disk and the result are what the function of the same name in the value model says |
| TransactionDisk.Disk.Recover | user/bin/herald/transaction.c:222-238 | txn_recover: the new disk and the result are what the function of the same name in the value model says |
| TransactionDisk.Disk.Finalize | user/bin/herald/transaction.c:240-253 | txn_finalize: the new disk and the result are what the function of the same name in the value model says |
| TransactionDisk.Disk.Rollback | user/bin/herald/transaction.c:255-259 | txn_rollback: the new disk and the result are what the function of the same name in the value model says |
| TransactionDisk.Disk.QueueDelete | user/bin/herald/transaction.c:317-329 | queue_delete: the new disk and the result are what the function of the same name in the value model says |
| TransactionDisk.Disk.RemoveStale | user/bin/herald/transaction.c:331-349 | txn_remove_stale: the new disk and the result are what the function of the same name in the value model says |
| ShellRun.RunSimple | user/bin/stsh/run.c:613-712 | a simple command stops behind its words and redirections, and when it is skipped, or a flow is pending, changes nothing |
| ShellRun.RunStages | user/bin/stsh/run.c:940-1008 | so does a pipeline of several stages |
| ShellRun.RunPipeline | user/bin/stsh/run.c:940-1008 | a pipeline stops where the skipping parser does if nothing is left pending; skipping keeps the state, and a pending flow stands until something is started on top of it |
| ShellRun.RunAndOr | user/bin/stsh/run.c:1011-1024 | the same for an and-or list with its short circuits |
| ShellRun.RunList | user/bin/stsh/run.c:1027-1053 | the same for a list |
| ShellRun.PassTo | user/bin/stsh/run.c:716-723 | skip_to runs nothing and stops where the skipping parser does, whatever ran before |
| ShellRun.RunCommand | user/bin/stsh/run.c:918-937 | the same for every compound command and definition |
| ShellRun.Define | user/bin/stsh/run.c:888-915 | a definition stops behind its body whether it is run or skipped and whatever ran before, and changes nothing but functions and status |
| ShellRun.RunSubshell | user/bin/stsh/run.c:871-884 | the parent only skips the body and stops behind its parenthesis, whatever ran before |
| ShellRun.RunIf | user/bin/stsh/run.c:725-745 | an if with its elif branches stops behind its fi whichever branch is taken, and once one has been the others change nothing |
| ShellRun.RunElse | user/bin/stsh/run.c:739-744 | the same for the else branch and its fi |
| ShellRun.RunFor | user/bin/stsh/run.c:747-785 | a for that leaves nothing pending stops behind its done after any number of passes, even if something was run out of turn in them |
| ShellRun.RunWhile | user/bin/stsh/run.c:787-812 | so does a while or until |
| ShellRun.RunArms | user/bin/stsh/run.c:824-855 | the arms of a case stop before its esac, and once one has matched the others change nothing |
| ShellRun.RunCase | user/bin/stsh/run.c:814-859 | a case stops behind its esac |
| Shell.Interpreter.Execute | user/bin/stsh/run.c:613-712 | one command: the history grows by it and the oracle answers for it |
| Shell.Interpreter.RunSimple | user/bin/stsh/run.c:613-712 | the method does what the function of the same name says |
| Shell.Interpreter.RunStages | user/bin/stsh/run.c:940-1008 | so does a pipeline of several stages |
| Shell.Interpreter.RunPipeline | user/bin/stsh/run.c:940-1008 | so does a pipeline |
| Shell.Interpreter.RunAndOr | user/bin/stsh/run.c:1011-1024 | so does the loop over a chain |
| Shell.Interpreter.RunList | user/bin/stsh/run.c:1027-1053 | so does the loop over a list |
| Shell.Interpreter.SkipPast | user/bin/stsh/run.c:716-723 | so does skip_to |
| Shell.Interpreter.RunCommand | user/bin/stsh/run.c:918-937 | so does the dispatch |
| Shell.Interpreter.Define | user/bin/stsh/run.c:888-915 | so does a definition |
| Shell.Interpreter.RunSubshell | user/bin/stsh/run.c:871-884 | so does a subshell |
| Shell.Interpreter.RunIf | user/bin/stsh/run.c:725-745 | so does the loop over the branches of an if |
| Shell.Interpreter.RunElse | user/bin/stsh/run.c:739-744 | so does the else branch |
| Shell.Interpreter.RunFor | user/bin/stsh/run.c:747-785 | so does the loop over the passes of a for |
| Shell.Interpreter.CatchFlow | user/bin/stsh/run.c:778-780 | one level of a break or continue is used up, and the loop goes on only behind a continue that ends here |
| Shell.Interpreter.WhileLoop | user/bin/stsh/run.c:798-808 | so does the loop over the passes of a while |
| Shell.Interpreter.RunWhile | user/bin/stsh/run.c:787-812 | so does the whole while or until |
| Shell.Interpreter.RunArmBody | user/bin/stsh/run.c:839-853 | so do the commands of an arm |
| Shell.Interpreter.RunArm | user/bin/stsh/run.c:824-855 | so does an arm |
| Shell.Interpreter.RunCase | user/bin/stsh/run.c:814-859 | so does the loop over the arms |
| Shell.RunProgram | user/bin/stsh/run.c:1057-1077 | the object, given the text of a program, ends in the state, with the status and at the token that the tree means, as long as nothing ran out of turn, and nothing does in an orderly program |
| ShellHalts.ZeroPipeline | user/bin/stsh/run.c:940-1008 | a break or continue on its way out of a pipeline reports 0 |
| ShellHalts.ZeroList | user/bin/stsh/run.c:1027-1053 | so does one on its way out of a list |
| ShellHalts.ZeroIf | user/bin/stsh/run.c:725-745 | out of an if, whatever tokens the parser stood at |
| ShellHalts.ZeroFor | user/bin/stsh/run.c:747-785 | out of an outer for |
| ShellHalts.ZeroWhile | user/bin/stsh/run.c:787-812 | out of an outer while |
| ShellHalts.ZeroCase | user/bin/stsh/run.c:814-859 | out of a case |
| ShellHalts.ZeroCommand | user/bin/stsh/run.c:918-937 | out of every compound command |
| ShellMeaning.PassedPipeline | user/bin/stsh/run.c:940-1008 | the status a skipped pipeline reports: 0 for an if or case, else the last one |
| ShellMeaning.PassedAndOr | user/bin/stsh/run.c:1011-1024 | a skipped chain reports that of its first pipeline |
| ShellMeaning.PassedList | user/bin/stsh/run.c:1027-1053 | a skipped list reports that of its last command |
| ShellProof.MeansPipeline | user/bin/stsh/run.c:940-1008 | the text of a pipeline is executed as its tree means: same commands in the same order, same state, status and end |
| ShellProof.MeansAndOr | user/bin/stsh/run.c:1011-1024 | the same for a chain, its parts run or stepped over by the status so far |
| ShellProof.MeansList | user/bin/stsh/run.c:1027-1053 | the same for a list, with background marks |
| ShellProof.TailPassed | user/bin/stsh/run.c:725-745 | after a taken branch the others are stepped over, and only the status changes |
| ShellProof.MeansIf | user/bin/stsh/run.c:725-745 | an if runs its first true branch, or its else |
| ShellProof.MeansPasses | user/bin/stsh/run.c:773-781 | the passes of a for, with break and continue over any number of levels |
| ShellProof.MeansFor | user/bin/stsh/run.c:747-785 | a for runs its body once per word or parameter |
| ShellProof.MeansWhilePasses | user/bin/stsh/run.c:798-808 | the passes of a while or until |
| ShellProof.MeansWhile | user/bin/stsh/run.c:787-812 | a while or until runs its body while its condition allows, at most 1000000 times |
| ShellProof.MeansArmBody | user/bin/stsh/run.c:839-853 | the commands of the matching arm, background marks included |
| ShellProof.MeansCase | user/bin/stsh/run.c:814-859 | a case runs the first arm that fits |
| ShellProof.MeansSubshell | user/bin/stsh/run.c:871-884 | a subshell hands its exact body to the child |
| ShellProof.MeansCommand | user/bin/stsh/run.c:918-937 | every compound command is executed as its tree means |
| ShellProof.ProgramMeans | user/bin/stsh/run.c:1057-1077 | the text of every program without definitions is executed exactly as its tree means, unless something is run while a break, continue or return is pending or a loop condition leaves one pending |
| ShellCalm.StillCommand | user/bin/stsh/run.c:918-937 | where no command of the text leaves a break, continue or return, nothing is pending after any compound command and nothing ran out of turn |
| ShellCalm.StillList | user/bin/stsh/run.c:1027-1053 | nor after any list |
| ShellCalm.TameProgramMeans | user/bin/stsh/run.c:1057-1077 | so such programs are executed exactly as their trees mean, to their last token, with no condition on the run |
| ShellOrderly.CommandStops | user/bin/stsh/run.c:725-937 | if every joint of a chain (and-if, or-if) stands behind an unreserved word, a 2>&1 or a subshell, a compound command is never left in front of one, wherever it is left |
| ShellOrderly.OrderPipeline | user/bin/stsh/run.c:940-1008 | an orderly pipeline runs nothing out of turn, and leaves something pending only if it may |
| ShellOrderly.OrderChain | user/bin/stsh/run.c:1011-1024 | the same for a chain in which only the last pipeline may leave |
| ShellOrderly.OrderList | user/bin/stsh/run.c:1027-1053 | the same for a list |
| ShellOrderly.OrderIf | user/bin/stsh/run.c:725-745 | the same for an if whose conditions do not leave |
| ShellOrderly.OrderPasses | user/bin/stsh/run.c:773-781 | the same for the passes of a for, with break and continue over any number of levels |
| ShellOrderly.OrderWhilePasses | user/bin/stsh/run.c:798-808 | the same for those of a while or until whose condition does not leave |
| ShellOrderly.OrderArm | user/bin/stsh/run.c:839-853 | the same for a case arm in which only the last command may leave, by itself |
| ShellOrderly.OrderCommand | user/bin/stsh/run.c:918-937 | the same for every compound command |
| ShellOrderly.OrderlyProgramMeans | user/bin/stsh/run.c:1057-1077 | every orderly program, break, continue and return included, is executed exactly as its tree means, whatever its commands do as long as only those words leave and break and continue report 0 |
| ShellOrderly.PlainProgramMeans | user/bin/stsh/run.c:1057-1077 | in particular, to its last token, every program none of whose commands may leave |
| ShellExposed.ChainExactly | user/bin/stsh/run.c:1011-1024 | a chain of simple commands and pipelines runs nothing out of turn, if those words may leave in any way with any status, if and only if only the last may leave |
| ShellExposed.ConditionExposed | user/bin/stsh/run.c:725-745 | an if whose condition begins with a command that leaves runs the next command out of turn under some oracle, wherever it stands |
| ShellExposed.LoopConditionExposed | user/bin/stsh/run.c:787-812 | so does a while or until with its body |
| ShellExposed.ArmExposed | user/bin/stsh/run.c:839-853 | so does a case arm with the command after it |
| ShellExposed.JointTakesOver | user/bin/stsh/run.c:862-869 | the rule about joints is needed: { if a; then break; else { y; } && b; fi; } keeps all the others and runs b out of turn |
| ShellExposed.GroupEscapes | user/bin/stsh/run.c:862-869 | the rules are not all necessary: { break; } && foo breaks one and runs nothing out of turn under any oracle |
| ShellExposed.IfLosesStatus | user/bin/stsh/run.c:725-745 | if true; then false; else if x; then y; fi; fi reports 0, although the branch it took failed |
| ShellBuiltins.BuiltinChainExactly | user/bin/stsh/run.c:430-432 | if they leave as the builtins do, break and continue with status 0, if and only if a pipeline that may leave is the last, or cannot return and is followed by no and-if |
| ShellLimits.BreakRunsOn | user/bin/stsh/run.c:1011-1024 | false in general: in "break && echo" the echo is run, which the tree does not |
| ShellLimits.IfStrays | user/bin/stsh/run.c:725-745 | the last condition of the agreement is needed: if break; f; then x; fi with an f that clears the break is left at its then with nothing pending, and skipped to behind its fi |
| ShellLimits.IfStatusExactly | user/bin/stsh/run.c:725-745 | an if that takes its first branch reports that branch's status if and only if no other branch follows, or the status is what stepping over the others reports: 0 if they end in an if or case, else the last exit status |
| ShellLimits.RunIfStatusExactly | user/bin/stsh/run.c:725-745 | the same of the executor on the text of an orderly if |
| ShellLimits.TailReports | user/bin/stsh/run.c:725-745 | what the branches behind the taken one make of its status |
| ShellLaws.CommandStarts | user/bin/stsh/run.c:613-712 | one command is started once, and the flow, levels, status and functions it answers take effect |
| ShellLaws.PipelineStarts | user/bin/stsh/run.c:940-1008 | a pipeline of several stages is started once, and only its status comes back |
| ShellLaws.SubshellStarts | user/bin/stsh/run.c:871-884 | so is a subshell |
| ShellLaws.ChainGroups | user/bin/stsh/run.c:1011-1024 | a chain of any length groups from the left: behind and-if a part runs if and only if what stands before it has status 0, behind or-if if and only if it has not, and nothing runs behind one that leaves something pending |
| ShellLaws.ListsFollow | user/bin/stsh/run.c:1027-1053 | two lists one after the other are the first and then the second, unless the first leaves something pending |
| ShellLaws.IfDecides | user/bin/stsh/run.c:725-745 | a condition of status 0 runs its own commands and no others; otherwise the next condition or the else decides, and 0 is reported if there is none |
| ShellLaws.CaseDecides | user/bin/stsh/run.c:814-859 | a case runs exactly the first arm that fits, and none if none fits |
| ShellLaws.ForLeaves | user/bin/stsh/run.c:773-781 | after a pass of a for: a break ends the loop and stays pending exactly if it was for more than one level, a continue for one level goes on, a continue for more and a return end the loop |
| ShellLaws.WhileLeaves | user/bin/stsh/run.c:798-808 | the same of a while or until, whose body runs exactly if the condition says so |
| ShellLaws.ForRounds | user/bin/stsh/run.c:773-781 | a for around one command binds and starts it for word after word, in order, up to and including the first time it leaves the loop, and for every word if it never does |
| ShellLaws.WhileTurns | user/bin/stsh/run.c:798-808 | a while or until around one command: condition and body by turns, until the condition ends it, the body leaves it, or the turns are used up |
| ShellLaws.WhileBounded | user/bin/stsh/run.c:798-808 | which is after a million turns |
| ShellLaws.BreakBoth | user/bin/stsh/run.c:773-785 | in two loops, break 2 ends both, break 1 only the inner one, and more stays pending behind both |
| ShellLaws.DefinitionStores | user/bin/stsh/run.c:888-915 | a definition, run or stepped over, stores exactly the tokens of its body under its name and starts nothing |
| ShellGrammar.ReadSimple | user/bin/stsh/run.c:613-638 | a simple command with arguments and redirections is stepped over exactly |
| ShellGrammar.ReadStages | user/bin/stsh/run.c:941-1008 | so is a pipeline of them |
| ShellGrammar.ReadPipeline | user/bin/stsh/run.c:941-1008 | so is a compound command or any pipeline |
| ShellGrammar.ReadAndOr | user/bin/stsh/run.c:1011-1024 | so is an and-or list |
| ShellGrammar.ReadList | user/bin/stsh/run.c:1027-1053 | a list stops at the token that closes its block |
| ShellGrammar.SkipToIsSkipList | user/bin/stsh/run.c:716-723 | the body that skip_to steps over is the one a loop pass runs |
| ShellGrammar.ReadIf | user/bin/stsh/run.c:725-745 | an if with any elif branches and else ends behind its fi |
| ShellGrammar.ReadFor | user/bin/stsh/run.c:747-785 | a for ends behind its done |
| ShellGrammar.ReadWhile | user/bin/stsh/run.c:787-812 | a while or until ends behind its done |
| ShellGrammar.ReadArms | user/bin/stsh/run.c:824-855 | case arms end before their esac, whatever separates their commands |
| ShellGrammar.ReadCase | user/bin/stsh/run.c:814-859 | a case ends behind its esac |
| ShellGrammar.ReadFunction | user/bin/stsh/run.c:888-915 | a definition ends behind its body |
| ShellGrammar.ReadCommand | user/bin/stsh/run.c:918-937 | every well-formed compound command ends where its tokens end |
| ShellGrammar.ReadProgram | user/bin/stsh/run.c:1057-1077 | every well-formed program is skipped to its end |
| Arithmetic.Truncation | user/bin/stsh/run.c:93-95 | the division is exact with its remainder, the remainder smaller than the divisor and signed like the dividend |
| ArithmeticText.NumberReads | user/bin/stsh/run.c:76-86 | a written literal is read back |
| ArithmeticText.PrimReads | user/bin/stsh/run.c:76-86 | a number, a name, or anything in parentheses |
| ArithmeticText.UnaryReads | user/bin/stsh/run.c:87-92 | unary minus, plus, not and complement |
| ArithmeticText.LevelReads | user/bin/stsh/run.c:93-109 | a level reads an operand of the next level and goes on |
| ArithmeticText.ChainReads | user/bin/stsh/run.c:93-109 | a chain of operators of one level groups from the left |
| ArithmeticText.AssignReads | user/bin/stsh/run.c:110-126 | assignments, plain and compound, group from the right |
| ArithmeticText.TextEvaluates | user/bin/stsh/run.c:72-128 | for every expression tree, reading its minimally parenthesised text gives the value and the assignments of the tree, with nothing left over |
| ArithmeticEvaluator.Evaluator.Digits | user/bin/stsh/run.c:76-86 | the cursor-moving routine computes what the reading function says and leaves the cursor behind it |
| ArithmeticEvaluator.Evaluator.Number | user/bin/stsh/run.c:76-86 | the cursor-moving routine computes what the reading function says and leaves the cursor behind it |
| ArithmeticEvaluator.Evaluator.Prim | user/bin/stsh/run.c:76-86 | the cursor-moving routine computes what the reading function says and leaves the cursor behind it |
| ArithmeticEvaluator.Evaluator.Unary | user/bin/stsh/run.c:87-92 | the cursor-moving routine computes what the reading function says and leaves the cursor behind it |
| ArithmeticEvaluator.Evaluator.Level | user/bin/stsh/run.c:93-109 | the cursor-moving routine computes what the reading function says and leaves the cursor behind it |
| ArithmeticEvaluator.Evaluator.Assign | user/bin/stsh/run.c:110-126 | the cursor-moving routine computes what the reading function says and leaves the cursor behind it |
| ArithmeticEvaluator.ArithEval | user/bin/stsh/run.c:128 | arith_eval on the text of a tree returns the tree's value and stores its assignments |
| ArithmeticLaws.SignsCompute | user/bin/stsh/run.c:93-109 | each of the thirteen signs between two written numbers computes what it stands for, division and remainder by zero 0 |
| ArithmeticLaws.PrefixesCompute | user/bin/stsh/run.c:87-92 | so does each of the four signs in front of one |
| ArithmeticLaws.Ring | user/bin/stsh/run.c:87-98 | on all values: addition and multiplication by zero and successor, subtraction and minus undo addition, complement adds up to -1 |
| ArithmeticLaws.Division | user/bin/stsh/run.c:93-95 | division is exact with its remainder, smaller than the divisor and signed like the dividend, and both are 0 by zero |
| ArithmeticLaws.Order | user/bin/stsh/run.c:99-105 | exactly one of below, equal and above holds, the other comparisons are their opposites, and below is transitive |
| ArithmeticLaws.Logic | user/bin/stsh/run.c:87-109 | truth values are 0 and 1, every number but 0 is true, and and/or are dual through not |
| ArithmeticLaws.Precedence | user/bin/stsh/run.c:93-109 | the levels of the operators are those of C |
| ArithmeticLaws.Grouping | user/bin/stsh/run.c:93-109 | of any two operators in a row the tighter goes first, and of two of one level the left one |
| ArithmeticLaws.Parenthesised | user/bin/stsh/run.c:76-78 | what stands in parentheses goes first |
| ArithmeticLaws.BasesRead | user/bin/stsh/run.c:79 | 0x with hexadecimal digits in either case and 0 with octal digits read as the number they write |
| ArithmeticLaws.BareX | user/bin/stsh/run.c:79 | an x behind 0 without a hexadecimal digit is no part of the number |
| ArithmeticLaws.MissingIsZero | user/bin/stsh/run.c:76-86 | a missing operand is 0, and the text that starts none is left |
| ArithmeticLaws.NameCharacters | user/bin/stsh/run.c:80-82 | the characters of names, spelled out |
| ArithmeticLaws.BlanksIgnored | user/bin/stsh/run.c:74 | spaces and tabs in front of an operand, an operator or an expression change nothing |
| ArithmeticLaws.AssignmentStores | user/bin/stsh/run.c:110-126 | an assignment is worth its right side, from then on the name is, and every name that differs in its first 63 characters is as before |
| ArithmeticLaws.UnsetIsZero | user/bin/stsh/run.c:80-84 | a name that was never assigned is 0 |
| ArithmeticLaws.CompoundIsPlain | user/bin/stsh/run.c:117-123 | a compound assignment is the plain one of the sign applied to the name and the right side |
| ArithmeticLaws.BothSidesRun | user/bin/stsh/run.c:106-109 | and-and and or-or do not spare their right side: an assignment there is made whatever the left side is |
| BlockDevice.Device.PutBlock | user/bin/lorica-update/main.c:222-245 | a read-modify-write changes exactly the piece, in every disk content the write passes through |
| BlockDevice.Device.BlockIo | user/bin/lorica-update/main.c:229-243 | the part of one block, read first unless all of it is overwritten |
| BlockDevice.Device.RawIo | user/bin/lorica-update/main.c:222-245 | on 512- and 4096-byte blocks exactly the requested bytes change, at every block write; a completed transfer delivers them |
| Fat16.Le16Reads | user/bin/lorica-update/main.c:27-30 | a field of two bytes is read low byte first |
| Fat16.Le32Reads | user/bin/lorica-update/main.c:32-36 | so is one of four |
| Fat16.FatOpenExactly | user/bin/lorica-update/main.c:51-81 | fat_open accepts a boot sector if and only if its fields are proper and 4085 clusters find room; the FAT starts behind the reserved sectors, the root directory behind the last FAT, the clusters in the first sector behind the root directory, and all clusters that fit are counted and no more |
| Fat16.FatOpenSound | user/bin/lorica-update/main.c:51-81 | every geometry that fat_open accepts keeps all clusters inside the partition and behind the root directory |
| Fat16.InARow | user/bin/lorica-update/main.c:83-103 | the entries of the FAT follow one another two bytes apart, and the clusters their size apart |
| Fat16.ShortFatAccepted | user/bin/lorica-update/main.c:51-81 | a boot sector that fat_open accepts although its FAT is too short for its clusters, with an entry in the data area |
| Fat16.CoversExactly | user/bin/lorica-update/main.c:88-96 | exactly a covering FAT keeps the entries of all legal clusters out of the data area |
| Fat16.ClusterOffFormula | user/bin/lorica-update/main.c:98-103 | the offset of a cluster as the source computes it |
| Fat16.ClusterInside | user/bin/lorica-update/main.c:98-103 | a legal cluster lies inside the data area of the partition |
| Fat16.ClustersApart | user/bin/lorica-update/main.c:98-103 | no byte lies in two clusters |
| Fat16.FatKept | user/bin/lorica-update/main.c:152-176 | writing through a chain leaves the FAT alone |
| Fat16.FlatKept | user/bin/lorica-update/main.c:152-176 | and all clusters outside the chain |
| KernelSwap.FatNext | user/bin/lorica-update/main.c:88-96 | reads the FAT entry of a legal cluster and nothing else, and fails only with the device; a FAT that covers its clusters is not needed |
| KernelSwap.MustPass | user/bin/lorica-update/main.c:178-195 | where mark_chain stands, every chain it could mark goes through the same cluster, legal, unmarked and not an end |
| KernelSwap.MarkChain | user/bin/lorica-update/main.c:178-195 | accepts exactly the files whose FAT chain is legal, long enough, without repetition and without marked clusters, unless a block transfer fails, and marks exactly it |
| KernelSwap.ChainKept | user/bin/lorica-update/main.c:152-195 | an accepted chain is still accepted after writes through it |
| KernelSwap.ClusterIo | user/bin/lorica-update/main.c:165-167 | one cluster or its first bytes |
| KernelSwap.MoveCluster | user/bin/lorica-update/main.c:160-169 | one round of the transfer loop |
| KernelSwap.FileIo | user/bin/lorica-update/main.c:152-176 | visits exactly the marked clusters: a write then a read gives the buffer back, nothing outside the chain changes at any block write, and it fails if and only if a block transfer does |
| KernelSwap.FindSlots | user/bin/lorica-update/main.c:197-217 | accepts exactly two full-size slots with legal, disjoint chains, unless a block transfer fails |
| KernelSwap.WritingIsSafe | user/bin/lorica-update/main.c:365-377 | while one slot is written and the other holds the original kernel, every content passed through is bootable |
| KernelSwap.SaveOld | user/bin/lorica-update/main.c:365-370 | what the primary holds is in the old slot before the primary is touched |
| KernelSwap.Swap | user/bin/lorica-update/main.c:353-377 | after every block write one slot holds, byte for byte, what the primary held at the start or the complete staged kernel; success means both are in place, on the way both held the former, and only a failed block transfer prevents it |
| KernelSwap.OneRun | user/bin/lorica-update/main.c:353-377 | a run keeps a whole kernel in some slot at every block write if the primary was whole, and not if it was torn and the run went through |
| KernelSwap.Rerun | user/bin/lorica-update/main.c:353-377 | any sequence of runs, each perhaps cut short by a power loss: a whole kernel after every block write if each starts with a whole primary; a run that starts with a torn one and goes through leaves none on the way |
| KernelSwap.Update | user/bin/lorica-update/main.c:353-377 | nothing is written unless both slots are accepted, and then the promises of the swap hold; without a failing device it refuses only improper slots |
| Directory.ScanExactly | user/bin/lorica-update/main.c:126-136 | a name is found in a directory if and only if an entry that is not deleted and no long name has it before the end mark; the first such entry is taken |
| Directory.ScanBlock | user/bin/lorica-update/main.c:126-136 | the loop over the entries of one block |
| Directory.ScanSectors | user/bin/lorica-update/main.c:118-137 | the loop over the blocks of the root directory or of a cluster |
| Directory.SilentForever | user/bin/lorica-update/main.c:140-149 | a directory whose chain has been followed for more clusters than there are has been seen in full |
| Directory.WalkDirectory | user/bin/lorica-update/main.c:117-150 | the loop over the clusters of a directory: exactly what its chain lists, 0 where it ends and -1 where it is broken, unless a block transfer fails |
| Directory.DirFind | user/bin/lorica-update/main.c:104-150 | dir_find: 1 with exactly the file that the directory lists, 0 if it ends without the name, -1 if it is broken or a block transfer fails |
| Directory.ListsOnce | user/bin/lorica-update/main.c:104-150 | a directory lists at most one file under a name |
| Directory.FindFiles | user/bin/lorica-update/main.c:197-208 | finds both slots in the directory BOOT if they are there, and refuses only if not or if a block transfer fails |
| Directory.UpdateDisk | user/bin/lorica-update/main.c:343-377 | from the boot sector to the verified kernel: works on exactly the disks with an accepted geometry and two proper slots, unless a block transfer fails, writes nothing on any other, and keeps the promises of the swap |
| VersionOrder.VerComponent | user/bin/herald/repo.c:111-124 | the digit string as an unbounded decimal, clamped to 2^64-1, and the position behind the component |
| VersionOrder.VersionGt | user/bin/herald/repo.c:126-136 | decides exactly the lexicographic order on zero-padded components |
| VersionOrder.Irreflexive | user/bin/herald/repo.c:126-136 | no version is newer than itself |
| VersionOrder.Transitive | user/bin/herald/repo.c:126-136 | the order is transitive |
| VersionOrder.NegativelyTransitive | user/bin/herald/repo.c:126-136 | ties are an equivalence |
| VersionOrder.Ties | user/bin/herald/repo.c:126-136 | two versions tie exactly when all padded components are equal |
| VersionOrder.BestSoFar | user/bin/herald/repo.c:407-418 | one more candidate keeps the best so far best |
| VersionOrder.RepoFind | user/bin/herald/repo.c:389-422 | a matching candidate that no other matching candidate exceeds, or none if nothing matches |
| VersionLaws.OthersIgnored | user/bin/herald/repo.c:111-124 | characters that are no digits do not count, wherever they stand |
| VersionLaws.DottedReads | user/bin/herald/repo.c:111-136 | a written version is read as the numbers between its dots, each capped at 2^64-1, so that below the cap the comparison is the lexicographic order of the numbers |
| VersionLaws.CandidatesInOrder | user/bin/herald/repo.c:389-422 | the candidates are the stanzas of the verified lists, list by list |
| Resolver.InstallSet.MoveToEnd | user/bin/herald/main.c:865-869 | the in-place shift is the rotation that puts the package last |
| Resolver.InstallSet.Resolve | user/bin/herald/main.c:812-871 | terminates on every repository, cycles included; no name twice; on success every dependency queued or satisfied, and without cycles behind its dependencies; fails only without lists, without room, or for a name that is not proper or not to be had |
| Resolver.InstallSet.QueueWithDeps | user/bin/herald/main.c:847-870 | a package is queued, its dependencies resolved, and it is moved behind them; fails only without lists, without room, or for a name that is not proper or not to be had |
| Resolver.InstallSet.ResolveDeps | user/bin/herald/main.c:852-864 | the dependency loop: after it every dependency of the package is queued or satisfied and, without cycles, queued in order; fails only without lists, without room, or for a name that is not proper or not to be had |
| Resolver.InstallSet.ResolveAll | user/bin/herald/main.c:951-1003 | the whole install set of an install or an upgrade is closed, without repetition, holds only what the names pull in and, without cycles, is in installable order; fails only without lists, without room, or for a name that is not proper or not to be had |
| Resolver.MovedQueue | user/bin/herald/main.c:865-869 | the shift loses and doubles no package |
| Resolver.MovedClosed | user/bin/herald/main.c:865-869 | the shift keeps every dependency handled |
| Resolver.MovedSorted | user/bin/herald/main.c:865-869 | the shift keeps dependencies first |
| Resolver.RoomShrinks | user/bin/herald/main.c:812-871 | every queued package leaves fewer names to queue, so the recursion ends |
| TerminalSpec.StepKeeps | user/lib/glyph/glyph_term.c:530-640 | every byte keeps cursor, saved cursor, parameter count and OSC length in bounds and the lines rectangular |
| TerminalSpec.CsiKeepsBounds | user/lib/glyph/glyph_term.c:331-494 | every control sequence keeps the cursors in bounds |
| Terminal.RingMoves | user/lib/glyph/glyph_term.c:147-155 | one row further on, every line but the newest is where its successor was |
| Terminal.Terminal.CellAt | user/lib/glyph/glyph_term.c:127-134 | the view at offset k is the list of lines shifted by k |
| Terminal.Terminal.Put | user/lib/glyph/glyph_term.c:138-145 | a write at a visible position changes that cell of that line and nothing else |
| Terminal.Terminal.Scroll | user/lib/glyph/glyph_term.c:147-155 | drops the oldest line and appends a blank one |
| Terminal.Terminal.EraseRow | user/lib/glyph/glyph_term.c:386-397 | blanks a row from a column on |
| Terminal.Terminal.EraseRows | user/lib/glyph/glyph_term.c:368-385 | blanks all visible rows from one on |
| Terminal.Terminal.SelectGraphics | user/lib/glyph/glyph_term.c:398-460 | the pen after all SGR parameters |
| Terminal.Terminal.CsiDone | user/lib/glyph/glyph_term.c:331-494 | a complete control sequence does to the ring what it does to the list of lines |
| Terminal.Terminal.GroundInput | user/lib/glyph/glyph_term.c:604-638 | a byte outside escape sequences, on the ring as on the list |
| Terminal.Terminal.Input | user/lib/glyph/glyph_term.c:536-640 | one byte, on the ring as on the list |
| Terminal.Terminal.FeedAll | user/lib/glyph/glyph_term.c:530-640 | for every byte stream the ring ends as the list of lines does, with the view at the bottom |
| TerminalLaws.StepMoves | user/lib/glyph/glyph_term.c:530-640 | one byte moves history by at most one line and writes none of it |
| TerminalLaws.HistoryOnlyMoves | user/lib/glyph/glyph_term.c:530-640 | for every byte stream only the visible lines are ever written; history moves up by one line per scroll |
| TerminalLaws.TextAppears | user/lib/glyph/glyph_term.c:625-638 | printable text that fits appears at the cursor in the pen's colours and nothing else changes |
| TerminalLaws.ParametersRead | user/lib/glyph/glyph_term.c:540-602 | with or without the private mark, the parameters that arrive for every list of fields: none for an empty first one, and from the eighth on all the digits in one |
| TerminalLaws.ParametersRight | user/lib/glyph/glyph_term.c:577-602 | every parameter arrives in its place if and only if the first one is written out and there are at most eight |
| TerminalLaws.SequenceActs | user/lib/glyph/glyph_term.c:540-602 | a whole control sequence acts once, with the parameters that arrived, and leaves the parser at rest |
| TerminalLaws.RowLost | user/lib/glyph/glyph_term.c:356-367 | with the row left empty, the column is taken for the row |
| TerminalLaws.CursorAddressed | user/lib/glyph/glyph_term.c:356-367 | row and column, both written out, put the cursor there as far as the screen goes, and nothing is drawn |
| TerminalLaws.ScreenCleared | user/lib/glyph/glyph_term.c:368-385 | clearing blanks every visible line, keeps history and pen, and brings the cursor home |
| TerminalLaws.CursorReturns | user/lib/glyph/glyph_term.c:336-355 | a move out and back returns if and only if the edge did not cut it short or the cursor was at the far edge |
| TerminalSequences.OnlyThePen | user/lib/glyph/glyph_term.c:398-461 | ESC [ ... m changes nothing but the pen |
| TerminalSequences.PenReset | user/lib/glyph/glyph_term.c:399-409 | 0 and no parameter give the plain pen |
| TerminalSequences.AttributesSet | user/lib/glyph/glyph_term.c:410-415 | 1, 4 and 7 set one attribute, 22, 24 and 27 clear it, and nothing else of the pen changes |
| TerminalSequences.ColorsSet | user/lib/glyph/glyph_term.c:416-426 | 30 to 37 (eight further when bold), 90 to 97 and 39 set the foreground, 40 to 47, 100 to 107 and 49 the background, and nothing else |
| TerminalSequences.ExtendedColorsSet | user/lib/glyph/glyph_term.c:427-459 | 38 and 48 with 5 set one colour to a palette entry, if there is one, and with 2 to red, green and blue modulo 256 |
| TerminalSequences.OtherCodes | user/lib/glyph/glyph_term.c:398-461 | every other code leaves the pen alone |
| TerminalSequences.ListsAct | user/lib/glyph/glyph_term.c:404-460 | codes in one sequence do what they do one sequence after the other, as long as no colour is cut off |
| TerminalSequences.CursorMoves | user/lib/glyph/glyph_term.c:336-355 | A, B, C and D move the cursor up, down, right and left by the parameter, or by one, at most to the edge; nothing else changes |
| TerminalSequences.CursorPlaced | user/lib/glyph/glyph_term.c:356-367 | H and f put the cursor at row and column, 1 for what is missing, at most at the edge |
| TerminalSequences.ScreenErased | user/lib/glyph/glyph_term.c:368-385 | J with 0 or nothing blanks exactly the cells from the cursor to the end of the screen |
| TerminalSequences.LineErased | user/lib/glyph/glyph_term.c:386-397 | K with 0 or nothing blanks exactly the rest of the line, with 2 exactly the line |
| TerminalSequences.Unheeded | user/lib/glyph/glyph_term.c:331-494 | other parameters of J and K, h and l without the private mark, and every other final byte do nothing |
| TerminalSequences.CursorShown | user/lib/glyph/glyph_term.c:461-490 | private mode 25 shows and hides the cursor |
| TerminalSequences.AlternateScreen | user/lib/glyph/glyph_term.c:461-490 | private mode 1049 saves the cursor, blanks the screen and goes home, and back again |
| TerminalSequences.OtherModes | user/lib/glyph/glyph_term.c:461-490 | every other private mode does nothing |
| TerminalText.LeftwardBytes | user/lib/glyph/glyph_term.c:612-616 | return goes to the first column, backspace and delete one column left if there is one |
| TerminalText.LineFeedMoves | user/lib/glyph/glyph_term.c:608-611 | a line feed goes down in the same column; on the last line all lines move up by one and a blank one follows |
| TerminalText.TabMoves | user/lib/glyph/glyph_term.c:617-624 | a tab goes to the next multiple of eight, or to the start of the next line |
| TerminalText.OtherBytes | user/lib/glyph/glyph_term.c:604-638 | every other byte that does not print is passed over |
| TerminalText.TextFlows | user/lib/glyph/glyph_term.c:625-638 | text of any length, from anywhere: its characters follow one another as over an endless page of which the lines that have scrolled are the first, and the cursor is behind the last one |
| TerminalText.CommandActs | user/lib/glyph/glyph_term.c:500-576 | an operating system command of any length, ended by BEL or ESC \: 777;admin; sets or clears the mark, every other changes nothing, and a change is reported exactly when there is one |
| TerminalText.EscapeDropped | user/lib/glyph/glyph_term.c:540-558 | ESC and any byte but [ and ] are dropped |
| TerminalText.SequenceDropped | user/lib/glyph/glyph_term.c:596-601 | a byte that has no place in a control sequence ends it without effect |
| TerminalText.CommandDropped | user/lib/glyph/glyph_term.c:559-576 | a command in which ESC is not followed by a backslash does nothing |
| LineDrawing.DrawLine | user/lib/glyph/draw.c:164-188 | ends at (x1,y1) after exactly one pixel more than the larger of the two distances, one per step of the longer axis, each within half a pixel of the ideal line; no other pixel changes |
| LineDrawing.StepWide | user/lib/glyph/draw.c:179-186 | one step of a wide line keeps it within half a pixel |
| LineDrawing.StepTall | user/lib/glyph/draw.c:179-186 | one step of a tall line keeps it within half a pixel |
| LineDrawing.AtEnd | user/lib/glyph/draw.c:176-177 | the end test holds exactly after the last pixel |
| LineDrawing.PutPixel | user/lib/glyph/draw.c:50-54 | a pixel off the surface is dropped |
| BoxBlur.Slide | user/lib/glyph/draw.c:600-604 | the running sum after one step is the sum of the next clamped window |
| BoxBlur.PackedApart | user/lib/glyph/draw.c:595-598 | bytes packed with or are the sum of their lanes |
| BlurSurface.FirstSums | user/lib/glyph/draw.c:587-592 | the first sums are those of the clamped window |
| BlurSurface.NextSums | user/lib/glyph/draw.c:600-604 | the running sums stay those of the clamped window |
| BlurSurface.BlurRow | user/lib/glyph/draw.c:581-606 | a row in place is the naive blur of the row it was |
| BlurSurface.BlurColumn | user/lib/glyph/draw.c:609-633 | a column in place is the naive blur of the column it was |
| BlurSurface.BlurBox | user/lib/glyph/draw.c:549-636 | in place, the naive two-pass blur of the clipped rectangle; nothing outside it changes, and nothing at all without the scratch line |
| BlurLaws.AverageNear | user/lib/glyph/draw.c:559-598 | for a radius up to 128 the average is the quotient or one more, and at most 255 |
| BlurLaws.NoOverflowExactly | user/lib/glyph/draw.c:559-598 | no average leaves its byte if and only if 255 times the excess of the reciprocal stays below 65536 |
| BlurLaws.SmallFits | user/lib/glyph/draw.c:559-564 | that holds for every radius up to 128 |
| BlurLaws.ChannelsKept | user/lib/glyph/draw.c:594-598 | then the averages land in their channels and the top byte stays |
| BlurLaws.FlatStays | user/lib/glyph/draw.c:549-636 | then a line of one colour is left alone |
| BlurLaws.WhiteStaysExactly | user/lib/glyph/draw.c:549-636 | a white line stays white if and only if 255 times the rounding of the reciprocal, cut to 32 bits, is below 65536; while it needs no cutting, if and only if the radius fits |
| BlurLaws.WhiteTurnsDark | user/lib/glyph/draw.c:549-636 | at radius 154 it does not hold: white becomes 0x01010100 |
| Blending.BlendLanes | user/lib/glyph/draw.c:675-687 | the two lanes never carry: each channel is its own rounded mix |
| Blending.BlendNear | user/lib/glyph/draw.c:675-687 | every channel is within one of floor((c*a + p*(255-a))/255) |
| Blending.InvisibleBlend | user/lib/glyph/draw.c:654-689 | with alpha 0 a channel stays if and only if it is at most 128; a brighter one loses one |
| Blending.OpaqueBlend | user/lib/glyph/draw.c:654-689 | with alpha 255 a channel of the colour arrives if and only if it is at most 128; a brighter one loses one |
| Blending.BlendRect | user/lib/glyph/draw.c:654-689 | every pixel of the clipped rectangle is blended once, the others stay |
| Blending.CornerAlphaRange | user/lib/glyph/draw.c:211-227 | the arc coverage of a corner pixel is between nothing and the full alpha |
| Blending.AaCorner | user/lib/glyph/draw.c:211-227 | every pixel of the block is blended once by its coverage |
| Blending.BlendRoundedRect | user/lib/glyph/draw.c:344-367 | the seven pieces cover the box without overlap: every pixel of it is one blend of what it was, no other pixel changes |
| BlendingLaws.MixSteps | user/lib/glyph/draw.c:190-206 | the mix of two levels goes from one to the other in equal steps |
| BlendingLaws.ExactLanes | user/lib/glyph/draw.c:190-206 | every channel of an exact blend is the mix of that channel of the two colours, rounded down |
| BlendingLaws.ExactBetween | user/lib/glyph/draw.c:190-206 | without alpha the pixel stays, with all of it the colour replaces it, and in between every channel lies between the two |
| BlendingLaws.CornerTransposed | user/lib/glyph/draw.c:211-227 | across and down are alike |
| BlendingLaws.CornerMirrored | user/lib/glyph/draw.c:211-227 | a left corner is the mirror image of a right one, an upper one of a lower one |
| BlendingLaws.CornerCovers | user/lib/glyph/draw.c:211-227 | a pixel whose middle is at least half a pixel inside the radius is covered in full, one at least half a pixel outside not at all |
| BlendingLaws.CornerRim | user/lib/glyph/draw.c:211-227 | on the rim between, by the share of the rim that is still ahead, rounded down |
| BlendingLaws.CornerFalls | user/lib/glyph/draw.c:211-227 | farther from the middle of the arc the coverage never grows |
| BlendingLaws.BoxMirrored | user/lib/glyph/draw.c:344-367 | a rounded box is its own mirror image, left to right and top to bottom |
| BlendingLaws.SquareBox | user/lib/glyph/draw.c:344-367 | without a radius every pixel is blended alike |
| Supervisor.RestartOfRunning | user/bin/vigil/main.c:487-504 | restarting a running service brings it back if and only if it respawns and its restart budget is positive |
| Supervisor.DeathDecides | user/bin/vigil/main.c:722-754 | after a death a service is wanted again if and only if it is active, respawns and has restarts left, which costs it one; otherwise it is off |
| Supervisor.KeepsDying | user/bin/vigil/main.c:722-754 | a service that keeps dying is brought back exactly as often as its restarts allow |
| Supervisor.CommandDecides | user/bin/vigil/main.c:487-504 | start and restart make a service without a child wanted and give back its restarts; after a stop it is not wanted, nor after its death |
| Supervisor.BoundedForks | user/bin/vigil/main.c:714-765 | at most one unreaped child, and at most max(0, max_restarts)+1 forks since boot or the last start or restart |
| Supervisor.StartSound | user/bin/vigil/main.c:371-413 | a fork with a free process number keeps that |
| Supervisor.CommandSound | user/bin/vigil/main.c:487-504 | a command keeps it |
| Supervisor.DeathSound | user/bin/vigil/main.c:722-754 | the death of a child keeps it |
| Supervisor.OrphanSound | user/bin/vigil/main.c:722-754 | so does the death of an inherited process |
| Supervisor.Supervisor.StartService | user/bin/vigil/main.c:371-413 | a running service is left alone; for another the kernel is asked once, and it gets one child unless that is refused |
| Supervisor.Supervisor.Obey | user/bin/vigil/main.c:487-504 | one command for every service of that name: the kernel is asked exactly for those to start without a child, in the order of the table, and exactly the children to stop get a SIGTERM |
| Supervisor.Supervisor.Reap | user/bin/vigil/main.c:722-754 | the record after the death, and the kernel is asked exactly for an active respawning service with budget left; inactive services get no child |
| Supervisor.Supervisor.Retry | user/bin/vigil/main.c:756-761 | the kernel is asked exactly for the active services without a child, in the order of the table, and if it refuses nothing none is left |
| Supervisor.Supervisor.Pass | user/bin/vigil/main.c:714-765 | any deaths in any order, then the retry: no inactive service is started, and if the kernel refuses nothing every active one has a child |
| Supervisor.Supervisor.constructor | user/bin/vigil/main.c:695-710 | services that do not belong to this boot stay off, the others get one start, and a child if the kernel refuses nothing |
| Supervisor.Supervisor.Run | user/bin/vigil/main.c:714-765 | after any run of passes, deaths, fork failures and commands every service has at most one child and has not been forked more often than its budget plus one |
| Tar.PathIsSafe | user/bin/herald/tar.c:92-118 | accepts a path if and only if it is relative, not empty and has no ".." component |
| Tar.OctParse | user/bin/herald/tar.c:45-65 | the loop reads what the octal field says, errors included |
| Tar.ParseHeader | user/bin/herald/tar.c:258-304 | the checks of a header in their order |
| Tar.Allowed | user/bin/herald/tar.c:330-355 | the prefix restriction as a condition on the path |
| Tar.NextStep | user/bin/herald/tar.c:273-425 | what one header leads to: end, error, skip, directory or file |
| Tar.Extract | user/bin/herald/tar.c:230-432 | exactly the planned steps in order, up to the first that the file system refuses; the owner list is exactly the files written before that, in order |
| TarLaws.WalkContained | user/bin/herald/tar.c:230-432 | on every buffer all that is made has a safe, permitted path, and data slices lie inside the buffer, disjoint and in order |
| TarLaws.OctalRead | user/bin/herald/tar.c:45-65 | an octal field is read back |
| TarLaws.FieldUnreadable | user/bin/herald/tar.c:45-65 | a number field is refused if and only if behind its spaces and octal digits stands something that neither is nor ends a number |
| TarLaws.ExecutableExactly | user/bin/herald/tar.c:377 | any of the three execute bits, the owner's, the group's or others', makes a file executable |
| TarLaws.PermittedExactly | user/bin/herald/tar.c:331-355 | the prefix restriction: the manifest, a path that continues a prefix, or a directory that a prefix continues |
| TarLaws.PathsJoined | user/bin/herald/tar.c:82-156 | prefix and name are joined by a slash if there is a prefix, and one "./" in front is dropped |
| TarLaws.OwnedInOrder | user/bin/herald/tar.c:412-418 | the owner list names the files written, in order, and nothing else |
| TarLaws.HeadReads | user/bin/herald/tar.c:124-156 | the header of every member that fits its fields is read back |
| TarLaws.ArchiveExtracts | user/bin/herald/tar.c:230-432 | extracting the archive of any members makes, in order and with their data, exactly the files and directories up to the first that is unsafe, outside the prefixes or too long, and reports that one; other types and the manifest are passed over |
| TarLaws.BrokenHeaders | user/bin/herald/tar.c:273-291 | a block with a name but without the magic, or with an unreadable size or mode, ends the walk with that error |
| TarLaws.CutOff | user/bin/herald/tar.c:295-304 | so does a member whose data the buffer does not hold in full |
| TarLaws.WalkEnds | user/bin/herald/tar.c:247-271 | one block of zeros is passed over; two in a row, a block without a name and a short rest end the walk |
| Database.LoadAll | user/bin/herald/db.c:92-131 | the reading loop gives the table of the text, over-long and malformed lines skipped |
| Database.LoadRendered | user/bin/herald/db.c:92-131 | loading what was written gives the same table |
| Database.LoadedClean | user/bin/herald/db.c:51-131 | whatever the file holds, only clean entries come out of it |
| Database.RoundTripExactly | user/bin/herald/db.c:51-203 | a table survives writing and reading if and only if no field has a TAB, CR, LF or NUL or is too long |
| DatabaseText.ParseExactly | user/bin/herald/db.c:51-86 | a line is a record if and only if it is four fields that fit, a TAB between each two and none in them |
| DatabaseText.LineByLine | user/bin/herald/db.c:104-127 | a line of up to 510 characters is a record, cut at a carriage return, or passed over; a longer one is passed over; one with a zero byte is passed over with the line behind it |
| DatabaseText.UnendedLine | user/bin/herald/db.c:104-127 | what stands behind the last newline is no line |
| DatabaseText.FirstLoaded | user/bin/herald/db.c:92-131 | of more records than there is room for the first are loaded |
| Database.PutReadsBack | user/bin/herald/db.c:205-233 | a put of a clean entry, read back, is the map with that entry |
| Database.RemoveReadsBack | user/bin/herald/db.c:235-265 | a removal, read back, is the map without that id |
| Database.Store.Find | user/bin/herald/db.c:139-157 | the entry under an id, or none, if and only if no call fails |
| Database.Store.WriteAll | user/bin/herald/db.c:161-203 | interrupted or failing anywhere, the file is the old text or the new one; the new one if no call of the file system fails |
| Database.Store.Put | user/bin/herald/db.c:205-233 | inserts or replaces under the id and leaves every other id alone; succeeds if and only if no call of the file system fails, the id is not empty and a new one has room |
| Database.Store.Remove | user/bin/herald/db.c:235-265 | removes the id and leaves every other id alone; succeeds if and only if no call fails and the id is there; reports an absent one |
| DatabaseRuns.CallRepresents | user/bin/herald/db.c:205-265 | a call that takes effect keeps the file representing the map |
| DatabaseRuns.RunRepresents | user/bin/herald/db.c:205-265 | so does every sequence of calls, each taking effect or failing or cut off before |
| DatabaseRuns.Perform | user/bin/herald/db.c:205-265 | a call on the store leaves the old text or the one the call means; success means the latter, failure the former |
| DatabaseRuns.Run | user/bin/herald/db.c:205-265 | any calls on the store, whatever fails or is interrupted: the file ends representing the map after the calls that took effect, all successful ones among them, and all there are if no call of the file system fails |
| DatabaseRuns.EmptyRun | user/bin/herald/db.c:205-265 | from an empty file the database is a finite map of at most 256 ids |

## Left out

- Signature and hash checks, ext2 repair, installers, network clients, fonts, widgets, kernel probes: not
  modelled, mostly wrappers over code that is not in the repository or straight-line guards around I/O.
- Transactions: file modes, directories left behind, fsync timing, the order of directory entries, and the text
  form of journal and delete list (a path with a newline) are not modelled. Which stage directory belongs to which of
  several packages in one transaction is not distinguished.
- Kernel swap: a FAT shorter than its cluster count requires is excluded where files are moved through their chains
  (Fat16.ShortFatAccepted shows one); memory does not run out; reading the staged kernel is not modelled.
- Shell: what a command does (fork, exec, redirection, globbing, expansion) is the oracle's answer to the history
  of started commands; it may be any flow, status and functions. What the child of a subshell or of a stage runs
  is its text, not followed further. Grammar trees have no redirections in front of a simple command's first
  word. The limits on arguments, stages and loop words of one command are not modelled.
- ShellProof.ProgramMeans: for texts without definitions; a run that was out of turn may still end as its tree
  means. It takes break and continue to report 0, as the builtins do.
- ShellOrderly.OrderlyProgramMeans: for texts without definitions, and where functions, sourced files and expanded
  words leave nothing pending. The rules are sufficient; that they are necessary is proved for chains only, because
  it is false beyond them (ShellExposed.GroupEscapes).
- ShellRun.RunCase: the word of a case is expanded even when the case is skipped; expansion has no effect of its own
  in the model.
- ShellRun.RunArms: the same for patterns, after a match too.
- ShellRun.RunSimple: a pending flow is taken to stand while nothing is started; which builtins read it is left
  to the oracle.
- ArithmeticEvaluator.ArithEval: does not model overflow of C long, values are unbounded integers.
- Terminal: `glyph_term_resize`, rendering and selection are not modelled; overflow of a parameter's int is not
  modelled; the text of an OSC sequence is only compared with the admin prefix, as in the source.
- Drawing: a surface is addressed by row and column, not through its pitch; coordinates are unbounded integers;
  circles, gradients, outlines and blits are not modelled.
- Supervisor: the text of the command file, logging and the final shutdown are not modelled; a run has a given
  number of passes.
- Tar.Extract: a file is written in one step that succeeds or fails, so the contents of a half-written file
  after a failure and the retry after an interrupted write are not modelled; missing parent directories are
  created silently; the look-up of a single entry is not modelled.
- Database.Store.WriteAll: creating the parent directories and the length limit of the path are not modelled;
  rename is taken to be atomic.
- Resolver: the catalogue is a value, reading it from the verified lists is not modelled.
