# Verified model of a governed coding pipeline

This project models, in Dafny 4.11, the protocols and algorithms on which the
pipeline in `src/agentic` and the state keeping in `src/common` rest, and proves
what they promise over whole runs, interleavings and unbounded inputs.
`dafny verify dfyconfig.toml` checks everything.

| module | what it models |
|---|---|
| `Basics` | options, bytes, minimum, concatenation, the 64-bit limit |
| `ProposalTransaction` | staging, installing, rolling back and quarantining a multi-file proposal, while others write to the same files |
| `PlannerLoop` | the plan, patch and verify loop on top of it, its decision and its review list |
| `StarGlob` | the denied-read matcher that backtracks to the last star only |
| `ReadBudget`, `Retrieval`, `Edits` | what the planner is shown under character and token budgets, and the exact edits it may answer with |
| `RegistryLock` | the skills-registry lock and the versioned registry under it |
| `RunLifecycle` | the run record, its lease, and the commands that move it |
| `Redaction`, `AuditWriter`, `BoundedLog` | redaction, the queued writer and two-generation retention of the audit path |
| `AuthStore`, `AuthManager`, `AuthRuns` | accounts and sessions: the store's invariant, its operations, whole runs of them |
| `IdleWindow`, `Lockout`, `Bootstrap` | the throttled idle window, login lockout, first-run bootstrap |
| `SetupBounds` | the saturating setup-time bound |

Files, clocks, storage and the network are explicit. In the classes the surroundings
are fixed inputs, outside the reach of any method: `others(n)` is what other programs leave
on their turn `n`, `fails(n)` says whether file operation `n` fails, a database
commit is a parameter. Elsewhere they are steps that may be taken at any moment.
What the regex engine, the scanner, the hash function, the checks, `git` and `gh`
answer is an input. Times are real numbers. Processes are step systems, one step per
file-system or network call; objects that the source updates in place are classes.

## What holds only under a condition

Five things that the source says, or leaves a reader to conclude, are false in
general. Each has an input or a run that shows it, and the condition under which
it holds.

**The registry lock excludes.** The registry is described as protected by "a
cross-process lock directory with PID-aware stale reclaim"
(`src/agentic/registry.rs:1-3`), under which an apply is rebased on the latest
committed state (`src/agentic/registry.rs:305-330`). Token writes and releases
that finish inside the stale window do not give mutual exclusion. A reclaimer
takes the age of the lock directory in one call and reads the owner token in a
later one (`src/agentic/registry.rs:98-136`); if the directory changes hands in
between, it applies the old age to a new lock whose token is not written yet.
`RegistryLock.PromptnessAloneFails` is such a run: every token write and release
is prompt, two live processes hold the lock, and one of three committed applies
is lost. What matters is that no reclaimer condemns a lock whose owner is not
dead: with that every run excludes (`SoundRunsExclude`), and without it the next
steps can put two live processes inside (`FalseJudgementIsFatal`,
`CondemningAFreePathIsFatal`). `TimelyRunsExclude` gives a timing condition that
implies it. The lock also comes free again: a process that dies holding it blocks
nobody beyond the stale window (`DeadOwnersLockIsReclaimed`), unless a reclaimer died
behind the guard, which locks the registry for good (`DeadGuardLocksForGood`); the
error message asks for both directories to be removed by hand
(`src/agentic/registry.rs:147-153`).

**One pull request per run.** A run that "already has a pull request" is refused
(`src/agentic/run_store.rs:186-190`), and an indeterminate call is "deliberately
not retried" because "a retry can duplicate an accepted mutation"
(`src/agentic/writer.rs:386-401`). After a recorded URL or marker no publish runs
(`RunLifecycle.RunsMoveOn`). But a pull request can be opened of which the record
says nothing, in four ways (`RunLifecycle.Loses`): `gh` succeeds with empty output,
so that the record is saved without a URL; `gh` reports an error although the pull
request is there; the process dies with the outcome in hand; its save fails then.
`TwoPullsFromTheStart` gives, for each, a run from a fresh record to two pull
requests. `PullsAreAccountedFor` counts over every run: the pull requests opened are
as many as the steps at which one was lost in these ways, plus one when a URL or
marker is recorded or about to be, minus one when that marker stands for a call that
opened nothing. Hence at most one more was opened than were lost.

**Nobody else's write is overwritten.** A rollback stops where a "concurrent
change prevents safe rollback" (`src/agentic/workspace.rs:1094-1107`), and a test
promises to roll back "without overwriting" one (`src/agentic/workspace.rs:1211`);
`docs/CODING_PIPELINE.md:241-242` concedes that comparison and rename are separate
calls. `Workspace.InstallOverTheirs` and `Workspace.RestoreOverTheirs` are the loss:
whatever others put there on their turn between the two calls, the install or restore
goes ahead and replaces it. The condition is exact (`Workspace.ReplacesWhatWasChecked`):
a write replaces something other than what its check found if and only if, on that
very turn, others change that very path. At any other moment they may write what they
like. `Workspace.Apply` ties the tree it leaves to the old one, the others' turns and
the writes it lists, and all of these are installs and restores of planned files.

**A dead session stays dead.** Disabling an account revokes its sessions
(`src/common/auth_store.rs:400-402`), but loading does not check that it did
(`src/common/auth_sqlite.rs:29-67`): a store may hold an unrevoked, unexpired
session of a disabled account (`AuthManager.DormantStoreLoads`), which is refused
and accepted again once the account is enabled (`AuthRuns.DormantComesBack`). Any
other token that is not accepted is refused for good (`AuthRuns.RefusedForGood`),
so in a store without such a session every refusal is final
(`RefusedForGoodInGoodRuns`). Every store this program creates or migrates starts
without sessions and never comes to hold one (`AuthStore.StoresStayGood`).

**Failed password checks are spaced out.** The delays hold for logins
(`AuthRuns.FailedChecksAreSpacedOut`). Changing a password checks the current one
without looking at the lock, and counts nothing
(`src/common/auth_store.rs:448-462`): `AuthRuns.GuessByChanging` makes any number of
such checks at one instant.

## Model

| member | source | states |
|---|---|---|
| ProposalTransaction.BoundedReadDecidesEquality | src/agentic/workspace.rs:1072-1079 | a read cut one byte past the longest version equals an expected version exactly when the whole file does |
| ProposalTransaction.Workspace.Current | src/agentic/workspace.rs:1072-1079 | for preimage and replacement alike, the bounded read decides equality with the full content |
| ProposalTransaction.Workspace.Prepare | src/agentic/workspace.rs:1042-1070 | a fresh private pair holds the exact replacement and preimage; a failure leaves neither, unless removing them failed too |
| ProposalTransaction.Workspace.Install | src/agentic/workspace.rs:1081-1092 | goes ahead exactly when neither call fails and the read finds the preimage; then the tree is what the others' turn in between has left, with the replacement put in |
| ProposalTransaction.Workspace.InstallGated | src/agentic/workspace.rs:626-629 | the gate is asked again before every file; exactly a closed gate is reported as one, and then nothing is written |
| ProposalTransaction.Workspace.Rollback | src/agentic/workspace.rs:1094-1107 | restores exactly when neither call fails and the read finds the replacement; then the tree is what the others' turn in between has left, with the preimage put back; a failed one keeps the backup |
| ProposalTransaction.Workspace.Drop | src/agentic/workspace.rs:1110-1117 | the staging file goes, the backup only when nothing is installed, no other private file is touched |
| ProposalTransaction.Workspace.Validate | src/agentic/workspace.rs:570-619 | passes only proposals whose entries are admitted, sized, preconditioned and apart, whose contents one after another are no longer than the budget, and whose preimages match; without failures or interference it refuses nothing else |
| ProposalTransaction.Workspace.StageAll | src/agentic/workspace.rs:620-624 | every checked entry is staged with content and preimage under its own identifier, or the call stops at a failure |
| ProposalTransaction.Workspace.InstallAll | src/agentic/workspace.rs:625-631 | installs a prefix in order, and these are its only writes; undisturbed, the tree is the old one overlaid with exactly that prefix |
| ProposalTransaction.Workspace.RollbackAll | src/agentic/workspace.rs:632-637 | restores in reverse, and these are its only writes; what could not be restored is a prefix that still has its exact preimages on disk |
| ProposalTransaction.Workspace.DropAll | src/agentic/workspace.rs:1110-1117 | no private file of the call survives, except preimages of files still installed and those whose removal failed |
| ProposalTransaction.Workspace.Commit | src/agentic/workspace.rs:625-642 | applied means all installed, refused none left, quarantined some left and recoverable; the tree is the old one after the others' turns and the installs and restores listed |
| ProposalTransaction.Workspace.Apply | src/agentic/workspace.rs:562-647 | under interference at any point: the tree is the old one after the others' turns and the writes listed, each made on a tree in which its check had found the target as planned; what is left in place; recoverability after quarantine; no stray private files. Whatever is applied is within the budget, as the length of all contents one after another. With no failure or interference it applies exactly the acceptable, current proposals, changes exactly their targets, and never quarantines |
| ProposalTransaction.ProposedBytes | src/agentic/workspace.rs:616-619 | the running total is the length of all contents laid one after another |
| ProposalTransaction.Workspace.Rename | src/agentic/workspace.rs:1081-1107 | the others' turn between check and rename comes first, and whatever it leaves at the path is replaced |
| ProposalTransaction.Workspace.Pass | src/agentic/workspace.rs:1081-1107 | a turn is noted only with a write that its check allows and that makes the tree what it is |
| ProposalTransaction.Workspace.ReplacesWhatWasChecked | src/agentic/workspace.rs:1072-1107 | a write replaces something other than what its check found if and only if others change that path on the turn between the two |
| ProposalTransaction.Workspace.InstallOverTheirs | src/agentic/workspace.rs:1081-1092 | an install overwrites whatever others put there between its check and its rename |
| ProposalTransaction.Workspace.RestoreOverTheirs | src/agentic/workspace.rs:1094-1107 | so does a restore |
| ProposalTransaction.PlannedSince | src/agentic/workspace.rs:625-637 | every write in the history since the call began installs or restores a planned file |
| ProposalTransaction.JournalledSince | src/agentic/workspace.rs:625-637 | no write in the history is missing from the list of writes made |
| ProposalTransaction.WhatTheJournalLeaves | src/agentic/workspace.rs:625-637 | only installed targets were written; one still in place was last left with its replacement, every other one with its preimage |
| ProposalTransaction.LastLeftAt | src/agentic/workspace.rs:625-637 | the last write to a path in the journal decides what the transaction left there |
| ProposalTransaction.UndoLast | src/agentic/workspace.rs:1094-1107 | undoing the newest installed file gives the overlay of the older ones |
| ProposalTransaction.NextIsUntouched | src/agentic/workspace.rs:1081-1092 | installing the earlier files leaves the next one as it was found |
| PlannerLoop.Decide | src/agentic/real_repo_loop.rs:385-436 | each gate is raised for its own cause and no other, for all six; none exactly when the attempt is accepted; the quarantine gates exactly for findings, scope and budget |
| PlannerLoop.DecideInOrder | src/agentic/real_repo_loop.rs:384-436 | each gate is raised once, in contract order |
| PlannerLoop.FirstWrites | src/agentic/real_repo_loop.rs:441-465 | each path once, none added, none missing |
| PlannerLoop.AddNew | src/agentic/real_repo_loop.rs:441-465 | the inner loop keeps first occurrences in order |
| PlannerLoop.ChangedFiles | src/agentic/real_repo_loop.rs:441-465 | a path is on the list exactly when some iteration outside quarantine wrote it, once, and the paths stand in the order of their first writes |
| PlannerLoop.ReviewListIs | src/agentic/real_repo_loop.rs:441-465 | that order: whatever stands earlier was written by such an iteration before any of them wrote what stands later |
| PlannerLoop.CodeOfTheLast | src/agentic/real_repo_loop.rs:468-489 | an exhausted run is closed as failed in verification exactly when the last attempt's checks failed, as refused by the planner exactly when it wrote nothing and nothing was objected to, and as out of iterations exactly when a scan objected |
| PlannerLoop.Extended | src/agentic/real_repo_loop.rs:585-799 | coverage of all differences from the base survives one more iteration |
| PlannerLoop.WriteFiles | src/agentic/real_repo_loop.rs:688-700 | nothing is written when a scan objects; otherwise every changed path is reported, and left to itself an attempt leaves exactly the tree with its proposal entered, or the one it met; a quarantine means that an installed file is left in place with its preimage kept |
| PlannerLoop.Step | src/agentic/real_repo_loop.rs:585-760 | an attempt reports every path it changed, and its gates tell what happened: unparsable or failed apply, findings, scope, contents longer than the budget, and checks that fail on the very tree of the turn at which they ran; without a gate it wrote every proposed file and its checks passed on a tree in which the program has written nothing since; left to itself it is accepted, or breaks the loop off, exactly when the tree it meets and its checks say so |
| PlannerLoop.Verify | src/agentic/real_repo_loop.rs:702-717 | the report is that of the checks on the tree of a moment in the history, after which the program writes nothing |
| PlannerLoop.OverlayIsEntered | src/agentic/real_repo_loop.rs:688-700 | applying a proposal's plans is entering its files |
| PlannerLoop.Run | src/agentic/real_repo_loop.rs:468-799 | every path that differs from the base is on the review list of a finished run; every iteration's gates tell what happened in it, and so does the code an exhausted run is closed with; accepted means the last attempt wrote files, tripped no gate and passed its checks on the tree that is left, but for what others did since; left to itself the run ends with the first answer accepted on the tree it meets, or breaks off at the first that breaks it, on exactly the tree the attempts leave |
| StarGlob.MatchesIsDenotes | src/agentic/real_repo_loop.rs:158-187 | the recursive relation is the declarative one: a split of the name in which only stars stand for more than themselves |
| StarGlob.LoneStarMatchesAll | src/agentic/real_repo_loop.rs:158-187 | a lone star takes every name |
| StarGlob.LiteralMatchesItself | src/agentic/real_repo_loop.rs:158-187 | a pattern without a star takes itself and nothing else |
| StarGlob.DenotesConcat | src/agentic/real_repo_loop.rs:158-187 | one pattern after another takes exactly the names cut into two that they take |
| StarGlob.LiteralRun | src/agentic/real_repo_loop.rs:158-187 | a star-free run matches exactly when it is a prefix and the rest matches |
| StarGlob.SecondStarAbsorbsFirst | src/agentic/real_repo_loop.rs:164-169 | reaching another star, no choice for the earlier star needs to be reconsidered |
| StarGlob.DeadEnd | src/agentic/real_repo_loop.rs:175-181 | at a mismatch the alignment under trial is lost for good |
| StarGlob.NameExhausted | src/agentic/real_repo_loop.rs:183-186 | at the end of the name only the alignment in hand is left |
| StarGlob.Match | src/agentic/real_repo_loop.rs:158-187 | returns true exactly when the declarative relation holds, for every name and pattern, and terminates |
| ReadBudget.ClippedWindowIsSlice | src/agentic/edits.rs:73-78 | a clipped line window is a contiguous slice of the file |
| ReadBudget.RowsAreLines | src/agentic/edits.rs:73-77 | each row is one line, and only the last may lack its newline |
| ReadBudget.WindowIsBetween | src/agentic/edits.rs:73-77 | a window is what stands between the rows before its first and the rows after its last |
| ReadBudget.WindowPastTheEnd | src/agentic/edits.rs:73-77 | one that ends past the last row is all that stands behind the rows before it; one that starts there is empty |
| ReadBudget.TakeOne | src/agentic/edits.rs:43-99 | a selector shows something exactly when it is proper, readable, unchanged and non-empty; what it shows is the window clipped to the file limit and what remains |
| ReadBudget.Follow | src/agentic/edits.rs:39-62 | nothing is shown past the budget or twice for one file |
| ReadBudget.Collect | src/agentic/edits.rs:29-102 | total and per-file limits hold, each excerpt is an honest slice, and the first showable window of every file is shown in full up to the file limit unless the whole budget is used |
| ReadBudget.NotYetServed | src/agentic/edits.rs:59-62 | while budget remains, a file without a snapshot has had no showable selector |
| Retrieval.ExcerptStart | src/agentic/repo_retrieval.rs:169-194 | the window holds the first best-scoring row with at most half the lines and characters before it, and could not start earlier |
| Retrieval.ClippedWindowShowsRow | src/agentic/repo_retrieval.rs:138-145 | less than the clip before a row means the clipped window still shows that row |
| Retrieval.Excerpt | src/agentic/repo_retrieval.rs:138-148 | a hit yields an excerpt exactly when the file is as indexed, and the excerpt takes in its best row |
| Retrieval.OverheadSuffices | src/agentic/repo_retrieval.rs:131-133 | the bytes reserved beforehand are enough for every block that can be rendered and its separator |
| Retrieval.RenderedBytesAreCounted | src/agentic/edits.rs:85-88 | what is counted for a block is exactly the length in UTF-8 of the text that is sent |
| Retrieval.Room | src/agentic/repo_retrieval.rs:133-136 | the characters set aside for a hit fit both budgets, and one more would not |
| Retrieval.Offer | src/agentic/repo_retrieval.rs:138-150 | a block is charged what it renders to, never more than is left, and shows the beginning of the window its trace entry names |
| Retrieval.LookAt | src/agentic/repo_retrieval.rs:123-165 | one round leaves out a hit exactly when it has changed or was flagged, and keeps the accounts balanced |
| Retrieval.Retrieve | src/agentic/repo_retrieval.rs:120-167 | characters and tokens spent and left always balance, each reservation is what the excerpt renders to, the context stays, every hit shown shows its best row; of the hits looked at exactly the changed and flagged ones are left out, and the loop ends early only without room |
| Edits.FirstIsLastMeansOnce | src/agentic/edits.rs:168-170 | first and last position agree exactly when the text occurs once, overlaps included |
| Edits.ReplacementIsExact | src/agentic/edits.rs:163-171 | the one occurrence lies inside the displayed excerpt; the result has the same prefix, the new text and the same suffix, and nothing outside the excerpt changes |
| Edits.EditsUndo | src/agentic/edits.rs:171-171 | an edit is undone by its reverse whenever that is unambiguous in turn |
| Edits.ApplyEdit | src/agentic/edits.rs:152-171 | an edit goes through exactly when its path is selected, its hash current, its old text shown and unique; the result is the exact edit |
| Edits.ParseEdits | src/agentic/edits.rs:150-174 | accepted exactly when every edit is allowed and all destinations fold apart; files and originals then have the same keys and hold each exact edit beside its original |
| Edits.ParseBlocks | src/agentic/edits.rs:175-189 | accepted exactly when every existing target was shown completely; originals have the keys of the files and say what must still be there |
| Edits.CollectedIsShown | src/agentic/edits.rs:29-102 | whatever collection returns is a context the edits may be judged against |
| RegistryLock.StepKeepsInv | src/agentic/registry.rs:78-161 | every step that is not a false judgement keeps the lock invariant: one owner, its token, the guard, and a registry nobody else changes |
| RegistryLock.InvGivesExclusion | src/agentic/registry.rs:138-153 | the invariant implies at most one live holder |
| RegistryLock.SoundRunsExclude | src/agentic/registry.rs:78-161 | in every run without a false judgement at most one live process holds the lock, versions rise by one, each committed apply has its history entry and none is lost |
| RegistryLock.TimelyJudgementIsSound | src/agentic/registry.rs:78-89 | prompt token writes and a directory unchanged since its age was taken make a condemning judgement sound |
| RegistryLock.TimelyRunsAreSound | src/agentic/registry.rs:78-136 | in every timely run no judgement is false |
| RegistryLock.TimelyRunsExclude | src/agentic/registry.rs:305-330 | hence timely runs exclude and lose no apply |
| RegistryLock.AbandonedLockIsReclaimed | src/agentic/registry.rs:78-136 | with the guard free, any process by itself takes over a lock older than the stale window that has no token or a dead process's, and leaves everything else alone |
| RegistryLock.DeadOwnersLockIsReclaimed | src/agentic/registry.rs:78-136 | so a process that dies holding the lock blocks nobody beyond the stale window |
| RegistryLock.FreeLockIsTaken | src/agentic/registry.rs:138-145 | a free lock is taken in two steps |
| RegistryLock.KeptLockIsLeftAlone | src/agentic/registry.rs:78-153 | however often a process tries and however long it waits, it does not get or touch a lock with a live owner's token, nor one still within the window |
| RegistryLock.HolderAppliesAndReleases | src/agentic/registry.rs:155-330 | a holder left to itself adds one version with one history entry of its own and frees the lock |
| RegistryLock.ReleaseSparesOthers | src/agentic/registry.rs:91-161 | a release leaves a lock with another process's token alone |
| RegistryLock.TokenRefreshesDirectory | src/agentic/registry.rs:66-161 | writing a first token and removing one make the directory young again, and nothing else changes a lock that stays |
| RegistryLock.DeadGuardLocksForGood | src/agentic/registry.rs:98-153 | the guard must be free for that: a reclaimer that dies behind it, with the old owner dead, leaves the registry locked in every continuation |
| RegistryLock.FalseJudgementIsFatal | src/agentic/registry.rs:98-136 | every false judgement against a live owner can be continued to two live holders |
| RegistryLock.CondemningAFreePathIsFatal | src/agentic/registry.rs:98-136 | so can condemning a path that has become free |
| RegistryLock.PromptnessAloneFails | src/agentic/registry.rs:98-136 | a run with prompt token writes and releases that ends with two holders and a lost apply |
| RunLifecycle.StepIsPolite | src/agentic/commands.rs:478-594 | every step takes only a free lease, saves only under its own, replaces the record only by a successor, and sends out only what the record on disk permits |
| RunLifecycle.OutsideStep | src/agentic/commands.rs:699-786 | the call of a push sends at most the object recorded at approval, that of a publish at most one pull request, and both leave the record alone |
| RunLifecycle.CommandStep | src/agentic/commands.rs:866-875 | a command acts only on a record reloaded and guarded under the lease |
| RunLifecycle.WorkerStep | src/agentic/commands.rs:478-594 | the worker saves only the record it created or last saved |
| RunLifecycle.ReconcileSaveStep | src/agentic/run_store.rs:207-226 | only a running record reloaded under a released lease becomes interrupted |
| RunLifecycle.OthersUnaffected | src/agentic/run_store.rs:197-226 | a polite step leaves what every other process knows intact |
| RunLifecycle.StepKeepsInv | src/agentic/commands.rs:699-1002 | every step of every process, crashes included, keeps the invariant |
| RunLifecycle.RunsMoveOn | src/agentic/run_store.rs:138-226 | over every interleaving: status moves along the graph, every save builds on the one before, approved object and URL never change, no push after a recorded push, no publish after a recorded URL |
| RunLifecycle.ReachableRecords | src/agentic/commands.rs:699-786 | a URL implies pushed, pushed implies an approved object, and everything pushed is that object |
| RunLifecycle.PushedMeansSent | src/agentic/commands.rs:699-736 | in every run a record says pushed only after its approved object was sent |
| RunLifecycle.RecordedMeansAnswered | src/agentic/commands.rs:478-868 | over every run, whatever the record holds was answered in that run to the step that asks for it: the candidate to the loop, the approved commit to an approve command, the push to a push command, the URL or its marker to a publish command |
| RunLifecycle.StatusMeansDone | src/agentic/commands.rs:478-1002 | and each status was reached by the step that means it |
| RunLifecycle.PushedMeansCommitted | src/agentic/commands.rs:699-868 | every object pushed in any run is a commit that an approve command of that run was answered with |
| RunLifecycle.FitGoesThrough | src/agentic/commands.rs:699-1002 | with the lease free and a record fit for it, a command by itself records exactly what it was answered and sends exactly that |
| RunLifecycle.UnfitIsRefused | src/agentic/run_store.rs:138-195 | with a record that is not fit, nothing it does by itself changes or sends anything |
| RunLifecycle.HolderIsLeftAlone | src/agentic/run_store.rs:197-226 | while another process holds the lease, nothing it does by itself touches the record or leaves the machine |
| RunLifecycle.LoopIsRecorded | src/agentic/commands.rs:478-594 | the worker records how its loop ended and gives up its lease |
| RunLifecycle.DeadRunIsReconciled | src/agentic/run_store.rs:207-226 | a run that says running though nobody holds its lease becomes interrupted, and nothing else about it changes |
| RunLifecycle.DeadRunIsDiscarded | src/agentic/commands.rs:970-1002 | hence it can be discarded |
| RunLifecycle.NoLeaseFileNoReconciling | src/agentic/run_store.rs:207-226 | without a lease file nothing is reconciled |
| RunLifecycle.PullsAreAccountedFor | src/agentic/commands.rs:738-786 | over every run, pull requests opened equal the steps at which one was lost, plus one recorded or about to be, minus one when that marker stands for a call that opened nothing; so at most one more was opened than were lost |
| RunLifecycle.StepBalance | src/agentic/commands.rs:738-786 | at every step a pull request opened comes to be recorded or about to be, or is lost, and one that was so stays so or is lost |
| RunLifecycle.LostUrlAllowsSecondPull | src/agentic/commands.rs:738-786 | in whichever of these ways the first outcome is lost, the next publish command opens a second pull request |
| RunLifecycle.TwoPullsFromTheStart | src/agentic/commands.rs:738-786 | for each of them a run from a fresh record to two pull requests |
| Redaction.ComponentEnd | src/common/audit.rs:203-219 | a component ends at the first seam no match bridges |
| Redaction.Lead | src/common/audit.rs:199-199 | the longest match at a start, the earliest rule on a tie |
| Redaction.SortedHeadIsLead | src/common/audit.rs:199-199 | the stable sort puts that match first among those with its start |
| Redaction.OpenIntervalIsComponent | src/common/audit.rs:203-219 | the merged interval is exactly one component when it is flushed |
| Redaction.OpenLabelIsLabel | src/common/audit.rs:205-210 | its label is the secret one exactly when the component contains a secret match |
| Redaction.ComponentStartHasLead | src/common/audit.rs:203-219 | a component starts where a match starts, so it has a label |
| Redaction.LeadIsNamed | src/common/audit.rs:187-199 | the lead is the longest match that starts there, and of several the one found first |
| Redaction.WhatAByteBecomes | src/common/audit.rs:187-227 | byte by byte from the matches as found: a byte outside all of them stays, the start of a component becomes the secret label or its lead's, the rest goes |
| Redaction.NonEmpty | src/common/audit.rs:188-195 | exactly the non-empty matches |
| Redaction.Filter | src/common/audit.rs:188-195 | drops empty matches and keeps rule order |
| Redaction.SortSpans | src/common/audit.rs:199-199 | sorted by start, longest first, the same matches, rule order on ties |
| Redaction.Absorb | src/common/audit.rs:203-219 | one round of the merge loop keeps the output equal to the reference up to the last closed component |
| Redaction.Finish | src/common/audit.rs:220-226 | flushing the last interval and the tail completes the reference |
| Redaction.Redact | src/common/audit.rs:187-227 | the output is the pointwise reference: uncovered bytes survive, each connected component becomes one label, and no slice is out of order |
| Redaction.RuleOrderOnlyPicksAmongEqualSpans | src/common/audit.rs:199-219 | reordering the rules changes at most which of two non-secret labels of equal extent is shown |
| AuditWriter.StepKeepsInv | src/common/audit.rs:277-289 | every step keeps the queue bounded, the lines partitioned and every barrier behind exactly the lines sent before it |
| AuditWriter.RunsKeepInv | src/common/audit.rs:277-289 | so does every run |
| AuditWriter.EveryLineInOnePlace | src/common/audit.rs:438-490 | each submitted line is in exactly one of dropped, inlined, done, in hand, queued, left behind; the queue stays within its bound |
| AuditWriter.WriterFollowsQueueOrder | src/common/audit.rs:277-289 | lines are finished in queue order without skipping one |
| AuditWriter.EveryPlaceHasItsReason | src/common/audit.rs:469-489 | over every run only a full queue drops a line, only a line submitted after the writer was gone is appended by its caller, and a line counts as written exactly when the sink said so |
| AuditWriter.WriterDrains | src/common/audit.rs:277-289 | left to itself the writer finishes every line that entered the queue and answers every barrier in it |
| AuditWriter.AnsweredFlushIsDrained | src/common/audit.rs:361-381 | an answered flush means every line queued before it has been written or refused |
| BoundedLog.AppendHolds | src/common/bounded_log.rs:93-109 | one append moves whole records between the generations and loses at most the oldest file |
| BoundedLog.NewestRecordsAreHeld | src/common/bounded_log.rs:59-111 | for every append sequence the files hold exactly the newest records, each file within the bound |
| BoundedLog.HeldIsSuffix | src/common/bounded_log.rs:59-111 | previous followed by current is a suffix of all accepted records cut at a record boundary, of more than one bound's worth once anything was dropped |
| BoundedLog.Log.Rotate | src/common/bounded_log.rs:94-107 | a failure or crash between any two steps of a rotation keeps the suffix property |
| BoundedLog.Log.MakeRoom | src/common/bounded_log.rs:79-107 | afterwards the record fits, behind the old content or in a fresh file behind which the old content is kept |
| BoundedLog.Log.Append | src/common/bounded_log.rs:59-111 | what the files hold is always the newest part of everything appended; without failures only an oversized record is refused, and the result is that of the reference |
| BoundedLog.Log.WriteRecord | src/common/bounded_log.rs:108-110 | a failed write leaves at most a torn prefix of its record at the end |
| BoundedLog.Log.constructor | src/common/bounded_log.rs:59-111 | an empty log |
| AuthStore.GoneStaysGone | src/common/auth_store.rs:554-592 | a session that is revoked, expired or deleted at one operation is so after it, at every later time |
| AuthStore.NothingDormant | src/common/auth_store.rs:400-402 | where disabling has always revoked, no session is refused merely for its account |
| AuthStore.RotationEvolves | src/common/auth_store.rs:160-188 | rotating a shipped credential on opening keeps the store valid and revives no session |
| AuthStore.StoresStayGood | src/common/auth_sqlite.rs:223-279 | from a store without sessions on, no operation, rotation or reopening leaves a disabled account an unrevoked session |
| AuthStore.AnotherAdmin | src/common/auth_store.rs:342-347 | when the guard lets a change through, another enabled administrator remains |
| AuthStore.LastMeansOnly | src/common/auth_store.rs:342-347 | the count behind the guard means that nobody else is an enabled administrator |
| AuthStore.Expired | src/common/auth_store.rs:222-227 | a session lives within its deadline, absolute and idle limits, the restricted ones for an account that must change its password |
| AuthStore.Revoked | src/common/auth_store.rs:627-633 | revokes the account's rows, changes nothing else in them and nobody else's |
| AuthStore.Pruned | src/common/auth_store.rs:483-484 | drops exactly the rows that are revoked or past their deadline or idle limit |
| AuthStore.PruningKeepsLive | src/common/auth_store.rs:483-484 | pruning never drops a session that would validate |
| AuthStore.OneAccountEvolves | src/common/auth_store.rs:349-446 | changing one account past the guard keeps the store valid and no dead session revives |
| AuthStore.CreationEvolves | src/common/auth_store.rs:293-321 | so does creating one |
| AuthStore.DeletionEvolves | src/common/auth_store.rs:367-380 | so does deleting one with its sessions |
| AuthStore.SessionEvolves | src/common/auth_store.rs:480-509 | opening a session adds one live session, within the bound, and revives none |
| AuthStore.OneRowEvolves | src/common/auth_store.rs:577-584 | revoking a row, or sliding it while live, revives none |
| AuthStore.RevokedArePruned | src/common/auth_store.rs:448-484 | no revoked session of the account survives a password change |
| AuthManager.Manager.constructor | src/common/auth_store.rs:134-205 | any store that loading accepts: memory equals the committed database |
| AuthManager.Manager.Persist | src/common/auth_store.rs:230-234 | commit before visible: memory and database change together or not at all |
| AuthManager.Manager.CreateUser | src/common/auth_store.rs:293-321 | succeeds exactly below the user limit for a new name when storage commits; keeps the store invariant |
| AuthManager.Manager.SetRole | src/common/auth_store.rs:349-365 | refuses exactly the last enabled administrator's demotion; revokes the account's sessions |
| AuthManager.Manager.DeleteUser | src/common/auth_store.rs:367-380 | refuses exactly the last enabled administrator; removes account and sessions together |
| AuthManager.Manager.SetDisabled | src/common/auth_store.rs:382-404 | refuses exactly disabling the last enabled administrator; disabling revokes, enabling clears the lock, and nothing else about the account changes |
| AuthManager.Manager.SetPassword | src/common/auth_store.rs:430-446 | renews the credential and revokes every session of the account |
| AuthManager.Manager.ChangePassword | src/common/auth_store.rs:448-478 | succeeds exactly for an enabled account, the right old and a different new password, room for a session and a commit, locked or not; the account has the new credential and no restriction or lock; every older session of it is gone, and of the others exactly the stale ones; the new session has the full absolute limit |
| AuthManager.Manager.Enter | src/common/auth_store.rs:480-509 | account change and new session are committed at once or not at all; the session is created now and expires after the absolute limit, the restricted one if the password must be changed; of the others exactly the stale ones go |
| AuthManager.Manager.Login | src/common/auth_store.rs:513-550 | while locked nothing is checked or changed; a failed check is counted, with the delay that count imposes; success exactly when unlocked, enabled, right, with room and a commit, and then count and lock are reset and one session is added, with the limits of the account's state |
| AuthManager.Manager.ValidateSession | src/common/auth_store.rs:554-592 | accepts exactly live sessions, unless a write it needs fails; field by field: unrevoked, of an enabled account, before its deadline and within the absolute and idle limits, which are the restricted ones for an account that must change its password |
| AuthManager.Visited | src/common/auth_store.rs:564-584 | the row is revoked exactly when a limit has passed, and slid exactly when it has not and a hundredth of the idle limit or a minute has gone by |
| AuthManager.Manager.Logout | src/common/auth_store.rs:594-613 | revokes exactly an existing unrevoked session, committed before visible |
| AuthManager.OpenSession | src/common/auth_store.rs:480-509 | refuses exactly when pruning leaves no room; otherwise the pruned rows and one live row |
| AuthManager.VisitedIsThrottled | src/common/auth_store.rs:564-584 | the stored row follows the throttled idle window, with the earlier of the two absolute limits as deadline |
| AuthManager.DormantRevives | src/common/auth_store.rs:382-404 | a session refused only because its account is disabled is accepted as soon as that is enabled |
| AuthManager.DormantStoreLoads | src/common/auth_sqlite.rs:29-67 | a store with such a session passes every check made on loading |
| AuthManager.TouchMoves | src/common/auth_store.rs:569-584 | a write that is due really changes the row |
| AuthRuns.Perform | src/common/auth_store.rs:293-613 | every operation keeps the store invariant, revives no session, and changes a lock only by a counted failure or a reset |
| AuthRuns.DeathIsPermanent | src/common/auth_store.rs:349-633 | over every run a token that is revoked, expired or deleted stays so unless it is given out anew |
| AuthRuns.RefusedForGood | src/common/auth_store.rs:554-633 | a token not accepted, and not merely dormant, is refused by every later request |
| AuthRuns.DormantComesBack | src/common/auth_store.rs:382-404 | that condition is exact: one request brings a dormant token back |
| AuthRuns.GoodRunsStayGood | src/common/auth_store.rs:293-633 | a run that starts without a dormant session never has one |
| AuthRuns.RefusedForGoodInGoodRuns | src/common/auth_store.rs:554-633 | in such a run every refused token is refused for good |
| AuthRuns.LockFollowsTries | src/common/auth_store.rs:513-550 | between resets of an account, whatever else is requested, its stored lock and the checks made are those of the wrong logins alone |
| AuthRuns.FailedChecksAreSpacedOut | src/common/auth_store.rs:513-550 | over every run, between resets of an account the m-th failed login check comes no earlier than the first plus the sum of the earlier delays |
| AuthRuns.GuessByChanging | src/common/auth_store.rs:448-462 | a wrong password change checks the password, locked or not, and leaves lock and store alone, any number of times at one instant |
| AuthRuns.Serve | src/common/auth_store.rs:293-633 | any sequence of requests, storage failing anywhere, keeps memory equal to the database, an enabled administrator, sessions of existing accounts, and both bounds, and is a run to which the two lemmas apply |
| IdleWindow.ThrottledRefinesExact | src/common/auth_store.rs:217-228 | the throttled store accepts only what the exact one accepts, and its recorded activity lags by less than the touch interval |
| IdleWindow.BusySessionsAgree | src/common/auth_store.rs:554-592 | the two agree whenever gaps are shorter than the idle limit minus the interval |
| IdleWindow.LongGapMayDisagree | src/common/auth_store.rs:574-584 | beyond that gap the throttled store may end a session early |
| IdleWindow.TouchInterval | src/common/auth_store.rs:214-218 | a hundredth of the idle limit or a minute, whichever is shorter |
| Lockout.ExponentCapIsInvisible | src/common/authn.rs:225-231 | the cap of 32 on the exponent never changes a delay |
| Lockout.DelayIsMonotoneAndBounded | src/common/authn.rs:225-231 | more failures never mean a shorter delay, and none exceeds 900 seconds |
| Lockout.DelaysDouble | src/common/authn.rs:225-231 | four failures are free, the fifth costs two seconds, and each one after it doubles the delay up to 900 |
| Lockout.WaitInTotal | src/common/authn.rs:225-231 | the sum of the delays in plain numbers |
| Lockout.CountCeilingIsInvisible | src/common/auth_store.rs:513-550 | nor does the saturation of the 32-bit failure count |
| Lockout.AfterChecks | src/common/auth_store.rs:513-550 | count and lock after any attempts are those of the checks made, and neighbouring checks are a delay apart |
| Lockout.CheckedOnceTheDelayHasPassed | src/common/authn.rs:225-242 | an attempt gets its password checked exactly when the delay of the checks before it has passed |
| Lockout.ChecksAreSpacedOut | src/common/authn.rs:225-242 | for wrong logins spread over time in any way, the m-th check comes no earlier than the first plus the sum of the earlier delays |
| Bootstrap.StepKeepsInv | src/common/auth_sqlite.rs:207-295 | every durable step, crash and deletion keeps the code readable, the recovery copy identical and an initialized store from being made anew |
| Bootstrap.RunsKeepInv | src/common/auth_sqlite.rs:207-295 | so does every run |
| Bootstrap.NoUnknownSetupCode | src/common/auth_store.rs:160-188 | whenever the database holds a never-replaced setup-code administrator, the code file holds that code; a migrated home keeps an identical copy |
| Bootstrap.OpeningComesTo | src/common/auth_sqlite.rs:207-295 | an opening that is not interrupted, from every home: a store that is there is served, with a shipped credential replaced by a setup code; a lost one is refused; a fresh home gets a setup code in database and file; a sound legacy file is migrated with a copy, any other refused |
| Bootstrap.RecordStays | src/common/auth_store.rs:160-188 | over every run in which the database is not deleted, a setup code or an own password is replaced by nothing but a new password |
| Bootstrap.PasswordForgetsCode | src/common/auth_store.rs:430-446 | after a new password the code file is gone |
| Bootstrap.LostDatabaseIsRefused | src/common/auth_sqlite.rs:207-295 | once the marker is durable, a missing database is refused at every later opening |
| SetupBounds.SaturatedSum | src/agentic/config.rs:289-313 | below the early exit the result is the true sum cut at the 64-bit maximum |
| SetupBounds.DecidesAsTheTrueSum | src/agentic/config.rs:371-378 | at or above 900 agrees with the true sum for every timeout and retry count |
| SetupBounds.RefusalIsMonotone | src/agentic/config.rs:371-378 | raising either input never turns a refused pair into an accepted one |
| SetupBounds.BackoffGrows | src/agentic/gh_client.rs:40-42 | more retries never sleep less in total |
| SetupBounds.BackoffSumIs | src/agentic/gh_client.rs:40-42 | the sleeps in plain numbers: 2, 4, 8 and 16 seconds, and 30 for each retry after the fourth |
| SetupBounds.TrueSumIs | src/agentic/config.rs:289-313 | the true sum in plain numbers |

## Left out

- Path jail, symlink, permission and capability-directory handling in the clone: the verdict is the `admitted` input of an entry.
- Directories that a proposal creates for new files may remain after it is refused; directories are not part of the tree model.
- A crash in the middle of a proposal: the source calls the transaction not crash-atomic, and nothing is claimed about one.
- Error texts and which of several failing conditions is reported, except where an outcome names its fault.
- `extract_read_requests`, `apply_model_read_request`, `parse_file_blocks` and the markers and JSON around an edits response: the planner's answer enters as the edits, blocks and selectors parsed from it.
- Regular expressions, Unicode folding, the injection and code-shape scans, SHA-256, scrypt and token generation: match spans, folded names, scan verdicts, hashes and fresh tokens are inputs.
- Tantivy indexing and ranking: only the selection and budget loop after the hits is modelled; row scores are inputs, and the token budget is at most the 8192 that configuration loading allows, without which the best row could be clipped away.
- `git`, `gh` and HTTP calls: their outcomes are nondeterministic answers, which also say whether a failed or indeterminate call took effect.
- `unified_diff`, configuration and YAML tables, `lexical_normalize`, `resolve_data_path`, setup-code grouping, and redaction inside nested JSON values are not modelled.
- The clock is read before the account store's lock is taken, so two requests could be served with their times exchanged; the runs modelled serve requests in the order of their times.
- A registry token write that fails is not modelled; nor is PID reuse.
- A failed login whose count the database refuses to store is answered as a storage error and is not among the failed checks that the rate limit counts.
- Restoring a deleted account database by hand, and the test-only `require_password_change`, are not modelled.
- The check of timestamps, names and password records in `validate`: only the counts, the administrator and the session owners are modelled.
- Floating-point rounding of times: times are real numbers.
- The desktop shell, the panels, the Python scripts and the server.
