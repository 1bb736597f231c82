# A verified model of the repository's coordinators and reports

The scripts of this repository coordinate work whose effects they cannot take back: they create pull
requests, issues and comments on GitHub, edit labels, make directories, delete branches, and supervise
process trees. They follow one discipline. An intent is made durable, the effect is performed once, its
reply may be lost, and only an observation resolves the intent. This project models that discipline,
and proves what it promises over whole runs: any number of crashes, lost replies, refusals, retries and
interfering actors, in any order. Beside it stand models of the scripts that compute something exact: the
preflight's graph passes, the pull-request table, the paragraphs of the sweep, the fold of test records,
the merge of two triage documents, the token ledger and the layout of the telemetry corpus.

`dafny verify dfyconfig.toml` verifies all of it.

## How the models are built

A coordinator is modelled twice. Its *protocol* (`AdapterJournal`, `TriageProtocol`, `WatchProtocol`,
`ReservationProtocol`, `CleanupProtocol`, `ProcessTree`) is a transition system: the durable state, the
state in memory, the outside world, the events, and `Legal(es)`, which says which sequences of events are
runs. The theorems quantify over every run. The *code* (`Adapter`, `Triage`, `MergeWatch`, `Reservation`,
`Cleanup`, `GateOwner`) is a class whose methods follow the script step by step. What the environment does
comes from a script of answers that may say anything at any point: success, a refusal before the effect, a
failure after it, an unknown outcome, the end of the process, and, where others share the state, what they
did just before or meanwhile. Every method keeps `Valid()`: what has happened so far is a run of the
protocol. So every theorem about runs holds of the code, whatever the environment does; each `Lifetime`
method says so for a whole history of calls and restarts.

The computing scripts are modelled by functions with lemmas, and by methods with loops where the source
loops, each proved against an independent definition.

| files | about |
|---|---|
| `ProcessTree`, `GateOwner` | scripts/gate-owner.py |
| `AdapterJournal`, `Adapter` | scripts/scenario-github-adapter.py |
| `WatchProtocol`, `MergeWatch` | scripts/scenario-merge-watch.py |
| `TriageProtocol`, `Triage`, `TokenLedger`, `Paragraphs` | scripts/backlog-triage.py |
| `Labels` | scripts/backlog-check-triage.py, scripts/backlog-triage.py |
| `ReservationProtocol`, `Reservation`, `CleanupProtocol`, `Cleanup`, `Lineage` | scripts/scenario-git-workspace.py |
| `Preflight` | scripts/task-preflight.py |
| `PrFigures`, `PrTable`, `PrBlock` | scripts/pr-lines.py |
| `TestRecords`, `NextestGate` | scripts/ci-step.py, scripts/nextest-gate.py |
| `CorpusLayout`, `CorpusSegment`, `Corpus` | scripts/telemetry-corpus.py |
| `Basics`, `Names` | what several of them share |

## Where a promise does not hold as stated

- docs/issue-triage-runner.md:164-165 says that a refusal on a later attempt cannot abort an earlier
  unresolved intent. The label phase checks that (scripts/backlog-triage.py:1329), the comment phase does
  not (scripts/backlog-triage.py:1344-1346). For the *creation* of a comment it makes no difference, and at
  most one is ever created. For an *edit* it does. `Triage.EditFenceLost` runs `publish` into it: one
  generation is published, the reply to the next one's edit is lost, the process ends, and the next attempt
  is refused just before it would write; no intent is left, and an auxiliary write is free to go.
  `Triage.LoseFence` does the same from every state in which a generation is ready to edit a journaled
  comment. The check of the label phase would keep the fence (`TriageProtocol.CarefulAbortsKeepEditFence`),
  and none that is weaker would (`TriageProtocol.OpenedBeforeMayCoverAnEdit`).
- The daily cap of the token ledger holds for every day as long as no settled Task is later reported to
  have used more. `TokenLedger.RiseBreaksTheCap` is a history in which one is, and `RiseNeedsRoom` says
  exactly when such a report stays within the cap.
- The error budget of the merge watcher bounds the failures on record, not those that happened: a process
  that dies before it has saved its failure starts again with the old count
  (scripts/scenario-merge-watch.py:558-563). `MergeWatch.FailuresUncounted` runs the watcher so: as many
  failures as polls, and none on record. No run has more (`WatchProtocol.BudgetsCountWhatHappened`), so the
  error budget bounds the failures exactly if it is no smaller than the poll budget
  (`FailuresWithinErrorsExactly`). The poll budget does bound the passes that asked.
- A staging directory that somebody replaces between its creation and the first look at it is journaled as
  owned and published: `Reservation.SwappedBeforeLook`. `ReservationProtocol.JournaledIsOwnExactly` says
  exactly when the journaled directory is own.
- A completed cleanup does not mean that no owned worktree stands: one that somebody moved away while its
  removal was marked counts as cleaned and may come back (`Cleanup.CompletedAndStanding`). A member that
  was removed never stands again (`CleanupProtocol.CompletionMeansGone`).
- The adapter keeps the receipt a reply names before it compares anything. If that names another object the
  record is never done and never failed (`AdapterJournal.MisnamedIsNeverDone`); it never counts as done under
  it.
- The lines block reads back exactly when its total is below 999,500 and every name is on one line, trimmed,
  and without a `|` after an odd run of backslashes (`PrBlock.RoundTrip`).
- A shared blob of the corpus belongs to two different runs exactly when there are at least two runs
  (`CorpusLayout.SharedAcrossRuns`); the generator refuses fewer.

## Model

| member | source | states |
|---|---|---|
| AdapterJournal.AtMostOneMutationPerObject | scripts/scenario-github-adapter.py:765-769 | over every run with crashes and lost replies, at most one mutation is ever dispatched for a subject and revision, whatever intents ask for it |
| AdapterJournal.PhaseTellsDispatch | scripts/scenario-github-adapter.py:843-850 | what a durable phase proves: a failed or prepared record never reached GitHub, a done one did |
| AdapterJournal.RunsOnlyAdvance | scripts/scenario-github-adapter.py:686-732 | along every run a durable record only advances: dispatched never returns to prepared or failed, done and failed stay, requests never change, and a receipt once kept is never replaced |
| AdapterJournal.SavedJournalsLoadAndFit | scripts/scenario-github-adapter.py:366-401 | every journal a run ever saves is accepted by `load` and within the state limit |
| AdapterJournal.NextSaveFits | scripts/scenario-github-adapter.py:680-684 | after any run, the next phase change of any admitted record encodes within the limit: a settlement never fails for size |
| AdapterJournal.AdmissionKeepsRoom | scripts/scenario-github-adapter.py:420-428 | the reservation checked at admission leaves room for every completion that is still to come |
| AdapterJournal.SettlingFits | scripts/scenario-github-adapter.py:311-316 | settling one record uses no more than its own reservation, so the room of the others is untouched |
| AdapterJournal.OnlyOwnPasses | scripts/scenario-github-adapter.py:571-604 | whatever others create or edit on GitHub, an object that passes the comparison of author, title, exact body and branches was created for this very request |
| AdapterJournal.BodyTellsIntent | scripts/scenario-github-adapter.py:560-561 | two requests with the same marked body have the same intent and digest |
| AdapterJournal.ReceiptIsOwnObject | scripts/scenario-github-adapter.py:686-728 | though a reply may name anything and is kept before it is compared, the receipt of a done publication or follow-up names the one object that its own mutation created, and no other object has that number |
| AdapterJournal.MisnamedIsNeverDone | scripts/scenario-github-adapter.py:789-793 | a record that has kept another object's receipt stays dispatched for ever |
| AdapterJournal.NotificationIsOfItsPublication | scripts/scenario-github-adapter.py:779-787 | the receipt of a done notification is that of the completed publication it is about |
| AdapterJournal.OneObjectPerRequest | scripts/scenario-github-adapter.py:765-769 | no request ever has two objects on GitHub, however late they land, because its mutation is sent once |
| AdapterJournal.SearchAcceptsOneAtMost | scripts/scenario-github-adapter.py:712-718 | a search by marker never accepts two objects, and the one it accepts is own |
| AdapterJournal.RunKeepsInv | scripts/scenario-github-adapter.py:406-428 | the invariant behind these theorems holds after every run |
| Adapter.Adapter.Save | scripts/scenario-github-adapter.py:403-404 | a save writes exactly what is in memory, or nothing, or raises after writing; it cannot fail for size |
| Adapter.Adapter.RecordFor | scripts/scenario-github-adapter.py:406-428 | an intent is found again only with the same input, a new one only if no unfailed record has its object, and is durable before it is used |
| Adapter.Adapter.Publication | scripts/scenario-github-adapter.py:430-437 | a publication is the single completed record of exactly that subject and revision |
| Adapter.Adapter.Dispatch | scripts/scenario-github-adapter.py:765-769 | the dispatched phase is durable before the request is sent, and only then is it sent |
| Adapter.Adapter.ExecutePrepared | scripts/scenario-github-adapter.py:730-798 | execution of a prepared record: its preconditions, one dispatch, and completion only by readback; and a publication that every call answers is completed with the object it created |
| Adapter.Adapter.ReconcileRecord | scripts/scenario-github-adapter.py:686-728 | reconciliation sends nothing, whatever the phase |
| Adapter.Adapter.ReadObject | scripts/scenario-github-adapter.py:606-611 | a read succeeds only on an object of the record's own making, under its receipt |
| Adapter.Adapter.Complete | scripts/scenario-github-adapter.py:788-798 | the receipt is kept as the reply names it, and the record is done, under that receipt, only after the reply and the object read back have passed |
| Adapter.Adapter.CompleteNotice | scripts/scenario-github-adapter.py:770-787 | a notification ends with the receipt of its publication, named by the reply and read back |
| Adapter.Adapter.Search | scripts/scenario-github-adapter.py:712-718 | the rows that hold the marker, all of them own, and never more than one |
| Adapter.Adapter.Finish | scripts/scenario-github-adapter.py:680-684 | completion makes phase, object and evidence durable together |
| Adapter.Adapter.Handle | scripts/scenario-github-adapter.py:826-854 | any request, with any answers and anything happening on GitHub meanwhile, extends the run; a refusal settles the record as failed only if it was never dispatched; and a new publication that every call answers is completed |
| Adapter.Lifetime | scripts/scenario-github-adapter.py:826-854 | over any sequence of requests and restarts the code stays within the protocol: one mutation for an object, every journal loads and fits, failed means never sent, and done means sent, with its own object |
| ProcessTree.OnlyExitedLeaderLeft | scripts/gate-owner.py:113-118 | when the exited leader is the owner's only child, no live process remains below the owner |
| ProcessTree.QuiescentForever | scripts/gate-owner.py:113-118 | and none can appear later, however the machine is scheduled |
| ProcessTree.ScheduleKeeps | scripts/gate-owner.py:22-39 | forks, exits and adoptions by the subreaper, in any order, keep every process below an older live one and the owner's children its own |
| GateOwner.Kernel.Sweep | scripts/gate-owner.py:32-39 | a sweep reaps every child but the leader that had exited, and returns the others, all still unreaped children of the owner |
| GateOwner.Kernel.SendChild | scripts/gate-owner.py:42-46 | a signal goes to the owner's own unreaped child, never to a reused process id |
| GateOwner.Escalate | scripts/gate-owner.py:129-139 | in a round of stopping every remaining child has been asked, or after the term of grace is forced, and the leader with them; no process is asked twice |
| GateOwner.Press | scripts/gate-owner.py:131-136 | exactly one signal to a child, or none if it was asked before and the term is not over |
| GateOwner.Round | scripts/gate-owner.py:104-142 | one round of the loop: it stops the tree exactly when cancelled or overdue, and reports all gone only when the exited leader is all that is left |
| GateOwner.Supervise | scripts/gate-owner.py:104-146 | when the loop ends, nothing but the owner is left of the tree; status 0 means that no signal was ever sent and the leader exited with 0 |
| GateOwner.Teardown | scripts/gate-owner.py:147-166 | the emergency teardown signals own children only, and confirms the end only when nothing is left |
| WatchProtocol.DeletionsOnceAndAuthorized | scripts/scenario-merge-watch.py:506-533 | over all restarts each target's deletion is dispatched at most once, with durable merge evidence, in a pass that saw all required checks green at the pinned head |
| WatchProtocol.EveryStatusIsAdmitted | scripts/scenario-merge-watch.py:403-440 | whatever was saved when the process died is accepted by `admit` |
| WatchProtocol.BudgetsCountWhatHappened | scripts/scenario-merge-watch.py:535-567 | over all restarts no more passes ask GitHub than the durable count of polls, so no more than the poll budget; failures are within them, and each is counted or was lost with the process before it was saved |
| WatchProtocol.FailuresWithinErrorsExactly | scripts/scenario-merge-watch.py:558-563 | the error budget bounds the failures of every run in exactly the configurations with no more polls than errors |
| WatchProtocol.FinishedMeansAbsent | scripts/scenario-merge-watch.py:501-533 | a durable final status means every target was observed absent |
| WatchProtocol.DurableStatusOnlyGrows | scripts/scenario-merge-watch.py:381-401 | terminal statuses never change, polls and errors never fall, merge evidence never changes |
| MergeWatch.Watcher.Save | scripts/scenario-merge-watch.py:381-401 | everything that is saved is admissible later |
| MergeWatch.Watcher.Admit | scripts/scenario-merge-watch.py:403-440 | admission of a retained status, or of none |
| MergeWatch.Watcher.Merged | scripts/scenario-merge-watch.py:478-499 | merge evidence is durable before cleanup, and evidence retained earlier is never replaced |
| MergeWatch.Watcher.Look | scripts/scenario-merge-watch.py:501-504 | absence is recorded exactly when it is observed |
| MergeWatch.Watcher.Remove | scripts/scenario-merge-watch.py:506-533 | a target is marked durably, deleted once, and seen gone |
| MergeWatch.Watcher.CleanOne | scripts/scenario-merge-watch.py:506-533 | a mark left by a crash is settled by absence and never repeated |
| MergeWatch.Watcher.Cleanup | scripts/scenario-merge-watch.py:506-533 | the final status is written only after one more look at every target |
| MergeWatch.Watcher.Pass | scripts/scenario-merge-watch.py:535-567 | how a pass ends, and that going round again has used up a poll |
| MergeWatch.Watcher.Run | scripts/scenario-merge-watch.py:535-567 | the loop ends, in a durable terminal status or by the process's end; over all lives so far the passes that asked are within the durable polls and the poll budget, the failures within those passes, and the counted errors within theirs |
| MergeWatch.Lifetime | scripts/scenario-merge-watch.py:535-567 | over any number of restarts: each target deleted once at most, no more passes that ask than polls, and every failure counted or lost with its process |
| MergeWatch.FailuresUncounted | scripts/scenario-merge-watch.py:558-563 | lives that die before they have saved their failure: for every configuration there are as many failures as polls, and none is on record |
| TriageProtocol.AtMostOneCanonicalComment | scripts/backlog-triage.py:1239-1351 | over all generations, crashes, aborts and lost replies at most one canonical comment of an issue is created; once one may have been, its id is journaled or its open intent blocks every other generation and every auxiliary write, in memory and on disk |
| TriageProtocol.AtMostOneEffectInDoubt | scripts/backlog-triage.py:1239-1262 | at any time at most one effect on the issue is in doubt, among all generations and auxiliary writes |
| TriageProtocol.LabelIntentOutlivesAborts | scripts/backlog-triage.py:1316-1335 | labels that may have been written keep their durable intent; no abort of this or a later attempt clears it |
| TriageProtocol.AuxiliaryCommentOnce | scripts/backlog-triage.py:1614-1681 | each auxiliary comment is created at most once |
| TriageProtocol.PublishedMeansObserved | scripts/backlog-triage.py:1352-1361 | a published generation has both its effects seen and the comment's id journaled, on disk too |
| TriageProtocol.OwnIntentCoversNoEdit | scripts/backlog-triage.py:1319-1331 | under the check of the label phase, an intent that the attempt opened itself covers no edit |
| TriageProtocol.OpenedBeforeMayCoverAnEdit | scripts/backlog-triage.py:1216-1227 | whenever the comment intent was open before, a run with the same journal and the same attempt has sent an edit, and an abort loses its fence: no weaker check will do |
| TriageProtocol.CarefulAbortsKeepEditFence | scripts/backlog-triage.py:1319-1331 | runs that abort only their own intents keep the fence of every edit |
| Triage.EditFenceLost | scripts/backlog-triage.py:1287-1361 | attempts of `publish` after which an edit is in doubt, no intent says so and auxiliary writes are not blocked |
| Triage.LoseFence | scripts/backlog-triage.py:1336-1347 | the same from every state in which a generation is ready to edit the journaled comment |
| TriageProtocol.ProposalsEndByPublication | scripts/backlog-triage.py:1264-1285 | over any run and its crashes, a proposal on disk stays one until its own publication, or its completely published replacement, ends it |
| TriageProtocol.RunKeepsInv | scripts/backlog-triage.py:1287-1361 | the invariant behind these theorems holds after every run |
| Triage.Runner.Prepare | scripts/backlog-triage.py:227-237 | a claim makes its generation the current one, new or there already, leaves an existing one as it is, and succeeds only durably |
| Triage.Runner.Fresh | scripts/backlog-triage.py:1160-1188 | success means the generation is current, the snapshot shows no change and no hold, and memory is durable; a changed input invalidates without resolving a proposal |
| Triage.Runner.Supersede | scripts/backlog-triage.py:1149-1158 | an invalidated generation goes stale, a proposal only loses the current pointer |
| Triage.Runner.ReconcileComment | scripts/backlog-triage.py:1190-1214 | a marked comment is adopted exactly when it is unique, unaltered and not in conflict; an open creation that is not found stays in doubt |
| Triage.Runner.ReconcileLabels | scripts/backlog-triage.py:1229-1237 | labels are done exactly when the controlled ones are seen as wanted under an open intent |
| Triage.Runner.AbortLabelPhase | scripts/backlog-triage.py:1216-1227 | an abort clears only an intent under which nothing was sent, and leaves proposals, holds and stale generations as they are |
| Triage.Runner.WriteLabels | scripts/backlog-triage.py:842-861 | nothing is written unless a snapshot just before shows nothing changed; a refusal before the first edit wrote nothing, any later failure is in doubt |
| Triage.Runner.PublishLabels | scripts/backlog-triage.py:1316-1335 | the label phase: durable intent, edits, and success only by a fresh snapshot with the wanted labels |
| Triage.Runner.WriteComment | scripts/backlog-triage.py:863-866 | nothing is sent unless a snapshot just before shows nothing changed; a refused write sent nothing, an answered or unclear one may have |
| Triage.Runner.PublishComment | scripts/backlog-triage.py:1336-1351 | the comment phase: durable intent, one write, the id journaled, and success only when the comment is seen |
| Triage.Runner.PublishGeneration | scripts/backlog-triage.py:1287-1361 | success means published, proposed or held back, durably; without `apply` nothing is sent; and for a generation whose turn it is, what each course of the environment makes of journal and result |
| Triage.Runner.FinishPublishing | scripts/backlog-triage.py:1352-1361 | the generation is marked published while it is the current one, together with the retirement of what it supersedes |
| Triage.Runner.RetireSuperseded | scripts/backlog-triage.py:1264-1285 | exactly the superseded proposals are retired |
| Triage.RetiringIsIndependent | scripts/backlog-triage.py:1264-1285 | retiring one proposal neither makes nor unmakes another superseded, so the order does not matter |
| Triage.OthersDecide | scripts/backlog-triage.py:1239-1262 | whether a generation may write depends on the other generations and the checkpoints only |
| Triage.Runner.Auxiliary | scripts/backlog-triage.py:1614-1681 | an auxiliary write ends well only with its checkpoint done and durable; without `apply` nothing is sent |
| Triage.Runner.AuxiliaryLabels | scripts/backlog-triage.py:1646-1673 | the label part of an auxiliary write ends well only when the labels were observed |
| Triage.Runner.ReconcileAuxiliary | scripts/backlog-triage.py:1554-1571 | an open label checkpoint is resolved exactly when the issue shows its recorded labels, an open comment checkpoint exactly when it shows one comment with its body; more refuse, all else stays, and nothing is sent |
| Triage.Lifetime | scripts/backlog-triage.py:1287-1361 | any batches, sweeps and restarts: one canonical comment, fenced; one effect in doubt; published means observed; a dry run sends nothing |
| ReservationProtocol.AtMostFourDirectories | scripts/scenario-git-workspace.py:550-609 | however often the process dies it makes at most four directories, and one more for each that others take away |
| ReservationProtocol.JournalOnlyAdvances | scripts/scenario-git-workspace.py:550-609 | a journaled identity is never replaced, and nothing is made after it; a publication is never withdrawn, a slot never taken back |
| ReservationProtocol.LooksAtOwnExactly | scripts/scenario-git-workspace.py:574-583 | what the first look finds is own exactly when, since the directory was made, others left the stage alone or left an own directory there last |
| ReservationProtocol.JournaledIsOwnExactly | scripts/scenario-git-workspace.py:563-583 | over any crashes, the journaled identity is one this record made, and nobody else's, exactly under that condition on the look it comes from |
| ReservationProtocol.PublishedUnderIdentity | scripts/scenario-git-workspace.py:593-608 | a durable publication means the destination was seen to hold exactly the journaled directory |
| Reservation.Reserver.TrySlot | scripts/scenario-git-workspace.py:554-583 | with the destination seen free, one turn stages and journals a directory in the slot, or bypasses an occupied, untouched one |
| Reservation.Reserver.Acquire | scripts/scenario-git-workspace.py:554-583 | the loop ends, by the slots that are left, with a durable identity or a refusal |
| Reservation.Reserver.Rename | scripts/scenario-git-workspace.py:29-47 | the rename happens only while the destination is free, moves what is on the stage there and changes nothing else; if nobody interferes after the check, what arrives is the directory on record, and a taken destination is left as it is |
| Reservation.Reserver.Finish | scripts/scenario-git-workspace.py:593-609 | publication is durable only after the destination was seen to hold the identity |
| Reservation.Reserver.Recheck | scripts/scenario-git-workspace.py:584-592 | a directory published earlier must still be there under its identity |
| Reservation.Reserver.Reserve | scripts/scenario-git-workspace.py:550-609 | success means durably published under a durable identity, whatever others did |
| Reservation.Lifetime | scripts/scenario-git-workspace.py:550-609 | over any attempts: at most four directories plus those taken away, a published one found under the journaled identity, and when that identity is own |
| Reservation.SwappedBeforeLook | scripts/scenario-git-workspace.py:574-609 | from every state in which a directory is still to be made, one that somebody swaps before the first look is journaled and published |
| Reservation.ForeignDirectoryPublished | scripts/scenario-git-workspace.py:550-609 | so it goes with a fresh reservation |
| Lineage.Walk | scripts/scenario-git-workspace.py:617-633 | the walk finds the acyclic chain of repairs if there is one within 32 records, and refuses only if there is none |
| Lineage.LineagesAgree | scripts/scenario-git-workspace.py:617-633 | there is at most one lineage |
| CleanupProtocol.RefDeletionsAtMostOnce | scripts/scenario-git-workspace.py:734-779 | over all calls and crashes at most one deletion of the local and one of the remote ref is sent, each with its intent on disk |
| CleanupProtocol.WorktreesRemovedAtMostOnce | scripts/scenario-git-workspace.py:750-766 | no worktree is removed twice |
| CleanupProtocol.AllPassBeforeAnyDeletion | scripts/scenario-git-workspace.py:713-749 | before any deletion the merge was seen and every member of the lineage has passed its check in the same call |
| CleanupProtocol.CompletionMeansGone | scripts/scenario-git-workspace.py:780-782 | a durable completion means every member was removed, or missed under a durable mark; where one was removed the owned tree does not stand |
| CleanupProtocol.MissingWasMissed | scripts/scenario-git-workspace.py:746-766 | a missed member was looked for while the mark of its removal was on disk, and was not there |
| Cleanup.Cleaner.CheckMembers | scripts/scenario-git-workspace.py:740-749 | every member is present and owned, or absent for a recorded reason |
| Cleanup.Cleaner.CleanMembers | scripts/scenario-git-workspace.py:750-766 | afterwards every member is durably recorded as cleaned |
| Cleanup.Cleaner.ReadRefs | scripts/scenario-git-workspace.py:730-737 | a ref is as owned and was never put up for deletion, or is absent |
| Cleanup.Cleaner.DeleteRefs | scripts/scenario-git-workspace.py:767-782 | each deletion is sent once under a durable intent, and the end is recorded only with both refs gone |
| Cleanup.Cleaner.Finished | scripts/scenario-git-workspace.py:723-727 | a completed cleanup is confirmed only while nothing has come back |
| Cleanup.Cleaner.CleanUp | scripts/scenario-git-workspace.py:713-782 | success means a durable completion, whatever others did to trees and refs |
| Cleanup.Lifetime | scripts/scenario-git-workspace.py:713-782 | over any calls and restarts: each ref deletion once, completion means every member removed or missed under a mark, and no removed tree stands |
| Cleanup.CompletedAndStanding | scripts/scenario-git-workspace.py:750-782 | a call that reports completion while the owned tree, moved away just in time and back, stands |
| TokenLedger.Ledger.Reserve | scripts/backlog-triage.py:239-248 | admitted exactly when unblocked, new and within the cap with everything outstanding of any day |
| TokenLedger.Ledger.Settle | scripts/backlog-triage.py:250-270 | what each report makes of the entry, when it blocks the ledger, and that nothing unblocks it |
| TokenLedger.Lifetime | scripts/backlog-triage.py:239-270 | over any calls on any days: at most thirteen open reservations, and every day's admissions within the cap while no settled usage rises and nothing blocks |
| TokenLedger.FewOpen | scripts/backlog-triage.py:242-246 | open reservations count in full however many midnights pass |
| TokenLedger.RiseNeedsRoom | scripts/backlog-triage.py:268-270 | a later settlement keeps the cap exactly when the day has room for the difference |
| TokenLedger.RiseBreaksTheCap | scripts/backlog-triage.py:250-270 | a history in which a later settlement breaks the cap with nothing blocked |
| Paragraphs.Expand | scripts/backlog-triage.py:494-513 | the whole maximal paragraph around a line is found if and only if it has at most 128 lines and 16 KiB joined |
| Paragraphs.Evidence | scripts/backlog-triage.py:1736-1743 | the paragraph judged later spans all of the text that was kept |
| Paragraphs.Rederive | scripts/backlog-triage.py:1738-1742 | the unbounded loops find the maximal paragraph |
| Paragraphs.SplitLines | scripts/backlog-triage.py:383-392 | splitting a text into lines loses nothing |
| Paragraphs.SplitJoin | scripts/backlog-triage.py:383-392 | and undoes joining them |
| Paragraphs.KeptLines | scripts/backlog-triage.py:383-392 | a kept paragraph has as many lines as before, none of them blank, even where carriage returns are dropped again |
| Preflight.Validate | scripts/task-preflight.py:71-80 | the validation accepts exactly the orders without repetition in which every address names an output of an earlier node |
| Preflight.Feeds | scripts/task-preflight.py:213-216 | the single forward pass computes exactly the nodes that data from the verifier reaches |
| Preflight.Connection | scripts/task-preflight.py:210-237 | the verdict is exact: the nodes on some data path to the target, whether there is one, and whether one is optional or conditional |
| Preflight.Backward | scripts/task-preflight.py:217-231 | the worklist ends closed under the inputs that the verifier feeds |
| Preflight.NoCycle | scripts/task-preflight.py:80-80 | in an accepted graph nothing feeds what feeds it |
| Preflight.OnPathMeans | scripts/task-preflight.py:211-212 | lying on a path is being reached from the verifier and reaching the target |
| PrFigures.FigureHasPattern | scripts/pr-lines.py:43-43 | a figure has the pattern exactly for counts below 999,500 |
| PrFigures.FigureIsNearest | scripts/pr-lines.py:95-105 | a figure is exact below 1000, and beyond off by at most half its last place, half up, and monotone |
| PrFigures.FigureTellsShown | scripts/pr-lines.py:95-105 | equal figures show equal numbers |
| PrFigures.BarShowsEighths | scripts/pr-lines.py:108-113 | a bar has 1 to 12 cells, full but the last, shows the nearest eighth, and twelve full cells for the largest |
| PrFigures.BarsGrow | scripts/pr-lines.py:108-113 | a larger count never has the smaller bar |
| PrFigures.ShareHasPattern | scripts/pr-lines.py:116-119 | a share has the pattern, is `<1%` exactly below a half percent, and otherwise the nearest percentage between 1 and 100 |
| PrTable.ReadRow | scripts/pr-lines.py:144-164 | the scan of a row, character by character, computes its cells |
| PrTable.RowReadsBack | scripts/pr-lines.py:122-164 | a rendered row has three cells exactly when no pipe character of its name follows an odd run of backslashes, and then gives the name back |
| PrTable.CountEscaped | scripts/pr-lines.py:151-163 | each unprotected pipe character of a name makes one cell more |
| PrTable.CleanMeansProtected | scripts/pr-lines.py:153-160 | the scan protects exactly the pipe characters after even runs of backslashes |
| PrTable.ReadBlock | scripts/pr-lines.py:167-206 | reading a block decides by the first thing wrong, in the source's order |
| PrTable.LinesReadBack | scripts/pr-lines.py:126-206 | the lines of a rendered block, or of an empty one, read back exactly when the total is below 999,500 and all names are trimmed and clean |
| PrBlock.SplitJoined | scripts/check-pr-report.py:714-714 | splitting a text at its line separators undoes joining lines with line feeds |
| PrBlock.BrokenBlock | scripts/pr-lines.py:144-206 | a name with a line separator in it makes the block unreadable |
| PrBlock.RoundTrip | scripts/pr-lines.py:126-206 | the text of a rendered block, split again, gives the total's figure and each directory's figure, bar and share, exactly when the total is below 999,500 and all names are on one line, trimmed and clean |
| TestRecords.Finish | scripts/ci-step.py:59-118 | no record without a spool or a run; a fold exactly for a spool within its bounds whose lines are blank or valid records and whose count does not overflow; its final validation never refuses |
| TestRecords.FoldedIsValid | scripts/ci-step.py:112-116 | the fold of valid records is valid; its count is the number of distinct failed names unless a run reached a hundred, and then at least that and at least a hundred |
| TestRecords.SummedCovers | scripts/ci-step.py:97-101 | the running sum covers the distinct names, and a capped run in full |
| TestRecords.FailedNames | scripts/ci-step.py:102-109 | the folded names are those of the runs, each once |
| TestRecords.RerunFolds | scripts/ci-step.py:110-111 | the strongest rerun state agrees with the folded counts |
| NextestGate.RerunAlone | scripts/nextest-gate.py:244-259 | flaky and failing are an order-preserving split of the failed tests by what ran alone in time and passed |
| NextestGate.MarkedIsPartition | scripts/nextest-gate.py:253-259 | nothing is lost or doubled by the split |
| NextestGate.Settle | scripts/nextest-gate.py:308-354 | the gate exits 0 exactly when the parallel run passed or every failed test passed alone; its record is valid exactly when the threads, the number of tests that failed again, their first hundred names and the names of the flaky ones are within bounds |
| Labels.OwnerOverrides | scripts/backlog-check-triage.py:443-455 | one override for each namespace; refused exactly for a foreign label or two in one namespace |
| Labels.OwnerLabels | scripts/backlog-triage.py:878-892 | the owner's labels by the last event about each; refused exactly when a label's origin is unknown or they conflict |
| Labels.VerdictMeans | scripts/backlog-check-triage.py:458-510 | the verdict, by the two documents and the verifier's outcome alone and whatever the overrides; its reasons; and the questions of both triagers, each once |
| Labels.AgreementKeepsEvidence | scripts/backlog-check-triage.py:500-510 | an agreement keeps the evidence of both triagers, each piece once, and the author's decision record first |
| Labels.RecordLabels | scripts/backlog-check-triage.py:513-524 | a record has one managed label to a namespace, the owner's first, and no hold of its own |
| Labels.DesiredLabels | scripts/backlog-triage.py:709-711 | without a hold, the wanted labels have one label to a namespace, all overrides and all unrelated labels, are authorized to reach, and are a fixed point |
| Labels.SetLabels | scripts/backlog-triage.py:842-861 | while others edit too: a label that is none of the runner's business ends as the others left it; what they do not touch stays in the interval that freshness accepts however the edits are interrupted, and ends as wanted when they complete |
| Labels.ObservedIsDone | scripts/backlog-triage.py:1229-1237 | within that interval the controlled labels alone tell whether all labels are as wanted |
| CorpusLayout.SharedAcrossRuns | scripts/telemetry-corpus.py:108-114 | a shared blob belongs to two executions, of different runs exactly when there are at least two runs |
| CorpusLayout.TwentyFivePerRun | scripts/telemetry-corpus.py:132-142 | there are twenty-five references for every run |
| CorpusLayout.AtMostEighteen | scripts/telemetry-corpus.py:108-114 | no execution refers to more than eighteen blobs, so its events always fit |
| CorpusSegment.SegmentRecords | scripts/telemetry-corpus.py:190-304 | a reader that checks numbers, nesting, time and references accepts every segment, with a hundred spans, two hundred events and all of the padding, as sealed |
| CorpusSegment.AllShares | scripts/telemetry-corpus.py:246-248 | the events shared out among the nodes are all of them |
| CorpusSegment.AllFall | scripts/telemetry-corpus.py:253-262 | every blob falls to some node |
| CorpusSegment.AllPadding | scripts/telemetry-corpus.py:249-250 | the padding shared out among the mirrored events is all of it |
| Corpus.PerSegment | scripts/telemetry-corpus.py:364-367 | the lists filled blob by blob hold, for each execution, the blobs that refer to it in order |
| Corpus.AllReferred | scripts/telemetry-corpus.py:132-142 | together the lists hold every reference of the blobs and no more |
| Corpus.Generate | scripts/telemetry-corpus.py:337-371 | for every number of runs, a reader accepts every segment of the corpus with the references that the layout gives it, twenty-five for every run |

## Left out

- HTTP, SSH, Git and subprocess execution, file permissions, locks and signal handlers: they are steps of the environment with any outcome.
- JSON encoding, SHA-256 and JSON Schema validation: documents are datatypes and digests identities; the adapter's journal keeps an exact encoded size for its own fields.
- The retry bookkeeping of the triage runner (failure counters, queued events, cursors, batch limits and the batch's alarm), and the text it publishes.
- Markers under the adapter's own account: nobody but its mutations writes one there. An edit of one of the actor's objects that put another request's exact body into it would pass `validate_remote`, and nothing the adapter sees would tell.
- A collision of SHA-256 in the marker: the intent alone identifies the request here. The addresses of objects and the repository ids of their branches are one flag.
- Reuse of an inode or process id: a device and inode pair stands for one directory while its record lives; process ids are reused only after they are reaped.
- The moment between a cleanup's last ownership check of a worktree and Git's removal of it.
- `clean`, `exact_tree` and the other content checks of worktrees, which are answers of the environment here.
- Floating point in `figure`, `bar` and `share`: the rounding is exact; `\d` in the block's patterns is an ASCII digit.
- Labels.DesiredLabels: takes for granted that neither document names `security`, which holds the issue before the merge.
- CorpusSegment.SegmentRecords: does not model the attributes and the bytes of lines, which no count depends on.
- Paragraphs.Evidence: does not model the grammar that judges a paragraph.
- `check`, `hold_record`, `consume_comment`, `canonical_text`, the path and citation grammars: guard by guard, or their other half is not in the repository.
- Provider authentication, quarantine, changelog, prerequisites, pinning, ADR tooling, corpus compression and measurement, installers and brand assets: they would add easy members only.
