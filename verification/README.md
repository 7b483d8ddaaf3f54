# Verified model of the mahoroba runtime

A Dafny model of the parts of mahoroba that are hardest to get right, with proofs about every run or every input.

- **Admission, scans and landings** (`Admission`, `MemoryScan`, `ScanProtocol`, `ScanProgress`,
  `ScanCompletion`, `LandingProtocol`, `LandingOutcomes`, `Boundaries`, `Runtime`).
  One resident's epochs, clean proofs, fences, landing lock and memory-scan cycles. Each lock-protected block is one
  atomic step; the theorems hold for all interleavings with ingress, provider leases, selection, archive and Admin
  requests. `Boundaries` follows selections, archives and landing locks of all residents at once. `Runtime` holds the
  same blocks as methods that update fields in place.
- **Canonical Writer** (`CommitCore`, `ActivityRegistry`, `SubmissionProtocol`, `SubmissionOutcome`, `WriterGates`,
  `Startup`). The commit cursor under faults and restarts, the per-resident fences, the bounded queue with its close
  and pause protocols, and the start sequence composed with the pause.
- **Blob store and collector** (`BlobStore`, `GcPlan`, `BlobGc`). Crash points between all directory changes, and a
  plan/confirm/execute collector with partial-failure reporting.
- **Sessions, ledger, autonomy, keys and codecs** (`Session`, `SessionMeaning`, `Ledger`, `Autonomy`, `Eligibility`,
  `TriggerKeys`, `Codecs`).

`Common` and `Sorting` hold vocabulary shared by the models. `dafny verify dfyconfig.toml` checks everything.

A protocol model has a state, an `Enabled`/`Apply` pair for its steps, an invariant with one lemma per step, and
theorems over `Reaches`, the runs of any length. Loops and in-place updates of the source are methods proved against
the functions that the lemmas are about. Beside safety stand theorems about success: what goes through, exactly when,
and what it leaves, in terms of the state and the answers and not of the function that computes it.

Discovery calls enter as contracts: a pass that reports a completed cycle covered everything up to its ceiling, and
returned work comes with a next cursor; progress theorems add that a pass which finds nothing advances. The store
selects only active residents, unselects a resident in the transaction that archives it, and takes user ingress only for
the selected one (`internal/store/sqlite/canonical_reads.go:322-324`, `canonical_backend.go:380-415`,
`dialogue_mutations.go:18-27`). Hashing is an abstract function, assumed collision-free only where stated.
Clock readings, provider and backend answers and failpoints are parameters without constraint.

## What turned out not to hold

- `SelectResident` that cannot resolve the former selection fences only residents in the worker and call maps. A worker
  of the selected resident that enters after these were read can pass the selection check, be overtaken by the selection
  and then commit its mutation for a resident that is active but no longer selected; memory purposes are checked for
  no more than that (`internal/store/sqlite/dialogue_mutations.go:61-95`). `IsolatedExactlyWithWorkerEntry` gives the exact
  condition and `EscapeIsPossible` the run. User ingress is safe: its own transaction checks the selection again.
- Two such selections can leave two residents unfenced at once (`TwoResidentsOpen`). `AtMostTheWinnerIsOpenExactly` says
  which check before a selection rules that out.
- `CleanupOrphan` of an unreferenced orphan never completes while both its object and an earlier quarantined copy of
  that object exist, because the move does not replace. `CleanupCompletesExactly` gives the exact condition,
  `TwinIsReachable` a run that ends there.
- With mixed commit cursors the order of events is not a weak order. Then dropping a resident message or handing the
  events over in another order can change the session (`MixedCursorsDoNot`). `ResidentMessagesHarmlessExactly` and
  `InputOrderIrrelevantExactly` say for which commit and event numbers each promise holds.
- Without an envelope validator the head hash does not fix the ledger's length (`WithoutValidatorLengthIsOpen`).
- The closing scan of `requireExclusive` and the failing transitions in `Submit` and `handle` are never reached with
  a refusal (`ExclusionIsAnUncontendedFence`, `MarkKeepsInv`).

## Model

The rows that begin with "Main result" come first; the others are the steps they rest on and the methods of the
source that are tied to the same functions.

| member | source | states |
|---|---|---|
| ScanProtocol.PublishedFlagIsProven | internal/app/memory_extraction.go:33-144 | Main result: over every interleaving, a turn publishes scan completeness only at its own unchanged epoch, and only after a normal and a re-extraction sweep each reached its fixed ceiling without finding work, both tagged with that epoch and with no admitted re-extraction above the ceiling |
| ScanProtocol.RaisedFlagStaysProven | internal/app/memory_extraction.go:744-803 | Main result: a raised completeness flag is backed by such a pair of sweeps in every reachable state, also after later ingress, boundaries and Admin requests |
| ScanProtocol.GateSeesOneEpoch | internal/app/autonomy.go:158-174 | Main result: an optional turn that holds the resident lock can be admitted only while dialogue proof and memory proof belong to one and the same epoch |
| ScanProgress.CyclesCannotBeStarved | internal/app/memory_extraction.go:485-679 | Main result: from any reachable state a normal or re-extraction cycle whose passes find no more work stays open for at most a number of passes fixed by its cursor, its ceiling and its dirty mark, whatever commits, ingress and Admin requests come in between |
| ScanCompletion.QuietTurnsPublish | internal/app/memory_extraction.go:33-144 | Main result: from every reachable state with a free lock, however uninterrupted worker turns go on whose passes find no work, they publish within a bounded number of steps, can always take another one, and publish a proof at the current epoch |
| LandingProtocol.CommitsRespectForeground | internal/app/application.go:1003-1146 | Main result: in every run, no landing or mutation commits across an ingress submitted after its epoch was captured or across a boundary after its lease, and one that required a clean dialogue commits with nothing unfinished and no newer user event |
| LandingProtocol.CommitsOnlyWhileSelected | internal/app/application.go:1003-1146 | Main result: in every run everything that commits on the landing-lock path commits for an active resident, and user ingress for the selected one; mutations and landings commit for the selected one too unless a boundary left it out while it was selected |
| LandingProtocol.IsolatedExactlyWithWorkerEntry | internal/app/bootstrap.go:244-275 | Main result: from a quiet state nothing commits for the resident unselected in any continuation, if and only if it has an entry in the worker map; otherwise a run breaks it |
| LandingProtocol.UnknownSelectionStaysFenced | internal/app/bootstrap.go:280-307 | Main result: after a selection without an authoritative result no call is admitted and no ingress or landing passes its fence check until a later selection has one |
| LandingProtocol.ArchivedStaysFenced | internal/app/bootstrap.go:280-377 | Main result: once the process has archived the resident, with or without an answer, nothing passes its fence again, whatever selections and archives succeed or fail afterwards; and an archive without a result keeps the fence closed unless the resident is active, so that it did not commit |
| LandingProtocol.StaleCycleRecordsNothing | internal/app/dialogue.go:37-77 | Main result: a scan cycle whose epoch has passed changes nothing; a current one records a proof that holds: nothing unfinished |
| LandingOutcomes.UndisturbedLandingExactly | internal/app/application.go:1104-1146 | Main result: the landing of a lease left to itself commits if and only if the resident is unfenced, selected and active, the epoch is the lease's and its call was not preempted |
| LandingOutcomes.CleanCallIsAdmittedExactly | internal/app/application.go:454-490 | Main result: a call that requires a clean dialogue is admitted if and only if the resident is unfenced, at the captured epoch, and the proof of that epoch is recorded; then nothing is unfinished |
| ResidentBoundaries.AtMostTheWinnerIsOpenExactly | internal/app/bootstrap.go:230-398 | Main result: for every check made before selections begin: in all runs of selections and archives of all residents at most the last winner is unfenced among those ever decided about, if and only if the check lets no selection begin whose targets leave out an unfenced former winner |
| LandingLocks.AcquisitionCannotDeadlock | internal/app/bootstrap.go:424-445 | Main result: any number of boundaries, landings and ingresses that take landing locks in sorted order all finish: runs are bounded and none gets stuck |
| ActivityTable.ExclusionIsAnUncontendedFence | internal/canonical/activity.go:159-179 | Main result: in every reachable table exclusion is granted exactly to the in-flight owner of an uncontended fence, which has no other entry beside it |
| ActivityTable.ExclusionLastsUntilFinish | internal/canonical/activity.go:72-179 | Main result: once granted, exclusion survives every operation except the owner's finish, and admission of the resident stays refused |
| ActivityTable.AdmissionIsRefusedExactly | internal/canonical/activity.go:72-101 | Main result: in every reachable table a command is turned away if and only if a fencing command of its resident is live; otherwise it gets a fresh number and an entry, contended exactly if it fences beside others |
| CommitCore.HistoryIsGapless | internal/canonical/writer.go:553-651 | Main result: over every run of errors, panics, ambiguous commits and restarts the durable history has numbers 1..n and strictly increasing time, only grows, and at most one commit per poisoned process went unacknowledged |
| CommitCore.RepliesAccountForHistory | internal/canonical/writer.go:553-619 | Main result: within one process the committed replies in order are exactly what the durable history has grown by, and a Writer that gets poisoned has appended at most one commit more |
| CommitCore.RepliesAreExactAlongRuns | internal/canonical/writer.go:553-619 | Main result: over every run with restarts: a reply is a commit if and only if the process was healthy, the call in time, the backend began the unit that follows the durable history, and the command returned and was confirmed; it is the successful no-op if and only if the command then reported no mutation and the rollback went through |
| CommitCore.PoisonedExactly | internal/canonical/writer.go:553-619 | Main result: a process is poisoned if and only if one of its commands left a unit that was not surely closed |
| SubmissionProtocol.CountsStayExact | internal/canonical/writer.go:262-345 | Main result: no count goes negative or past capacity, no panic branch is reachable, enqueueDone closes at most once, nothing is received twice |
| SubmissionProtocol.DrainIsExact | internal/canonical/writer.go:477-544 | Main result: when done closes, every submission that passed reserveEnqueue was handled once and answered or gave up before it took a slot |
| SubmissionProtocol.CloseCompletes | internal/canonical/writer.go:432-508 | Main result: after Close every schedule of the Writer's own steps is bounded and can only stop with done closed |
| SubmissionProtocol.HeadFixedWhilePaused | internal/canonical/writer.go:350-426 | Main result: from a successful pause to the next resume no command is live and neither head nor history moves |
| SubmissionProtocol.ExclusiveCommandIsAlone | internal/canonical/writer.go:510-544 | Main result: a command that passes the exclusion check is the only live submission of its resident |
| SubmissionOutcome.SubmissionGoesThrough | internal/canonical/writer.go:262-544 | Main result: from every reachable state of an open idle Writer a command of an unfenced resident is admitted, queued, executed once with whatever the backend answers, answered, and leaves every counter as it was |
| Startup.VerifiedHeadIsTheHead | cmd/mahoroba/startup_orchestration.go:79-101 | Main result: with producers gated until the opening, the head verified during the pause is still the head when the gate opens |
| BlobProtocol.ReferencedContentSurvives | internal/blob/store.go:455-692 | Main result: across every crash and retry each referenced key has its verified object or a sealed marker with the right bytes, and an object nobody outside touched is always there |
| BlobProtocol.CleanupIsExact | internal/blob/store.go:1041-1235 | Main result: a cleanup that reports success leaves the object present and whole exactly when it is referenced, and its marker gone |
| BlobNamespace.CleanupSucceedsExactly | internal/blob/store.go:1085-1235 | Main result: for all directories: recovering an orphan succeeds if and only if its marker holds its own bytes, the object and a used quarantined copy are good and no twin is in the way; it leaves the object, also a lost one, if it is referenced and no copy otherwise, and no marker |
| BlobNamespace.FinalizeSucceedsExactly | internal/blob/store.go:455-532 | Main result: finalizing succeeds if and only if the staged file is the caller's own with its own bytes and no other object is in its place; it leaves the object there, new or deduplicated, and nothing else changed |
| BlobProtocol.RecoveryRestores | internal/blob/store.go:1124-1234 | Main result: from every reachable state, whatever was lost or damaged outside, a restart and a recovery bring a referenced object back whole |
| GcPlan.PlanIsExact | internal/blobgc/plan.go:145-229 | Main result: a plan lists exactly the unreferenced locators in strict key order, with the file of each and a byte count within 64 bits |
| GcRun.Run | internal/blobgc/gc.go:32-165 | Main result: the whole run from fresh walk, capture and plan: nothing that was referenced at the capture goes, nothing goes unless the confirmation is the digest of the very plan these inputs give, a successful application leaves no unreferenced copy, and the run succeeds if and only if every answer is positive |
| Session.Calculate | internal/activity/session.go:58-142 | Main result: the backward program returns the session defined forward: the last block of user messages at gaps of at least the idle gap |
| SessionMeaning.SessionMeans | internal/activity/session.go:58-142 | Main result: for all inputs of an active resident: the messages that belong are those in view and not from before the activation; the session starts at the first user message from which no two in a row are an idle gap apart, ends with the last one, is open while that is recent, and lists the newest messages from its start; without a user message there is none |
| SessionMeaning.SessionIsTheLatestActivity | internal/activity/session.go:58-217 | Main result: on events and transitions alone: there is a session if and only if the resident is active since the newest transition in view and a user message belongs to that activation; all it lists belongs, and its last user message is a newest one |
| Session.ResidentMessagesHarmlessExactly | internal/activity/session.go:75-141 | Main result: for any set of commit and event numbers: dropping resident messages leaves start, last user message and openness of every session over them, if and only if the event order on them is a weak order |
| Session.InputOrderIrrelevantExactly | internal/activity/session.go:74-84 | Main result: for any such set: no session depends on the order in which its events are handed over, if and only if the event order on them is a weak order that separates them all |
| Ledger.Verify | internal/canonical/ledger.go:72-160 | Main result: accepts exactly the ledgers whose contents and chain are valid and reports their counts, bounds and head |
| Ledger.HeadHashFixesHistory | internal/canonical/ledger.go:96-223 | Main result: two verified ledgers with equal head hashes hold the same events in the same number, and the same content where both still have it, given collision-free hashing and a validator that ties envelopes to rows |
| LedgerRecording.WrittenLedgersVerify | internal/canonical/ledger.go:72-223 | Main result: every ledger recorded event by event verifies, with any of its contents erased or not, and erasing changes neither head hash nor length |
| Autonomy.SelfTalkStaysBounded | internal/autonomy/scheduler.go:29-96 | Main result: in every run that appends self-talk only when eligible at its commit time, consecutive, hourly and daily limits hold, none falls in quiet hours, and any two keep the interval |
| Autonomy.SelfTalkIsNotDueBefore | internal/autonomy/scheduler.go:29-96 | Main result: before NextEligibleAt the same facts are not eligible for self-talk |
| Autonomy.InitiativeIsNotDueBefore | internal/autonomy/scheduler.go:99-170 | Main result: before NextEligibleAt the same facts are not eligible for an initiative |
| Eligibility.InitiativesStayBounded | internal/autonomy/scheduler.go:99-170 | Main result: in every run that appends initiatives only when eligible at their commit time, hourly and daily limits hold, none falls in quiet hours, two keep the interval, and each keeps the suppression after every user message |
| Eligibility.InitiativeMayCommitExactly | internal/autonomy/scheduler.go:99-170 | Main result: at its commit time an initiative is eligible if and only if it is enabled for an active resident with an available projection and nothing pending, of an allowed kind, outside quiet hours, far enough from every user message and initiative, and within both limits |
| Eligibility.SelfTalkMayCommitExactly | internal/autonomy/scheduler.go:29-96 | Main result: the same for self-talk, with its memory policy, its user message and its consecutive limit |
| TriggerKeys.KeysIdentifyOccasions | internal/autonomy/types.go:121-162 | Main result: two valid triggers share a key if and only if they agree on kind, source, ordinal, boundary and the unordered related claims |
| Codecs.ParseId | internal/canonical/id.go:36-59 | Main result: accepts exactly the canonical 26-character texts and returns their value |
| Codecs.DecodesExactlyTheEncodings | internal/canonical/types.go:413-444 | Main result: a decimal decodes to a value if and only if it is that value's encoding and the value is in range |
| Codecs.SealedNamesParseExactly | internal/blob/store.go:1395-1418 | Main result: a name parses to a resident and digest if and only if it was made from them and some partial name |
| ScanProtocol.UpdateNormalKeepsInv | internal/app/memory_extraction.go:485-554 | publishing normal progress keeps cursor, dirty mark, tag and handover to re-extraction consistent with what was really swept |
| ScanProtocol.UpdateReKeepsCycle | internal/app/memory_extraction.go:612-679 | a re-extraction cycle that goes on to publication has covered its ceiling, and every request admitted so far lies within it |
| ScanProtocol.AdminKeepsInv | internal/app/memory_reextract.go:111-130 | an Admin re-extraction withdraws the proof before it is admitted, so no admitted request is missed by a later proof |
| ScanProtocol.StepKeepsInv | internal/app/memory_extraction.go:448-679 | every lock-protected block keeps the scan invariant, e.g. that an inactive re-extraction cycle has no cursor |
| ScanProgress.NormalPassCounts | internal/app/memory_extraction.go:503-525 | a quiet pass of the normal cycle brings its end nearer, also the one that starts the repeat under the same ceiling |
| ScanProgress.RePassCounts | internal/app/memory_extraction.go:633-672 | the same for the re-extraction cycle, also with a rescan pending |
| ScanCompletion.CompletionIsReachable | internal/app/memory_extraction.go:33-144 | every reachable state with a free lock leads to a proven completeness flag |
| ScanCompletion.NormalPassGoesDown | internal/app/memory_extraction.go:485-554 | a pass that completes a clean normal cycle at the current epoch hands over to the re-extraction cycle, one of an older epoch makes room for a new cycle |
| FairSweep.FairSweepMovesOn | internal/app/memory_extraction.go:296-326 | each fair pass of a sweep goes on where the last one stopped and at least one position further, whether or not it found work, so no obligation pins the sweep |
| FairSweep.SweepEndsOrStays | internal/app/memory_extraction.go:402-424 | a pass that lost its epoch leaves the sweep alone, and one that completes it has reached its ceiling and lets the next one begin anew |
| LandingProtocol.EscapeIsPossible | internal/app/application.go:1068-1100 | the run that breaks it: a worker that enters after the selection read its targets passes the selection check, is overtaken by the selection, and then registers and commits its mutation |
| LandingProtocol.UnknownArchiveStaysFencedExactly | internal/app/bootstrap.go:280-377 | over every run: while an archive has no authoritative result nothing passes the fence, if and only if no failed selection settles by finding that resident still configured |
| LandingProtocol.ReopensOnlyTheActive | internal/store/sqlite/canonical_backend.go:380-415 | such a selection finds an active resident, so the archive whose fence it opens did not commit |
| LandingProtocol.UncommittedArchiveIsReopened | internal/app/bootstrap.go:287-306 | the run that opens such a fence: an archive fails without committing and cannot be re-read, then a selection of another resident fails and re-reads this one as configured |
| LandingProtocol.LifecycleKeepsArchiveFence | internal/app/bootstrap.go:287-377 | every lifecycle step but that one keeps the fence of an unresolved archive, and that one always opens it |
| LandingProtocol.RecordKeepsInv | internal/app/application.go:523-534 | recording a clean dialogue proof keeps it true of the durable history outside an ingress window |
| LandingProtocol.IngressKeepsInv | internal/app/application.go:1003-1039 | every step of an ingress keeps captured epochs stale, also between its commit and its epoch advance |
| LandingProtocol.RegisterKeepsInv | internal/app/application.go:1048-1100 | a mutation registered under the lock has crossed no ingress and, if it required one, has a true clean proof |
| LandingProtocol.LandingKeepsInv | internal/app/application.go:1104-1146 | a landing that passes its checks holds a lease no boundary and no ingress has outdated, even if its call entry was overwritten |
| LandingProtocol.SettleSelectedKeepsInv | internal/app/bootstrap.go:287-307 | settling a selection opens only the known winner and keeps unknown outcomes fenced |
| LandingProtocol.SettleArchivedKeepsInv | internal/app/bootstrap.go:363-377 | a failed archive restores the former fence only when the resident is known not to be archived |
| LandingOutcomes.UndisturbedIngressExactly | internal/app/application.go:1003-1039 | an ingress left to itself commits and advances the epoch if and only if the resident is unfenced, selected and active; otherwise it changes nothing |
| LandingOutcomes.UndisturbedMutationExactly | internal/app/application.go:1048-1100 | a mutation left to itself registers its call and commits if and only if the resident is selected, active and unfenced, the epoch is the captured one and, where required, its clean proof is recorded |
| LandingOutcomes.SelectionOpens | internal/app/bootstrap.go:230-308 | a successful selection of an active resident leaves it selected and open, whatever fenced it before |
| LandingOutcomes.FailedArchiveRestores | internal/app/bootstrap.go:311-377 | an archive that failed and was re-read gives the former fence back |
| LandingOutcomes.CallStandsUntilItsEnd | internal/app/application.go:454-490 | the current call entry survives everything but its own finish and a later registration, also the finish of calls it overwrote |
| LandingOutcomes.OutdatedCallIsPreempted | internal/app/application.go:536-566 | in every run a current call that was not preempted was registered at the current epoch: ingress and boundaries preempt what they outdate |
| LandingOutcomes.CleanProofIsReached | internal/app/dialogue.go:37-77 | once no dialogue is unfinished, scanning alone records the proof of the current epoch, also past a stale cycle |
| Runtime.Application.RegisterBackgroundCall | internal/app/application.go:454-490 | admission decides by fence, epoch and clean proof; a rejected call is preempted at once and leaves the resident's entry alone |
| Runtime.Application.FenceForSelection | internal/app/bootstrap.go:244-275 | every target is fenced, invalidated and its call preempted; an unresolved former selection closes admission for all |
| Runtime.Application.BeginSelection | internal/app/bootstrap.go:244-275 | the targets are computed from the former selection or from the worker and call maps, and exactly they are fenced and invalidated |
| Runtime.Application.SettleSelection | internal/app/bootstrap.go:292-307 | a known winner is opened and all other targets stay fenced; an unknown result opens nothing |
| Runtime.Resident.FinishBackgroundCall | internal/app/application.go:482-489 | a finished call removes its own entry and no later one |
| Runtime.Resident.RecordDialogueCleanAtEpoch | internal/app/application.go:523-534 | the clean proof is recorded exactly if the epoch is still the expected one |
| Runtime.Resident.PreemptBackground | internal/app/application.go:536-547 | the epoch advances and only the current call is handed out for preemption |
| Runtime.Resident.InvalidateResidentRuntimeLocked | internal/app/application.go:553-566 | a boundary advances the epoch, drops the clean proof and resets all scan state |
| Runtime.Resident.FenceForArchive | internal/app/bootstrap.go:326-333 | archive fences and invalidates the resident before taking its landing lock and remembers the former fence |
| Runtime.Resident.RestoreAfterFailedArchive | internal/app/bootstrap.go:368-376 | the former fence is put back and nothing else changes |
| Runtime.Resident.StartOrResumeNormalMemoryCycleAtEpoch | internal/app/memory_extraction.go:448-468 | the method in place performs the start block that the protocol is proved about |
| Runtime.Resident.UpdateNormalMemoryDiscoveryAtEpoch | internal/app/memory_extraction.go:485-554 | the method in place performs the progress block of the normal cycle, with its dirty repeat under the same ceiling |
| Runtime.Resident.StartOrResumeMemoryReextractionCycleAtEpoch | internal/app/memory_extraction.go:562-592 | the method in place performs the start block of the re-extraction cycle and clears a pending rescan only before a ceiling exists |
| Runtime.Resident.UpdateMemoryReextractionAtEpoch | internal/app/memory_extraction.go:612-679 | the method in place performs the progress block of the re-extraction cycle, with rescan after late requests |
| Runtime.Resident.UpdateFairMemoryDiscoveryAtEpoch | internal/app/memory_extraction.go:402-424 | the fair cursor moves only while the epoch is the expected one |
| Runtime.Resident.InvalidateMemoryExtractionScansForReextraction | internal/app/memory_extraction.go:753-764 | the flag is withdrawn and a rescan is requested |
| Runtime.Resident.SetMemoryExtractionScansComplete | internal/app/memory_extraction.go:744-751 | the flag is set outright, without an epoch, and nothing else changes |
| Runtime.Resident.SetMemoryExtractionScansCompleteAtEpoch | internal/app/memory_extraction.go:766-779 | the flag is raised exactly if the epoch is still the expected one |
| Runtime.Resident.ResetMemoryDiscovery | internal/app/memory_extraction.go:789-803 | all scan state is forgotten and the admission facts stay |
| ResidentBoundaries.SelectionKeepsOnlyWinnerExactly | internal/app/bootstrap.go:244-307 | the same for one selection over all its results |
| ResidentBoundaries.TargetsAreDecided | internal/app/bootstrap.go:263-307 | no target is open while a selection is in progress; a known result opens exactly the winner among them, an unknown one none |
| ResidentBoundaries.ArchiveSettles | internal/app/bootstrap.go:326-377 | an archive known to have failed gives the fence back as it was; any other result leaves the resident fenced |
| ResidentBoundaries.CoveredWinnerIsNotLeftOut | internal/app/bootstrap.go:244-267 | a selection that resolved the former winner, or found it in the worker or call map, does not leave it out |
| ResidentBoundaries.TwoResidentsOpen | internal/app/bootstrap.go:244-306 | two selections that cannot resolve the former one leave two residents unfenced |
| ResidentBoundaries.CollectTargets | internal/app/bootstrap.go:244-267 | the entries of both maps are added one by one to the selection's targets |
| LandingLocks.NoWaitsForCycle | internal/app/bootstrap.go:424-445 | no thread waits for itself through other threads |
| LandingLocks.UnsortedPlansDeadlock | internal/app/bootstrap.go:431-433 | without the order two boundaries can block each other for good |
| LandingLocks.LockOrder | internal/app/bootstrap.go:424-440 | the locks taken are those of the non-zero targets, each once, in strictly increasing order |
| ActivityTable.FenceEndsOnlyWithItsOwner | internal/canonical/activity.go:123-137 | a standing fence is removed by its owner's finish and by nothing else |
| ActivityTable.CommandsProceed | internal/canonical/activity.go:72-137 | an admitted command is queued once, in flight once and then gone, whatever other commands do in between |
| ActivityTable.StepKeepsInv | internal/canonical/activity.go:72-137 | sequence numbers are not reused, a fence stands while its owner is live, and an uncontended one means no company |
| ActivityRegistry.Registry.Admit | internal/canonical/activity.go:72-101 | the method in place, with its scan for other entries, admits as specified |
| ActivityRegistry.Registry.Transition | internal/canonical/activity.go:103-121 | only accepted to queued and queued to in flight, for the token's own entry |
| ActivityRegistry.Registry.Finish | internal/canonical/activity.go:123-137 | the entry goes, and the fence with it only if it is the owner's |
| ActivityRegistry.Registry.RequireExclusive | internal/canonical/activity.go:159-179 | the final check refuses wrong tokens, contended fences and company |
| CommitCore.PoisonIsFinal | internal/canonical/writer.go:554-556 | a poisoned Writer changes nothing and never calls Begin again in its process |
| CommitCore.RepliesAreExact | internal/canonical/writer.go:553-619 | the same for one command: a committed reply means exactly one appended unit, any other reply of a healthy Writer none |
| CommitCore.RepliesMean | internal/canonical/writer.go:553-619 | the same for one command, on the script and the head alone |
| CommitCore.ExecuteKeepsInv | internal/canonical/writer.go:553-651 | until poisoned, the cursor is the newest durable commit, for all clock readings and at the 64-bit bounds |
| CommitWriter.Writer.Execute | internal/canonical/writer.go:553-619 | the step-by-step method reaches the state and the reply of the specification for every script of answers |
| CommitWriter.Writer.NextMetadata | internal/canonical/writer.go:621-651 | the next commit has the head's number plus one and a strictly later time, the clock's or the next instant; it is refused exactly without an ID or at a 64-bit bound |
| SubmissionProtocol.SlotsMatchTheQueue | internal/canonical/writer.go:309-334 | a sender with a slot never blocks on the queue, and the consumer always finds the slot of what it took |
| SubmissionProtocol.NeverStuck | internal/canonical/writer.go:477-508 | a closed, unfinished Writer always has a step of its own to take |
| SubmissionProtocol.PauseSucceedsQuietly | internal/canonical/writer.go:350-385 | a pause that returns is quiet unless somebody resumed since; a waiting one has a channel that the last live command will close |
| SubmissionProtocol.StepKeepsInv | internal/canonical/writer.go:262-544 | every client, consumer and control step keeps counters, queue, slots, table and channels in agreement |
| SubmissionProtocol.MarkKeepsInv | internal/canonical/writer.go:322-329 | the transition to queued never fails for the Writer's own token, so that failure path is dead |
| WriterGates.EnqueueGate.ReserveEnqueue | internal/canonical/writer.go:458-466 | reserved exactly while accepting, and counted then |
| WriterGates.EnqueueGate.FinishEnqueue | internal/canonical/writer.go:468-475 | the last enqueuer of a closed Writer closes enqueueDone |
| WriterGates.EnqueueGate.Close | internal/canonical/writer.go:432-451 | acceptance ends once, and enqueueDone closes with it if nobody is enqueueing |
| WriterGates.AdmissionGate.BeginAdmission | internal/canonical/writer.go:405-413 | admitted exactly while open, and counted then |
| WriterGates.AdmissionGate.EndAdmission | internal/canonical/writer.go:415-426 | the last admission closes the waiters' channel; a drop below zero panics |
| WriterGates.AdmissionGate.PauseAdmissions | internal/canonical/writer.go:350-371 | the gate closes, and waiters share one channel while commands are live |
| WriterGates.AdmissionGate.ResumeAdmissions | internal/canonical/writer.go:376-385 | refused while anything is live |
| Startup.RunServeStartupSequence | cmd/mahoroba/startup_orchestration.go:34-102 | phases run in the fixed order up to the first failure, which is what FailGate is told; the gate opens only after all others succeeded |
| BlobProtocol.StepKeepsInv | internal/blob/store.go:363-692 | every directory change, commit, failure, crash and outside damage keeps content recoverable |
| BlobNamespace.CleanupResumes | internal/blob/store.go:1124-1234 | a cleanup that stopped after a change is taken up by the next one exactly where it stopped |
| BlobNamespace.AcknowledgeResumes | internal/blob/store.go:611-692 | an acknowledgement that stopped after a change is taken up likewise |
| BlobNamespace.CleanupCompletesExactly | internal/blob/store.go:1204-1226 | an undisturbed cleanup finishes if and only if it need not move an unreferenced object over its quarantined twin, nor its marker over one |
| BlobProtocol.TwinIsReachable | internal/blob/store.go:455-532 | a run reaches such a twin: an unreferenced upload, a recovery that died half-way, and the same content uploaded anew before recovery ran again |
| BlobNamespace.CleanupRefusesCleanly | internal/blob/store.go:1085-1170 | a missing or foreign marker changes nothing, and a mismatching object is set aside as evidence |
| BlobNamespace.AcknowledgeSucceedsExactly | internal/blob/store.go:611-692 | acknowledging succeeds if and only if the object is good and a marker still there is the caller's own; it leaves the object and no marker |
| BlobProtocol.UploadGoesThrough | internal/blob/store.go:363-692 | an upload under a fresh name to a free place or a good object ends referenced, with its object and without its marker |
| BlobDirectories.FileStore.CleanupOrphan | internal/blob/store.go:1085-1235 | the method in place performs the planned changes in order, stops at the first failure, and reports success exactly when all of them happened |
| BlobDirectories.FileStore.RemoveOrphanMarker | internal/blob/store.go:1237-1246 | the marker leaves staging for quarantine and is then deleted |
| BlobDirectories.FileStore.Finalize | internal/blob/store.go:455-532 | publishes once, deduplicates a good object, and sets a mismatching one aside as evidence with an error; verifying the published file again and rebinding the source are not part of it |
| BlobDirectories.FileStore.Acknowledge | internal/blob/store.go:611-692 | removes the marker only after verifying the object, in either place it may be found |
| GcPlan.AcceptableExactly | internal/blobgc/plan.go:145-215 | a capture is accepted if and only if, one by one, locators and files are valid and of the resident, no digest occurs twice, each locator has a copy and each file a locator, copies to be collected agree in size, and the total fits |
| GcPlan.PlanIgnoresInputOrder | internal/blobgc/plan.go:160-164 | acceptance and plan do not depend on the order of locators or files |
| GcPlan.BuildPlan | internal/blobgc/plan.go:145-229 | succeeds if and only if files and locators are valid, free of duplicates, match each other and fit the byte count, and then returns that plan |
| GcPlan.WalkLocators | internal/blobgc/plan.go:171-215 | the main loop, with its shrinking file map and its overflow test, rejects exactly the inconsistent inputs |
| GcPlan.ValidateCandidates | internal/blobgc/plan.go:93-106 | accepts exactly valid candidates in strictly increasing key order |
| GcPlan.CollectFiles | internal/blobgc/plan.go:149-158 | accepts exactly scoped files without duplicate digests |
| GcRun.Execute | internal/blobgc/gc.go:79-165 | deleted plus remaining is the candidate count at every exit; only planned copies go, each candidate after the commit of the one before; nothing without confirmation; Partial exactly when something may have changed |
| GcRun.CollectOne | internal/blobgc/gc.go:95-161 | one candidate's transaction: file, row, commit in this order, with the mutation flag set exactly when one was reported |
| Session.LastBlockIs | internal/activity/session.go:110-122 | the tail without an inner gap that the walk stops at is the last block of the forward partition |
| Session.FindStart | internal/activity/session.go:110-122 | the backward loop finds the start of that block |
| Session.GapIsTheDifference | internal/activity/session.go:219-224 | the unsigned 64-bit comparison is the integer comparison for all instants and non-negative gaps |
| Session.LifecycleAt | internal/activity/session.go:167-198 | status and boundary are those of the newest transition in view; unknown statuses are errors even out of view |
| SessionMeaning.NewestDecides | internal/activity/session.go:167-198 | the newest transition in view, the last of those recorded alike, or else the initial status decides on activity and its beginning |
| SessionMeaning.RefusedExactly | internal/activity/session.go:58-72 | an error if and only if the idle gap or the bound is not positive or some status is unknown |
| Session.UniformKeysSuffice | internal/activity/session.go:75-84 | uniformly positive or uniformly zero commit cursors with distinct numbers meet both conditions |
| Session.MixedCursorsDoNot | internal/activity/session.go:75-84 | three keys, one of them without a commit cursor, break both promises |
| Hashes.CommitmentRoundTrip | internal/canonical/hash.go:154-166 | a commitment preimage decodes to exactly its class, salt and bytes |
| Hashes.PreimagesAreDisjoint | internal/canonical/hash.go:154-188 | no commitment preimage is an event preimage |
| Hashes.CommitmentBinds | internal/canonical/hash.go:168-177 | given collision-free hashing, equal commitments have equal class, salt and bytes |
| Ledger.VerifyEvents | internal/canonical/ledger.go:96-155 | the record walk accepts exactly the linked, strictly increasing, correctly hashed chains |
| LedgerRecording.TamperingIsDetected | internal/canonical/ledger.go:163-223 | given collision-free hashing, records that verify under one event hash and payload commitment carry one envelope and, while present, one class, salt and content; erased content keeps nothing |
| Ledger.WithoutValidatorLengthIsOpen | internal/canonical/ledger.go:129-138 | without a validator ledgers of different length can share a head hash |
| Autonomy.SelfTalksKeepDistance | internal/autonomy/scheduler.go:68-80 | two self-talks keep the interval even when a user message resets the anchor between them |
| Autonomy.ConsecutiveFolds | internal/autonomy/scheduler.go:9-27 | the counter kept event by event is the number of self-talks since the last user message |
| Autonomy.SelfTalkReasonIsGone | internal/autonomy/scheduler.go:58-80 | at NextEligibleAt, which lies ahead, quiet hours or interval no longer block |
| Autonomy.InitiativeReasonIsGone | internal/autonomy/scheduler.go:130-157 | at NextEligibleAt quiet hours, suppression or interval no longer block |
| Autonomy.QuietUntilEnd | internal/autonomy/policy.go:69-84 | quiet hours, also across midnight, last without a break up to EndAfter, which is not quiet |
| Autonomy.HoursStayWithin | internal/autonomy/policy.go:217-225 | no calendar hour of the zone ever holds more self-talk than its limit |
| Eligibility.InitiativeIsEligibleExactly | internal/autonomy/scheduler.go:99-170 | the same for any snapshot and timing, also with a clock that went back |
| Eligibility.SelfTalkIsEligibleExactly | internal/autonomy/scheduler.go:29-96 | the same for any snapshot and timing of self-talk |
| Eligibility.InitiativeReasonIsTrue | internal/autonomy/scheduler.go:99-170 | the reason given for a refusal holds, and a limit's next moment is the next local hour or day |
| Eligibility.SelfTalkReasonIsTrue | internal/autonomy/scheduler.go:29-96 | the same for self-talk |
| Eligibility.QuietExactly | internal/autonomy/policy.go:69-75 | quiet hours are the circular span of minutes from the start to before the end |
| Eligibility.CalendarIsLocal | internal/autonomy/policy.go:217-225 | hours and days begin on the zone's own clock and contain the moment |
| TriggerKeys.JoinIsInjective | internal/autonomy/types.go:139 | joining colon-free parts loses nothing although parts are optional and untagged |
| TriggerKeys.BuildParts | internal/autonomy/types.go:121-138 | the slices filled in steps are the parts that the key is proved about |
| TriggerKeys.ClaimsAreOrdered | internal/autonomy/types.go:132-135 | the text order of claim IDs separates all valid claims, so sorting forgets discovery order |
| Codecs.IdTextRoundTrip | internal/canonical/id.go:78-80 | every non-zero 128-bit value has a canonical text that reads back as it |
| Codecs.CanonicalIdRoundTrip | internal/canonical/id.go:36-59 | every accepted text is the text of a non-zero value below 2 to the 128 |
| Codecs.IsCanonicalDecimal | internal/canonical/types.go:446-469 | the scanning loop accepts exactly canonical decimals |
| Codecs.HexRoundTrip | internal/canonical/hash.go:49-72 | a digest's text reads back as the digest |
| Codecs.HexIsCanonical | internal/canonical/hash.go:49-60 | every accepted digest text is the text of the digest it reads as |
| Codecs.OnlySealedNamesParse | internal/blob/store.go:1399-1430 | nothing else parses, and what parses names a non-zero resident and a digest |

## Left out

- Landing theorems for dialogue: `callAndLand` submits without the landing lock, so no theorem here covers it.
- The parallel per-resident maps of `Application` are one object per resident; a missing entry is `None`, 0 or false.
- `LandingLocks` follows the landing locks alone; mutexes held only for a map access, and `residentBoundaryMu`, which is
  taken before any of them, are not part of it, and threads that arrive later are new starting states.
- Provider calls, their retries and outcome classification: a call registers, may be preempted, lands or does not.
- The body of `processFairMandatoryMemory` beyond its cursor block, and the cancellation of archived residents' work.
- Epochs, sequence and channel numbers are unbounded; 64-bit wrap-around of those counters is not modelled.
- The response that a submitter waits for: it changes no shared state, so `Respond` only ends the consumer's turn.
- Panics inside `Rollback` while recovering from a panic: the process dies, which here is a restart.
- Partial staging files and their cleanup hold no sealed content; directory creation, handles, identities other than
  the file's own, and fsync are not part of this model (nor is `fssecure`).
- Erasure of references: the blob model has references that only grow, and `RemoveFinal` runs in the collector model.
- Concurrency inside one `Finalize`, `Acknowledge` or `CleanupOrphan` beyond staging and commits: `finalizeMu` excludes it.
- Canonical plan bytes and the plan's head and version fields: the digest is an arbitrary function of the plan.
- GcRun.Execute: takes its plan and confirmation as parameters; `GcRun.Run` computes them.
- BlobDirectories.FileStore.CleanupOrphan: leaves out partial staging files, which are moved aside and deleted without
  looking at references.
- BlobDirectories.FileStore.Finalize: leaves out the second verification after publication and the rebinding of the
  source handle; both only detect interference from outside.
- GcPlan.ValidateCandidates: leaves out the version, head and digest fields of a plan, which the builder has just set.
- The sorts are stable insertion sorts; under a comparator that is not a weak order another stable sort may differ, so
  which transition or event is newest is then said of this sort only.
- The disposition label in a cleanup result; the model says what is left in the directories.
- JSON quoting around logical integers and UTF-8 validation of their input; strings are sequences of characters.
- Daylight saving, timezone loading, process-monotonic anchors (the commit decides without them) and `Duration` overflow.
- ID generation, projection coordination, HTTP, TTS, CLI, backups and diagnostics.
