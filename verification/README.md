# Verified model of the process-summary pipeline

This project models the durable core of a system that acquires Brazilian court processes from a paid
provider, stores versions of them, has summaries generated and publishes a summary only when its
evidence holds. It is written in Dafny 4.11; `dfyconfig.toml` lists its files.

SQL rows are objects in maps and sequences, a transaction is one step unless a module says otherwise,
and provider calls, clocks and crashes are arbitrary. Code that updates rows or builds lists in loops
is modelled by classes and methods; each is tied to a specification function, and the promises of the
program are lemmas about those functions, over all inputs, all runs or all reachable states.

| Part | Modules | Main results |
|---|---|---|
| Job queue | `Jobs`, `JobMoves`, `JobLocks`, `JobQueue` | every run with row locks, crashes and aborts refines a run of atomic statements (`LocksRefineAtomic`); rows stay well formed, terminal rows are absorbing, a worker that lost a job is fenced, a live one keeps it, a measure drops on every change, claims equal attempts |
| Paid acquisition | `Acquisition`, `ProcessRequests` | at most one call per attempt, at most `attempt_number` and 100 calls, at most one more than safe refusals, none after an unclear outcome or a recorded request id |
| Public lifecycle | `PublicLifecycle`, `JobLifecycle`, `Worker` | ranks never regress, `completed_at` and `summary_id` mean what they say, the end of a summary job is the end of its public requests |
| Version store and ingestion | `VersionStore`, `ProcessTable`, `Ingestion`, `Overlap`, `JuditIntake` | order independence of deliveries over whole runs, immutability and one-hop equivalence of versions; with finalizers that overlap in any way, exactly which responses can leave the wrong content behind |
| Structured summary | `Text`, `SummaryOutput`, `ParsedSummary`, `SummaryRender`, `SummaryLines`, `HeadingChecks`, `RenderedHeadings`, `RenderedSections`, `SummaryWriter` | the parser accepts and returns exactly what is said field by field; normalisation is a fixed point exactly when the texts fit their caps; every parsed summary, rendered, passes the heading checks of the validator, and each field is read back under its own heading |
| Claim evidence | `MaterialClaims`, `ClaimVerification`, `SummaryDocument`, `PublicationGate`, `ClaimEvidence`, `EvidenceAgreement`, `EmptyExcerpt` | validator, verifier, database constraints, reload and publication gate agree, in both directions |
| Retrieval | `Sorting`, `Selection`, `Bm25`, `Retrieval`, `Reranking` | two-stage selection keeps exactly the mandatory movements of the process, and size and preference leave one selection only |
| Text algorithms | `Chunker`, `ModelView`, `Budget` | chunks tile the text, the Unicode view is clean and idempotent, budgets are safe and fair |
| Arithmetic | `RateLimit`, `Cnj` | at most twice the limit in any sixty seconds; the CNJ check digits detect every changed digit and every swap |

Findings, each with a lemma that shows it and the exact condition where there is one:

- A finalizer reads the preferred version before it locks the process, so an overlapping one can put back
  an older content. Over all runs that can happen exactly when two responses mean the same and a third one,
  that does not, may come between them: `Overlap.OverlapRegressesExactly`; a run where it does:
  `Overlap.OverlappingFinalizersRegress`; exactly which commits do it: `Overlap.LateFinalizer`. Finalizers of a
  request with a linked public request wait for each other and are safe: `Overlap.SerialFinalizersAgree`.
- The length caps of a summary are checked before a guard character is added, so a text at its cap may be
  accepted once and rejected when parsed again: `SummaryOutput.NormalisationIsFixedPoint`,
  `SummaryOutput.GuardMayBreakTheCap`.
- A class name that reads as a heading changes the headings of the document:
  `SummaryRender.DocumentHeadings`, with such a name in `SummaryRender.HashedClassAddsHeading`.
- A validated summary is not publishable if a cited source that bears on its claim has no text:
  `EvidenceAgreement.ValidatedIsPublishable`, with such a summary in `EmptyExcerpt.AcceptedIsNotPublishable`.
- A list or an object among the shown header fields of a process, or a party value that is not a text, makes
  every document about it fail the canonicity check: `SummaryDocument.DocumentIsCanonical`,
  `SummaryDocument.NestedAmountIsRefused`.
- Redelivered content is deduplicated exactly when its movements and its manifest are listed in key order:
  `VersionStore.RedeliveryIsDeduplicated`; a manifest that is promoted twice:
  `VersionStore.OutOfOrderIsPromotedTwice`.
- Attachment chunks may be cut although all of them would have fitted: nothing is cut exactly when each text
  is within its share of what the texts before it left over (`Budget.WholeExactly`), two texts that are not
  in `Budget.LongTextFirst`.
- `retry_after` of the rate limiter is rounded down and may be too short: `RateLimit.RetryAfterIsEnough`.

## Model

| member | source | states |
|---|---|---|
| Jobs.StepKeepsGood | app/queue.py:14-98 | each statement keeps: a processing row has one owner and a heartbeat, a pending row has attempts left, keys are unique |
| Jobs.ReachableIsGood | app/queue.py:14-98 | the same over every run |
| Jobs.TerminalIsAbsorbing | app/queue.py:50-98 | a completed or dead row is never rewritten, only purged, and its id never returns |
| Jobs.StaleWorkerIsFenced | app/queue.py:43-73 | erasing all heartbeats, completions and failures of a worker that does not hold the job changes no later state |
| Jobs.LiveWorkerKeepsJob | app/worker.py:57-76 | while heartbeats are younger than the reclaim timeout, the owner and the attempts of a job stay as they are |
| Jobs.WorkDrops | app/queue.py:14-98 | writing rows that each lose work lowers the total by at least their number |
| Jobs.StepUsesWork | app/queue.py:14-98 | the measure drops by one at least for every row that a claim, completion, failure or reclaim changes, and grows only by inserts |
| Jobs.RunsUseWork | app/queue.py:14-98 | a run makes at most as many row changes as its initial work and its inserts allow |
| Jobs.ClaimsAreAttempts | app/queue.py:14-31 | attempts count the claims, and no job is claimed more than max_attempts, at most 100, times |
| Jobs.TerminalOrGone | app/scheduler.py:59-74 | a purged job id never comes back |
| Jobs.RetryWaits | app/queue.py:108-111 | the backoff lies between 2 and 300 seconds and a failed job is not runnable at once; it dies exactly when the failure is permanent or the attempts are used up |
| JobMoves.ClaimTakesTheFirst | app/queue.py:14-31 | the claimed job is due and comes first by priority and then run_at among the due jobs nobody has locked; only its owner, heartbeat and attempts change |
| JobMoves.NothingToClaim | app/queue.py:14-31 | nothing is claimed exactly when no unlocked job is due |
| JobMoves.OwnerMoves | app/queue.py:43-55 | heartbeat and completion change the job of the worker that owns it and nothing else |
| JobMoves.BackoffDoubles | app/queue.py:108-111 | the delay is two seconds at first, doubles with every attempt and stops at 300 |
| JobMoves.FailedJob | app/queue.py:57-73 | a failed job dies exactly if the failure is permanent or its attempts are used up, and otherwise is due exactly from the end of its delay on |
| JobMoves.FailureOfOthers | app/queue.py:57-73 | a failure reported by a worker that does not own the job changes nothing |
| JobMoves.ReclaimTakesBack | app/queue.py:75-98 | exactly the unlocked jobs whose heartbeat is older than the timeout are taken back, dead if their attempts are used up |
| JobMoves.ReclaimedIsDue | app/queue.py:75-98 | in every reachable state a job that is taken back is due at once exactly if it has attempts left |
| JobMoves.InsertedJob | app/queue.py:33-41 | a job is inserted unless its key exists, pending, unowned and without attempts |
| JobMoves.PurgeAndTick | app/scheduler.py:59-74 | a purge takes away exactly the named jobs, all of which have ended, and the clock changes no row |
| JobLocks.SameOnUnlocked | app/queue.py:14-31 | a statement under SKIP LOCKED depends on unlocked rows only and writes none that is locked |
| JobLocks.BeginIsAtomic | app/queue.py:14-98 | where a transaction takes its locks, the atomic run takes the whole statement, or nothing if it will abort |
| JobLocks.AutoIsAtomic | app/queue.py:33-41 | a single-statement transaction is the same atomic statement |
| JobLocks.LocksRefineAtomic | app/queue.py:14-98 | every run with locks, commits, aborts and crashes has an atomic run with the same final rows |
| JobLocks.CommittedRowsAreGood | app/queue.py:14-98 | the committed rows of such a run are well formed and no job is claimed more than 100 times |
| JobLocks.OneHolder | app/queue.py:14-31 | no two open transactions hold the same row |
| JobQueue.JobTable.Enqueue | app/queue.py:132-151 | bounds of max_attempts, nothing inserted when the key is taken, else exactly the new pending row |
| JobQueue.JobTable.FindClaimable | app/queue.py:14-31 | finds a row minimal by priority and run_at among the unlocked runnable ones, or none if there is none |
| JobQueue.JobTable.ClaimJob | app/queue.py:14-31 | performs an enabled claim and nothing else |
| JobQueue.JobTable.HeartbeatJob | app/queue.py:43-48 | renews the heartbeat exactly if the worker owns the job |
| JobQueue.JobTable.CompleteJob | app/queue.py:50-55 | completes exactly if the worker owns the job |
| JobQueue.JobTable.FailJob | app/queue.py:57-73 | retries or kills exactly if the worker owns the job, and returns which |
| JobQueue.JobTable.ReclaimStale | app/queue.py:75-98 | the loop rewrites exactly the stale unlocked rows and returns their ids |
| Acquisition.StepKeepsInv | app/process_requests.py:62-136 | every step of the paid protocol keeps the invariant of rows, jobs, handlers and calls |
| Acquisition.RequestSchedules | app/process_requests.py:62-136 | a request inserts the job of its call exactly when the row is missing or retryable with attempts left: the key of a new attempt is never taken |
| Acquisition.RunKeepsInv | app/process_requests.py:62-224 | the same over every run with crashes, reclaims and late workers |
| Acquisition.QueueKeepsTokens | app/queue.py:57-98 | no queue statement creates, moves or destroys the right to call the provider |
| Acquisition.CallsAreBounded | app/process_requests.py:71-136 | an attempt makes at most one call, an acquisition at most attempt_number calls, and that never exceeds 100 |
| Acquisition.CallsAreFresh | app/process_requests.py:161-224 | a call is made only in progress, without a recorded request id and not for an attempt called before |
| Acquisition.ClosedStaysClosed | app/process_requests.py:161-224 | after an ambiguous failure or a recorded request id there is no further call and the row never changes |
| Acquisition.CallsNeedRefusals | app/process_requests.py:71-224 | over every run an acquisition makes at most one call more than refusals that are safe to retry were recorded for it |
| Acquisition.UnclearIsFinal | app/process_requests.py:188-205 | once an unclear outcome is recorded no later run makes a call for the acquisition, and its status stays |
| Acquisition.AcceptedIsFinal | app/process_requests.py:207-222 | once a request was accepted every later state has its id, and no later run makes a call |
| Acquisition.RefusedIsRetried | app/process_requests.py:78-95 | after a safe refusal the next request schedules the following attempt, and none after the hundredth |
| Acquisition.FirstIsScheduled | app/process_requests.py:117-136 | an acquisition nobody asked for before starts with its first attempt |
| Acquisition.ClaimLeadsToCall | app/process_requests.py:160-186 | a claimed attempt can read its row and make its one call |
| ProcessRequests.AcquisitionTable.RequestProcess | app/process_requests.py:62-136 | performs the request step on both tables and says whether a call was scheduled |
| ProcessRequests.AcquisitionTable.RecordOutcome | app/process_requests.py:188-222 | updates the row only while no request id is recorded: accepted keeps the id, a safe refusal may be retried, anything else is ambiguous |
| PublicLifecycle.MovedTwice | app/public_lifecycle.py:201-258 | repeating a transition changes nothing |
| PublicLifecycle.TerminalTargetEnds | app/public_lifecycle.py:191-258 | a terminal target leaves a terminal request, and a terminal request keeps its status |
| PublicLifecycle.MovesExactly | app/public_lifecycle.py:191-258 | a request moves exactly forward, to an end, or nowhere, and what each column holds then |
| PublicLifecycle.RequestTable.CreateOrGet | app/public_lifecycle.py:82-133 | creates exactly for an acceptable unused key, returns the stored request for an exact replay, and refuses the key with another body |
| PublicLifecycle.RequestTable.LinkToAcquisition | app/public_lifecycle.py:154-188 | links exactly when tenant and code agree and no other acquisition is linked |
| PublicLifecycle.RequestTable.Transition | app/public_lifecycle.py:201-258 | performs an allowed transition and ignores a stale one |
| PublicLifecycle.RequestTable.TransitionMany | app/public_lifecycle.py:261-287 | the loop moves exactly the listed requests and counts them |
| PublicLifecycle.RequestTable.TransitionLinked | app/public_lifecycle.py:290-379 | moves exactly the requests linked to the acquisition, request or version |
| JobLifecycle.StepAdvances | app/public_lifecycle_worker.py:18-150 | no step lowers the rank of a request or leaves a terminal status |
| JobLifecycle.RunAdvances | app/public_lifecycle.py:191-258 | the same over every run |
| JobLifecycle.RunKeepsGood | app/public_lifecycle_worker.py:33-134 | completed_at is set exactly in terminal states and summary_id exactly in completed ones, over every run |
| JobLifecycle.MarkReclaimedEnds | app/worker.py:285-302 | marking the dead jobs of one reclaim ends every request linked to one of them |
| JobLifecycle.ReconciledEnds | app/public_lifecycle_worker.py:33-134 | reconciling a result ends every linked request, whether or not the gate let it through |
| JobLifecycle.JobEndIsPublicEnd | app/worker.py:189-256 | however a summary job ends, every request linked at that moment is terminal then and in all later states |
| JobLifecycle.JobDeathIsPublicEnd | app/public_lifecycle.py:382-425 | any pipeline job that dies ends the requests linked to it |
| JobLifecycle.CompletionEndsExactly | app/worker.py:189-210 | completing a job makes a linked request terminal exactly when it is a summary job or the request was terminal before |
| JobLifecycle.FailureMarks | app/worker.py:240-256 | after a failure every public request is failed if the job worked for it and died, and is as it was otherwise |
| JobLifecycle.ReclaimMarks | app/worker.py:285-302 | after a reclaim exactly the requests of stale jobs without attempts left are failed |
| JobLifecycle.CompletionMarks | app/public_lifecycle_worker.py:33-134 | after a completion exactly the requests of a summary job are completed with its summary, or failed in validation |
| JobLifecycle.StartMarks | app/public_lifecycle_worker.py:18-30 | the start of a summary job shows in its requests that are not beyond it, and in no other |
| JobLifecycle.OtherMoves | app/worker.py:162-256 | a worker that lost its job changes nothing, and a request is linked to one acquisition only |
| Worker.WorkerProcess.StartSummary | app/worker.py:162-176 | ownership is checked again before the start is marked |
| Worker.WorkerProcess.SettleSuccess | app/worker.py:189-213 | completion and reconciliation of the linked requests are one step, taken only by the owner |
| Worker.WorkerProcess.SettleFailure | app/worker.py:229-256 | failure and the marking of a dead job are one step, taken only by the owner |
| Worker.WorkerProcess.ReclaimRound | app/worker.py:285-302 | one round reclaims the stale rows and marks the requests of the dead ones |
| VersionStore.SortedTable | app/processes.py:212-221 | rows inserted by key and read back sorted are the items again when those were in key order |
| VersionStore.StageAgain | app/processes.py:107-150 | staging a response that is already there changes no version |
| VersionStore.StagedAgain | app/processes.py:107-140 | a known source rewrites its version as long as that is not finalized, and no other |
| VersionStore.StagedNew | app/processes.py:91-140 | a new source adds a version that is neither finalized nor current |
| VersionStore.TableKeepsFirst | app/attachments.py:76-104 | of several attachments with one identifier the first is kept |
| VersionStore.DocumentMeans | app/process_semantics.py:14-60 | two semantic documents are equal exactly when the fields are and movements and attachments agree one by one |
| VersionStore.UnchangedMeans | app/processes.py:185-244 | content counts as unchanged exactly when the process row has its fields and the rows of the current version are its movements and attachments |
| VersionStore.EquivalentHolds | app/processes.py:306-340 | a version marked equivalent to another has the fields and the rows of that one |
| VersionStore.StageKeepsGood | app/processes.py:81-158 | staging keeps the invariant of versions, processes and equivalences |
| VersionStore.FinalizeKeepsGood | app/processes.py:276-414 | finalizing keeps it: the process row equals its current version and an equivalence points in one hop to a promoted version with the same meaning |
| VersionStore.RunsFollow | app/processes.py:107-414 | over every run the invariant holds, current versions only get newer and a finalized version never changes |
| VersionStore.FinalizeKeepsSources | app/processes.py:276-414 | finalizing changes neither source nor payload of any version |
| VersionStore.ReadBackMeansTheSame | app/processes.py:185-244 | what was stored reads back with the same fingerprint exactly when it was listed in key order |
| VersionStore.RedeliveryIsDeduplicated | app/processes.py:306-340 | content delivered again is marked equivalent to the current version exactly when its movements and its manifest are in key order |
| VersionStore.TwiceDelivered | app/processes.py:247-414 | a run that receives any given content twice, with that outcome |
| VersionStore.OutOfOrderIsPromotedTwice | app/processes.py:304-414 | content with a manifest out of order that becomes current a second time |
| ProcessTable.ProcessTable.Stage | app/processes.py:81-158 | the inserts and updates of staging are the specified step |
| ProcessTable.ProcessTable.SameAsCurrent | app/processes.py:185-244 | true exactly when process row and current version hold the content |
| ProcessTable.ProcessTable.FinalizeStaged | app/processes.py:247-414 | the successive updates of a finalization are the specified step, and it says whether it promoted |
| Ingestion.StepKeepsInv | app/api.py:348-395 | deliveries, completions, finalizers and purges keep: a completed request whose process is not settled has a finalizer waiting |
| Ingestion.RunKeepsInv | app/judit_tasks.py:136-194 | the same over every run |
| Ingestion.FinalizerSettles | app/processes.py:247-414 | finalizing the preferred version makes the process show its content |
| Ingestion.DeliveryOrderIndependence | app/api.py:347-395 | in whatever order and however often responses and completion came, once completed and with every finalizer run, the process row has the fields of the preferred version and the rows of its current version are the movements and attachments of that |
| Ingestion.SameResponsesSameProcess | app/api.py:347-395 | two runs in which the same response is the newest fresh, or else the newest cached one, end with processes that mean the same |
| Ingestion.OnlyFreshIsNewest | app/processes.py:161-179 | a single fresh response is the newest in whatever order it came |
| Ingestion.PreferredMeans | app/processes.py:161-179 | the preferred version is a newest fresh one of the request, or without any a newest cached one |
| Ingestion.CallbacksCountOnce | app/api.py:298-313 | whatever came with a callback id, nothing that comes with it later changes anything |
| Ingestion.FirstTime | app/api.py:316-395 | a first delivery stages its response, and a first completion is noted and asks for a finalizer |
| Overlap.AtOnce | app/judit_tasks.py:136-194 | a finalizer that reads and commits with nothing in between is the one step of Ingestion |
| Overlap.StepKeepsInv | app/judit_tasks.py:136-194 | every step, with deliveries and other finalizers between the read and the commit of one, keeps: the preferred version is shown, is going to be finalized by a job that read nothing else, or follows two that alternate |
| Overlap.RunKeepsInv | app/judit_tasks.py:136-194 | the same over every run, with transactions that abort and jobs that run twice |
| Overlap.CommitShows | app/processes.py:276-414 | what the process shows after a commit: the version if it is new, not older than the current one and different, else what it showed |
| Overlap.LateFinalizer | app/judit_tasks.py:136-194 | the shown content of the preferred version survives a commit exactly if its version was finalized, is not promoted or means the same |
| Overlap.SerialFinalizersAgree | app/judit_tasks.py:136-194 | finalizers that do not overlap each other end with the preferred version shown, whatever is delivered between the read and the commit of one |
| Overlap.OverlapIsHarmless | app/judit_tasks.py:136-194 | once the completion was delivered and every finalizer ran, the preferred version is shown unless two versions before it alternate |
| Overlap.OverlapRegresses | app/judit_tasks.py:136-194 | any three responses that alternate have a run that ends with the wrong content |
| Overlap.OverlapRegressesExactly | app/judit_tasks.py:136-194 | for every feed, some run ends with the wrong content exactly when three of its responses alternate |
| Overlap.OverlappingFinalizersRegress | app/judit_tasks.py:136-194 | such a run for three given responses |
| JuditIntake.Service.RecordDelivery | app/api.py:298-313 | a callback id is recorded once |
| JuditIntake.Service.EnqueueFinalize | app/api.py:336-345 | a finalizer is enqueued once per key |
| JuditIntake.Service.LawsuitResponse | app/api.py:348-395 | the transaction of a lawsuit response is the specified step |
| JuditIntake.Service.RequestCompleted | app/api.py:316-324 | the transaction of a completion is the specified step |
| JuditIntake.Service.PreferredVersion | app/processes.py:161-182 | finds a newest fresh version, else a newest cached one, else none |
| JuditIntake.Service.RunFinalizer | app/judit_tasks.py:89-194 | the finalizer is the specified step on the preferred version |
| JuditIntake.Service.FinishFinalizer | app/judit_tasks.py:189-194 | the commit of a finalizer for whatever version it had read |
| Text.InlineNormalizes | app/summary_output.py:105-106 | the result has single spaces only and none at its ends, and such a text is its own result |
| Text.InlineKeepsWords | app/summary_output.py:105-106 | the words of the result are those of the text, and it is empty exactly for a blank text |
| Text.SpacesAre | app/summary_output.py:91 | the twenty-nine whitespace characters |
| Text.SplitOfJoin | app/summary_output.py:389 | joined lines split into the same lines |
| SummaryOutput.ProseNormalizes | app/summary_output.py:109-113 | a prose line never starts like markup, is its own prose line and is at most one character longer |
| SummaryOutput.StringListNormalizes | app/summary_output.py:116-126 | a parsed list is within its limits and holds prose lines only |
| SummaryOutput.StringListOfItems | app/summary_output.py:116-126 | such a list parses to itself |
| SummaryOutput.Claims | app/summary_output.py:129-166 | the loop returns the claims in order or the first error |
| SummaryOutput.ClaimReparses | app/summary_output.py:129-166 | a parsed claim parses to itself exactly when its text is within the cap |
| SummaryOutput.ParsedIsNormal | app/summary_output.py:169-205 | whatever parses is in normal form |
| SummaryOutput.NormalReparses | app/summary_output.py:169-205 | a normal form parses to itself if it fits its caps and is rejected otherwise |
| SummaryOutput.NormalisationIsFixedPoint | app/summary_output.py:169-252 | parsing again changes nothing, and the document is canonical, exactly when the guarded texts fit their caps |
| SummaryOutput.CanonicalIsNormal | app/summary_output.py:208-252 | the canonical documents are exactly the normal forms that fit |
| ParsedSummary.LineIs | app/summary_output.py:109-113 | a prose line holds the words of the text with single spaces, after a word joiner exactly where it would read as markup |
| ParsedSummary.InlineOfMeans | app/summary_output.py:105-106 | what Python takes for false renders as nothing, anything else as its own text |
| ParsedSummary.ParserMeans | app/summary_output.py:129-205 | a payload parses exactly when keys, types, lengths and counts of each field are as stated, and each field of the result comes from the field of its own name |
| ParsedSummary.ItemsAdd | app/summary_output.py:121 | the lines of two lists in a row are those of the first and then those of the second |
| ParsedSummary.ItemIs | app/summary_output.py:121 | an item gives its line, or nothing if it is blank |
| SummaryDocument.ProcessPartIsProcess | app/summary_output.py:215-241 | the process part passes its checks exactly when the header is flat and what is kept of the parties is text |
| SummaryDocument.DocumentIsCanonical | app/summary_output.py:208-317 | the document that is built is canonical exactly when, besides, its summary is a normal form within the caps, and then gives the summary back |
| SummaryDocument.DocumentIsOfProcess | app/summary_output.py:290-297 | it matches a later state of the process exactly when that renders the same process part |
| SummaryDocument.NestedAmountIsRefused | app/summary_output.py:226-230 | an amount that is a list: no document is canonical |
| SummaryDocument.CanonicalForm | app/summary_output.py:208-252 | the canonical documents are exactly those put together from parts of the stated types and keys |
| SummaryDocument.ProcessPartMeans | app/summary_output.py:261-287 | number, class and court as single lines, the latter two null exactly without a text |
| SummaryDocument.HeaderMeans | app/summary_output.py:281-285 | of the header exactly the seven keys with a value are kept |
| SummaryDocument.PartyMeans | app/summary_output.py:264-276 | of a party that is an object the four keys with a value are kept, and others are dropped |
| SummaryOutput.GuardMayBreakTheCap | app/summary_output.py:109-113 | a synthesis at the cap that is accepted once and rejected when parsed again |
| SummaryOutput.ToJsonInjective | app/summary_output.py:300-317 | the document determines the summary |
| SummaryRender.DocumentHeadings | app/summary_output.py:335-389 | the headings are the title, the core sections and the non-empty conditional sections, in order, exactly when the class name does not read as a heading |
| SummaryRender.HashedClassAddsHeading | app/summary_output.py:335-389 | a class name that adds a heading to every summary |
| SummaryRender.HeadingsOfBlocks | app/validation.py:64 | blocks whose bodies hold no heading yield exactly their titles |
| RenderedHeadings.MarkedMeans | app/validation.py:64 | a heading line is one to six marks and then whitespace or the end |
| SummaryRender.MarkedLine | app/validation.py:64 | a line of marks gives a heading of its own or swallows the next one |
| SummaryLines.SplitOfRender | app/summary_output.py:335-389 | splitting the rendered text gives back its lines; nothing is stripped and no line holds a line break |
| SummaryWriter.AppendList | app/summary_output.py:255-258 | adds nothing for no items, else a blank line, the heading and one bullet per item |
| SummaryWriter.RenderStructuredSummary | app/summary_output.py:335-389 | the loops that append lines produce the specified document |
| HeadingChecks.DocumentTitleErrors | app/validation.py:199-214 | reports exactly a wrong first line and a second title |
| HeadingChecks.BreaksAre | app/validation.py:199-214 | the line boundaries of splitlines |
| HeadingChecks.ObservedAscend | app/validation.py:217-273 | the observed indices ascend exactly when the headings are pairwise in order |
| HeadingChecks.CoreSectionOrderError | app/validation.py:217-249 | silent exactly when every core heading is spelled exactly, none comes twice and they are in order |
| HeadingChecks.ConditionalSectionOrderError | app/validation.py:252-273 | silent exactly when no conditional heading comes after a later one |
| HeadingChecks.UnexpectedHeadings | app/validation.py:276-286 | returns the headings that are not allowed, in order |
| HeadingChecks.AttentionBody | app/validation.py:388-395 | returns the lines between the first attention heading and the next heading, stripped, or none if there is no such heading |
| RenderedHeadings.OpensMeans | app/validation.py:63 | the next-heading pattern matches at a line exactly if marks, whitespace and something else begin there, over line breaks too |
| RenderedHeadings.AttentionIsShown | app/validation.py:388-395 | in a rendered document that body is exactly the list of attention items, never empty |
| HeadingChecks.Validate | app/validation.py:398-487 | the title, attention and heading checks together are silent exactly on the documents that pass |
| RenderedHeadings.RenderedPasses | app/summary_output.py:335-389 | every payload that parses renders to a document that passes, if its class name does not read as a heading |
| RenderedSections.ConditionalSectionsAre | app/summary_output.py:335-389 | decisions, deadlines, related processes and attachments stand each under their own heading, one line an item, and the heading is missing exactly if the list is empty |
| RenderedSections.NamesAre | app/summary_output.py:335-389 | under Partes and Assuntos stand the values that are not blank, in order, or a line that there are none |
| RenderedSections.ClassIs | app/summary_output.py:335-389 | under Classe stands the class name |
| RenderedSections.TimelineIs | app/summary_output.py:335-389 | under Movimentações stands the timeline and then the status |
| RenderedSections.AttentionIs | app/summary_output.py:335-389 | under Pontos de atenção stand its items |
| RenderedSections.PreambleIs | app/summary_output.py:335-389 | under the title stand the number, class, court and header of the process and then the synthesis |
| RenderedSections.HeaderIs | app/summary_output.py:76-84 | the seven header fields with their labels, in order, without the blank ones |
| MaterialClaims.SlotsAreDistinct | app/claim_evidence.py:75-86 | no two material fields share an identifier |
| MaterialClaims.ExpectedMaterialClaims | app/claim_evidence.py:75-86 | the loops fill the dictionary of identifiers and texts |
| MaterialClaims.ExpectedIsSlots | app/claim_evidence.py:75-86 | exactly the material fields are in it, each with its own text under a well-formed identifier |
| MaterialClaims.ExpectedIsFields | app/claim_evidence.py:23-86 | the dictionary holds exactly the synthesis, the status and each item of the six lists under the name of its field and its position, each with its own text |
| MaterialClaims.EvidenceCatalog | app/claim_evidence.py:105-130 | the loops fill the catalogue |
| MaterialClaims.CatalogMeans | app/claim_evidence.py:105-130 | exactly the selected references are citable, and each stands for the version, step or chunk it names |
| MaterialClaims.CheckRefs | app/claim_evidence.py:166-183 | silent exactly when the references are different, well formed and in the catalogue |
| MaterialClaims.ValidateClaimEvidence | app/claim_evidence.py:133-197 | silent exactly when there is one claim for the synthesis, the status and each item of the six lists, in its words and with citable references, and no other; then the claims come out as given |
| MaterialClaims.RefMeans | app/claim_evidence.py:17 | a reference is p, m or a, a dash and thirty-two small hexadecimal digits |
| MaterialClaims.ClaimIdMeans | app/claim_evidence.py:19-22 | an identifier is one of the two prose fields, or one of the six lists with a number |
| ClaimVerification.RelationMeans | app/claim_verification.py:415-451 | each verdict on one source, by what the source holds rather than by the order of the checks |
| ClaimVerification.RelationQuotes | app/claim_verification.py:415-451 | the excerpt of a relation is the first 4000 characters of its source, with the digest of that; a source without a text has neither |
| ClaimVerification.RelationReasons | app/claim_verification.py:415-451 | the reason of a verdict on one source says what is there, or names the first kind of fact that is missing |
| ClaimVerification.ClaimReasons | app/claim_verification.py:538-573 | and likewise for the verdict on a claim |
| ClaimVerification.VerifyClaim | app/claim_verification.py:461-583 | the loop over the references computes the specified verdicts |
| ClaimVerification.VerifyMaterialClaims | app/claim_verification.py:461-583 | the loop over the claims fills the dictionary |
| ClaimVerification.VerificationErrors | app/claim_verification.py:586-600 | silent exactly when no claim is refused |
| ClaimVerification.AcceptedExactly | app/claim_verification.py:538-600 | a claim is accepted exactly when no source contradicts it and it is quoted, or all its facts are among the sources, or it has none and needs none |
| ClaimVerification.QuotedIsSupported | app/claim_verification.py:415-451 | a source that holds the text of the claim supports it, whatever its facts are |
| ClaimVerification.StatusExactly | app/claim_verification.py:461-583 | without a contradiction a claim is supported exactly if it is quoted or all its facts are found, and not evaluated exactly if it is not quoted and has no facts |
| ClaimVerification.ContradictedExactly | app/claim_verification.py:461-583 | a claim is contradicted exactly if a source contradicts it, or if it names amounts or counts that no cited source has while the process among them has others |
| ClaimVerification.OrderDoesNotMatter | app/claim_verification.py:461-583 | the verdict depends only on which sources are cited |
| ClaimVerification.SingleSource | app/claim_verification.py:415-573 | with one source the claim ladder agrees with the relation ladder, or finds a contradiction where that stopped at a missing fact |
| PublicationGate.DeclaredRefs | app/claim_evidence.py:200-232 | returns the references by claim exactly when the document declares every material field once |
| PublicationGate.ClaimEvidenceIsComplete | app/claim_evidence.py:235-280 | true exactly when the document is canonical and the items agree with its claims, field by field |
| PublicationGate.CheckItem | app/claim_evidence.py:295-328 | true exactly when statuses, reasons and digests of an item are acceptable |
| PublicationGate.ClaimEvidenceIsPublishable | app/claim_evidence.py:331-384 | true exactly when the row decodes, the items are complete, the document matches the row and every item is acceptable |
| PublicationGate.PublishableMeans | app/claim_evidence.py:235-384 | behind the gate every material field has exactly one claim and one item, with equal text and references, and nothing is contradicted |
| PublicationGate.PublishableFields | app/claim_evidence.py:235-384 | the same for each of the eight fields of the summary and each item of its lists |
| PublicationGate.PublishableOnlyFields | app/claim_evidence.py:235-384 | and every stored item says what one of them says |
| PublicationGate.RefusedItems | app/claim_evidence.py:295-328 | an item is refused exactly if it is contradicted, has a verdict without a reason or an evaluated source, or has an unfit source |
| ClaimEvidence.InsertableRows | app/claim_evidence.py:405-505 | the rows are inserted exactly if all constraints hold |
| ClaimEvidence.RefusedExactly | sql/032_summary_claim_evidence.sql:1-145 | a claim is refused exactly for a blank identifier or text, a missing class, a repeated reference or one of its sources |
| ClaimEvidence.ClaimTable.Replace | app/claim_evidence.py:387-507 | the rows of the summary are replaced, or nothing changes |
| ClaimEvidence.ClaimTable.Load | app/claim_evidence.py:510-646 | returns the items of the summary with the sources that are in scope |
| ClaimEvidence.UnverifiedIsStored | app/claim_evidence.py:405-418 | a claim without a verification is stored as not evaluated, with all its sources |
| ClaimEvidence.LoadedIsStored | app/claim_evidence.py:387-647 | what was stored for a summary is what is read for it, and other summaries keep their rows |
| EvidenceAgreement.ValidatedIsStorable | sql/033_claim_semantic_verification.sql:11-68 | no constraint and no trigger of the evidence tables refuses a validated summary exactly when the spans of its cited sources are ranges |
| EvidenceAgreement.ClassOfItem | app/claim_evidence.py:61-72 | the class of a claim by its field, and that all lists but the points of attention must be evaluated |
| EvidenceAgreement.ClassOfProse | app/claim_evidence.py:61-72 | the classes of synthesis and status, which need not be |
| EvidenceAgreement.ScopeIsCatalog | app/claim_evidence.py:105-130 | a stored source is in scope exactly if it is what its reference stands for in the catalogue |
| EvidenceAgreement.LoadOfStored | app/claim_evidence.py:387-647 | a stored claim is loaded with the relations of the verifier in the order of its references |
| EvidenceAgreement.ItemPasses | app/claim_evidence.py:295-384 | an accepted claim passes the gate exactly when its sources have excerpts |
| EvidenceAgreement.ValidatedIsPublishable | app/claim_evidence.py:331-384 | the document of a validated summary is publishable, in whatever order its items are read, exactly when its texts fit their caps, the process still reads the same, and every cited source that bears on its claim has a text |
| EvidenceAgreement.Persist | app/rag.py:890-912 | storing, loading and gating together decide just that, and leave other summaries alone |
| EmptyExcerpt.AcceptedIsNotPublishable | app/claim_evidence.py:331-384 | a summary that is validated and stored and that the gate refuses, because a cited attachment has no text |
| Sorting.SortSorts | app/retrieval.py:174-187 | the sort keeps the items and orders them |
| Sorting.SortIsStable | app/retrieval.py:174-187 | of equal items the one given first comes first |
| Selection.FillUp | app/retrieval.py:179-187 | the selection loop: everything mandatory, the exact size, and nothing left out goes before a free choice |
| Selection.SelectionIsOne | app/retrieval.py:179-187 | size and preference leave exactly one selection |
| Bm25.Frequencies | app/retrieval.py:107-109 | the loop counts the tokens of a document |
| Bm25.Bm25Scores | app/retrieval.py:80-121 | the loops compute the specified score of every movement |
| Bm25.ScoreMeans | app/retrieval.py:105-121 | a score is never negative, and positive exactly when the movement holds a term of the query |
| Bm25.ScoreAdds | app/retrieval.py:112-119 | the score of a query is the sum of the scores of its parts |
| Bm25.ScoreOfTerm | app/retrieval.py:112-119 | one term adds its rarity times its weight, and nothing if it does not occur |
| Bm25.AverageIs | app/retrieval.py:98-100 | the average length is the number of all tokens over the number of movements, or one if there are no tokens |
| Bm25.ScoresAre | app/retrieval.py:105-121 | every movement has its own score |
| Bm25.RarerWeighsMore | app/retrieval.py:113-119 | for an increasing logarithm a rarer term weighs more |
| Bm25.IdfIs | app/retrieval.py:113-119 | the rarity is the logarithm of n + 1 over df + 1/2 |
| Bm25.WeightIs | app/retrieval.py:113-121 | one occurrence in a movement of average length weighs one, and none ever two and a half |
| Bm25.MoreWeighsMore | app/retrieval.py:113-121 | more occurrences weigh more |
| Bm25.LongerWeighsLess | app/retrieval.py:113-121 | in a longer movement an occurrence weighs less |
| Bm25.CountIs | app/retrieval.py:107-109 | a frequency is the number of places of the term |
| Bm25.DocFreqIs | app/retrieval.py:100-103 | a document frequency is the number of movements with the term |
| Bm25.NormalizedMeans | app/retrieval.py:124-130 | normalised scores lie between 0 and 1, keep their order and lose no positive one |
| Bm25.SharesOfMaximum | app/retrieval.py:124-130 | each value becomes its share of the largest |
| Retrieval.Normalize | app/retrieval.py:124-130 | the loop finds the maximum and divides by it |
| Retrieval.NormalizedIs | app/retrieval.py:124-130 | every value becomes its share of the largest, which gets 1, or zero if none is positive |
| Retrieval.ScoreIsBounded | app/retrieval.py:151-172 | a hybrid score lies between 0 and 1.3 and is positive where the lexical score is |
| Retrieval.MandatoryMeans | app/retrieval.py:174-177 | the collected identifiers are those of the milestones, the first movement and the movements with fewer than five after them |
| Retrieval.WindowKeepsMandatory | app/retrieval.py:202-207 | in a window that keeps the mandatory movements exactly they are mandatory again |
| Retrieval.RankSteps | app/retrieval.py:133-187 | a short process whole, a long one as the selection by hybrid score, sorted |
| Retrieval.ScoreIs | app/retrieval.py:155-172 | half of each score, raised in proportion to the number of the movement, by three tenths for the last |
| Retrieval.RankingMeans | app/retrieval.py:151-187 | every entry has its own scores, and nothing left out scores above an entry that is not mandatory, nor as high if it was given before |
| Retrieval.RerankSteps | app/retrieval.py:190-218 | the selection by injected scores, sorted; a limit that is not positive is refused |
| Reranking.WindowMandatory | app/reranking.py:34-68 | the mandatory set of the candidates is that of the process |
| Reranking.SelectContextSteps | app/reranking.py:16-68 | all mandatory movements, ascending, exactly max(limit, mandatory) of a long process, and a free choice scores above every rejected candidate, or as high with a lower number; a short process whole |
| Chunker.NextChunk | app/attachment_processing.py:211-234 | one round cuts a chunk at a preferred or hard end, trims it and moves on by more than half a chunk |
| Chunker.ChunkText | app/attachment_processing.py:200-236 | the chunks tile the text, are bounded in length and number, end each at the last break of their second half if there is one, are trimmed, and cut words only when forced |
| Chunker.ChunksAreOne | app/attachment_processing.py:200-236 | what is said of the chunks leaves exactly one list of chunks |
| Chunker.NothingIsLost | app/attachment_processing.py:200-236 | every character that is not whitespace is in exactly one chunk |
| ModelView.Flush | app/unicode_security.py:91-104 | the letters of a token that are not of its main script |
| ModelView.MixedScriptPositions | app/unicode_security.py:87-112 | the loop finds exactly the letters outside the main script of their word |
| ModelView.ScriptExactly | app/unicode_security.py:53-84 | a letter has the script in one of whose ranges it lies, and no two scripts share a code point |
| ModelView.MixedExactly | app/unicode_security.py:87-112 | a letter is mixed exactly if its word has a Latin letter and it is none, or no Latin letter but one of a script that comes before its own by name |
| ModelView.NeverMixed | app/unicode_security.py:87-112 | what is no letter of a known script is never mixed |
| ModelView.ModelViewText | app/unicode_security.py:121-150 | the loop renders the text and raises the flags as specified |
| ModelView.SpecialCharacters | app/unicode_security.py:11-48 | the bidirectional controls, the zero-width and the default-ignorable characters |
| ModelView.SpelledOut | app/unicode_security.py:115-118 | a replaced character is spelled out by its number in at least four hexadecimal digits, no more than needed, and its name |
| ModelView.ViewIsClean | app/unicode_security.py:121-150 | the view holds no default-ignorable character and no word of two scripts |
| ModelView.FlagsMean | app/unicode_security.py:121-150 | no flag is raised exactly when the view is the normalised text |
| ModelView.ViewIsIdempotent | app/unicode_security.py:121-150 | where NFC leaves the view alone, viewing it again changes nothing and raises no flag |
| Budget.TruncateMeans | app/attachment_context.py:69-74 | a truncated text is as long as allowed and unchanged exactly when it fits |
| Budget.TruncateKeeps | app/attachment_context.py:69-74 | a cut text keeps its beginning and ends with the marker where there is room for it |
| Budget.SplitBudget | app/attachment_context.py:83-101 | the loop over the texts computes the specified split |
| Budget.SplitTruncates | app/rag.py:166-181 | each text is cut to its allowance |
| Budget.AllowanceIs | app/attachment_context.py:83-99 | an allowance is what the texts before have left over, divided by how many are left |
| Budget.SplitIsSafe | app/attachment_context.py:77-101 | the texts together never exceed the limit |
| Budget.AllowancesGrow | app/attachment_context.py:83-99 | no allowance is below an equal share or below an earlier one |
| Budget.SmallTextsSurvive | app/attachment_context.py:83-99 | a text within an equal share is never cut |
| Budget.AscendingUsesAll | app/attachment_context.py:83-99 | with shorter texts first exactly the smaller of demand and limit is used |
| Budget.WholeExactly | app/attachment_context.py:83-99 | no text is cut exactly when each is within its share of what the texts before it left over |
| Budget.AscendingIsWhole | app/attachment_context.py:83-99 | with shorter texts first that is exactly when they fit together |
| Budget.LongTextFirst | app/attachment_context.py:83-99 | two texts that fit together, one of which is cut |
| Budget.SerializeAttachmentTexts | app/attachment_context.py:77-101 | the limit must be positive, then the texts are split, and come out whole exactly in that case |
| Budget.SerializeStepTexts | app/rag.py:166-183 | beyond the cap of each step nothing changes exactly when the capped texts fit, and the total is never exceeded |
| RateLimit.Limiter.ConsumeRateLimit | app/api_key_auth.py:72-131 | one request against the row of its key, and retry_after is zero exactly when it is granted |
| RateLimit.RowCountsMinute | app/api_key_auth.py:72-131 | after every request the row is about its minute and counts what was granted in it |
| RateLimit.GrantedExactly | app/api_key_auth.py:72-131 | a request is granted exactly while its minute has seen fewer grants than the limit, and is told exactly how many are left or how long to wait |
| RateLimit.WaitIs | app/api_key_auth.py:113-114 | what is left of the minute in whole seconds, or one |
| RateLimit.KeysAreSeparate | app/api_key_auth.py:72-131 | whatever the other keys do, the row of a key is that of its own requests |
| RateLimit.MinuteBound | app/api_key_auth.py:72-131 | no minute sees more grants than the limit |
| RateLimit.AnyMinuteBound | app/api_key_auth.py:72-131 | any half-open sixty seconds see at most twice the limit |
| RateLimit.TwiceIsReached | app/api_key_auth.py:72-131 | a trace that reaches that bound |
| RateLimit.RetryAfterIsEnough | app/api_key_auth.py:113-116 | waiting as told is enough exactly when less than a second or whole seconds are left |
| Cnj.ValidMeans | scripts/provider_live_smoke.py:42-49 | a code is valid exactly when the reordered number leaves 1 modulo 97 and its check digits lie in 2 to 98 |
| Cnj.DetectsOneDigit | scripts/provider_live_smoke.py:42-49 | every change of a single digit is detected |
| Cnj.DetectsSwap | scripts/provider_live_smoke.py:42-49 | every swap of two different digits is detected, wherever they are |
| Cnj.ShapesAre | app/judit.py:98-109 | the two notations: twenty digits, or twenty digits with one dash and four dots in their places |
| Cnj.DigitsAre | app/judit.py:98-109 | the ten ASCII digits and what they are worth |
| Cnj.NormalizeMeans | app/judit.py:98-109 | exactly the two notations are accepted; the result is canonical, keeps the digits and is its own result |
| Cnj.SameNumber | app/judit.py:98-109 | two values have one normal form exactly when they have the same digits |

## Left out

- Jobs.StaleWorkerIsFenced: is about distinct workers, because two slots of one worker share its id and are not fenced from each other.
- Jobs.TerminalIsAbsorbing: any terminal row may be purged at any time; the retention period is not modelled.
- JobLocks.LocksRefineAtomic: a statement reads the rows as they are when it takes its locks; the snapshot rules of READ COMMITTED are not modelled further.
- JobQueue.JobTable.ClaimJob: error_log, result and created_at columns, and the order among equal priority and run_at, are not modelled.
- Acquisition.CallsAreBounded: idempotency keys are terms rather than formatted strings, so that two kinds of keys never coincide is assumed.
- PublicLifecycle.RequestTable.TransitionLinked: the number returned is not specified; no caller depends on it.
- JobLifecycle.JobEndIsPublicEnd: is about requests linked when the job ends; a request linked later stays open.
- JobLifecycle.RunKeepsGood: repeating the completed transition stamps completed_at again, and the retention purge that clears summary_id is not modelled.
- Ingestion.DeliveryOrderIndependence: a response id stands for one response, webhook transactions are serial, manifests are listed by identifier, DataJud is off, and a finalizer is one step; Overlap.SerialFinalizersAgree has deliveries in the middle of it, and Overlap.OverlapIsHarmless other finalizers too.
- Overlap.OverlapRegresses: is about requests to which no public request is linked; a linked one is locked before the read, so that its finalizers run one after another and Overlap.SerialFinalizersAgree applies.
- VersionStore.RunsFollow: the fingerprint is replaced by the document it is a hash of, which takes the hash to be injective.
- VersionStore.FinalizeKeepsGood: a movement number listed twice is skipped, where the unique key of the table would end the transaction; the extraction numbers movements one by one, so it does not occur.
- ProcessTable.ProcessTable.Stage: response and request identifiers are always present, so null source ids and the COALESCE of the identifiers are not modelled.
- JuditIntake.Service.RunFinalizer: what it does to public requests is covered by the arbitrary progress steps of JobLifecycle, and the summary job it enqueues is not tracked there.
- SummaryOutput.NormalisationIsFixedPoint: JSON text is left out, since decoding what was encoded gives the value back, and str() of values that are not strings is a parameter.
- SummaryOutput.CanonicalIsNormal: is about the summary part of a document; SummaryDocument.DocumentIsCanonical is about the whole.
- SummaryRender.DocumentHeadings: the values of the context are taken as strings, and the name normalisation and the attention pattern of the validator are parameters with the premise that they tell the ten titles apart.
- HeadingChecks.Validate: the other checks of the validator (identifiers, names, dates, amounts, markup, source claims) are not modelled.
- HeadingChecks.AttentionBody: an attention heading broken over several lines, which its pattern also matches, is not recognised; rendered documents have none.
- MaterialClaims.ValidateClaimEvidence: is about claims of a parsed summary, so the branches for values of a wrong type do not occur.
- ClaimVerification.VerifyClaim: fact extraction is an arbitrary function.
- PublicationGate.ClaimEvidenceIsPublishable: items have the types with which they are loaded; a header column that holds a list of pairs, which the program would turn into an object, is refused.
- Worker.WorkerProcess.SettleSuccess: whether the summary is published is a parameter; how that is decided is PublicationGate.ClaimEvidenceIsPublishable.
- ClaimEvidence.ClaimTable.Load: the database orders the items by identifier; here the order is arbitrary and EvidenceAgreement.ValidatedIsPublishable holds for all orders.
- EvidenceAgreement.Persist: the evidence that _persist_summary builds in memory when it replaces an approved summary, without reasons and digests, is not modelled.
- Bm25.ScoreMeans: is over reals with the logarithm as a parameter; tokenisation and the milestone pattern are inputs.
- Reranking.SelectContextSteps: movements have distinct identifiers and numbers, and a scorer that fails is not modelled.
- ModelView.ModelViewText: the Unicode database and NFC are parameters, and the digest of the text and lone surrogates are not modelled.
- Budget.SerializeAttachmentTexts: the other fields of a chunk are copied and not modelled.
- RateLimit.AnyMinuteBound: the database clock and the program clock are one clock that never goes back.
- Cnj.ChecksumValid: digits are ASCII; other Unicode digits are not modelled.
- Worker slots, the heartbeat timer, shutdown, and the asynchronous machinery around the transactions.
- HTTP handlers other than the webhook, tenancy, authentication, the tracking API, metrics, migrations and deployment.
- Provider clients, OCR, PDF parsing, embeddings and the prompt text: foreign calls with arbitrary outcomes.
- DataJud merging, the TPU glossary and attachment manifests beyond their order: field copying that would add only easy members.
