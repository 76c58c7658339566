# Verified model of the accessible-document service

A Dafny model of the parts of the service in which order, counting or text positions matter. Two kinds of
code are modelled.

**Protocols over shared state.** Each Redis command, Lua script or transaction, and each stretch of
asynchronous code between two suspensions, is one atomic step. The main theorems are about every run: every
interleaving of any number of participants, with commands that may fail where the source handles failure.
Methods of classes say what one call does with nobody in between; where a call takes several commands, the
single commands are steps of the runs.

| file | protocol |
|---|---|
| `Approval.dfy` | deciders by job id and by token, background approval under the lock, denial, PII worker, timeout sweep |
| `SseStream.dfy` | pipeline session buffer, suspended readers, reconnect with the last id |
| `EventBus.dfy` | publish and subscribe, replay followed by the live queue |
| `CircuitBreaker.dfy` | the three-state breaker, half-open probes, and the storage callers |
| `RateLimit.dfy` | sliding-window limiter over a sorted set with a time to live |
| `JobStore.dfy` | job hashes with index and expiry, timeout sweep, retention sweep |
| `JobStatus.dfy` | the statuses, shared by the two protocols on jobs |

**Document transformations.** Loops over lines and characters, each proved against a specification, and
conservation, round-trip and idempotence theorems about the specification.

| file | transformation |
|---|---|
| `SectionMap.dfy` | splitting a document into sections at matched headings |
| `CodeFence.dfy` | fencing a detected code block |
| `ImagePlaceholders.dfy`, `PageSplit.dfy` | image references, page split and join, and how they commute |
| `Headings.dfy` | rewriting heading levels |
| `DiffUtils.dfy`, `EditLog.dfy` | unique search-and-replace edits and their log |
| `LetterSpacing.dfy`, `Whitespace.dfy`, `PrivateUse.dfy` | regular-expression cleanups as scanners |
| `Text.dfy`, `Fuzzy.dfy` | find, count, split, join, strip and best-match, shared by the above |

Objects whose methods update their fields are classes; each method is proved against a function on the
object's abstract value, and the theorems about runs use the same function. A class of the same name as
its module stands for the class of the source.

## Assumptions

- `difflib`'s ratio is an arbitrary function of the two texts, with the lower-casing of both folded in.
- `\w` is exact on ASCII; beyond ASCII it is an arbitrary predicate passed in as `beyond`.
- Clocks are parameters. The breaker assumes nothing about them; the limiter states what it needs
  (`RateLimit.Orderly`); job writes read their clock before the command runs.
- The approval lock does not expire between taking and releasing it. `Approval.ExpiryInsideStartsTwice`
  shows that this is needed.
- A token holder turns up only after approval was asked for, since no token exists before.

## Where the code does not do what its documentation suggests

- Terminal statuses are not absorbing: `Approval.DeniedThenProcessed`. `Approval.StatusStaysIff` says when they
  are, `Approval.FinalIff` when nothing can start after them. The comment that the token proves the job awaits
  approval (src/api/documents.py:827-830) does not hold after a decision: `Approval.StartsReached`.
- The check by job id reads and writes in two steps, so it does not prevent a second decision:
  `Approval.TwoApproversStartTwice`. It does when no two reads and writes overlap:
  `Approval.OneAtATimeStartsOnce`.
- The limiter's transaction covers prune and count but not the add, so the limit can be exceeded by the number
  of checks in between less one: `RateLimit.BoundReached`. The retry time is rounded down:
  `RateLimit.RetryMayBeEarly`.
- The retention sweep can delete a job that became active after its check: `JobStore.ActiveJobRemoved`. It counts
  a job whose delete script raised as cleaned: `JobStore.JobService.CleanupOldCompletedJobs`.
- Asking for approval again after a decision can lose the deadline: `Approval.AskedAgainLosesDeadline`;
  `Approval.DeadlineKeptIff` says when it cannot.
- One connection of the event stream can stop before the last event: `SseStream.EndsEarly`.
- The breaker counts slots and not calls: callers that leave without reporting hold a slot for good
  (`CircuitBreaker.BadFileBlocksUploads`), late reports free slots of others
  (`CircuitBreaker.StaleReportAdmitsMore`, and `CircuitBreaker.LateReportsIff` for when they cannot), and a
  loaded result that does not parse is reported as a success and then as a failure, so that such results never
  open the circuit (`CircuitBreaker.BadBodiesTripIff`).
- The retention sweep's fallback to a full scan deletes jobs the indexed sweep keeps:
  `JobStore.FallbackReachesFurther`; `JobStore.RetentionKeepsActive` says exactly which.
- `fix_excessive_whitespace` needs two passes (`Whitespace.OnePassIff` says when), and `str.count == 1` does not
  mean one place (`DiffUtils.CountOneIsNotOnePlace`; `DiffUtils.CountMeansOnePlaceIff` says for which searched
  texts it does). Collapsing letters and then whitespace is not idempotent: `Whitespace.CompositionIdempotentIff`.
- A stream ended by the job status can leave events unsent: `EventBus.LeftBehind`, `EventBus.StatusEndCompleteIff`.

## Model

| member | source | states |
|---|---|---|
| Approval.StartsBounded | src/services/approval_service.py:366-467 | for any number of participants and every interleaving, every command free to fail before or after it took effect, starts of processing <= processing writes of approvers <= 1 + the writes of an approvable status that land after such a write; at most once when there is none |
| Approval.StartsReached | src/api/approval.py:213-223 | the bound is exact: for every n some run has n re-arming writes and 1 + n starts, because the token path writes the status without reading it |
| Approval.TwoApproversStartTwice | src/api/documents.py:856-882 | a run in which only the PII worker and deciders by job id take part starts processing twice, both deciders having read the status before either wrote it |
| Approval.OneAtATimeStartsOnce | src/api/documents.py:856-882 | if only workers, sweeps and deciders by id come, no two approvers are between their read and their write at once, and approval is not asked for again after a decision, processing starts at most once |
| Approval.MutualExclusion | src/services/approval_service.py:391-467 | no two participants are ever between taking the lock and releasing it, provided the lock does not expire there |
| Approval.LockGivenBack | src/services/approval_service.py:391-467 | in every run in which the commands on the lock itself do not raise, whatever else fails, a lock that is held is held by somebody inside the section |
| Approval.ExpiryInsideStartsTwice | src/services/approval_service.py:392-393 | with an expiry of the lock inside the section, two starts happen without any re-arming write |
| Approval.SettledIsFinal | src/services/approval_service.py:400-424 | from a settled state no run without a new write of an approvable status starts processing, and the state stays settled |
| Approval.FinalIff | src/services/approval_service.py:386-424 | in every reachable state: no continuation without a new write of an approvable status starts processing if and only if the state is settled, that is, storage is missing, or nobody is past the re-check and nobody on the way to it would find an approvable status |
| Approval.DeniedThenProcessed | src/services/approval_service.py:403-424 | from a reachable state whose denial has run every step, an approver that had passed its re-check goes on, with nobody arriving, to write processing over it and start |
| Approval.StatusStaysIff | src/services/approval_service.py:339-424 | a denied, failed or completed status stays for good, whoever comes and reads it first, if and only if nobody is left whose steps can write another: an approver about to write, a worker not done with asking, a sweep or failed worker about to write a failure, or somebody denying what was not denied |
| Approval.AwaitingIsTracked | src/services/pii_service.py:157-182 | once the deadline was queued, every reachable state that awaits approval has the job tracked, under any decisions and sweeps, as long as approval is not asked for again after the status was written away |
| Approval.DeadlineKeptIff | src/services/approval_service.py:386-388 | whatever happened before, also when approval was asked for again: an awaiting, tracked job keeps its deadline for as long as it awaits, in every continuation, if and only if nobody is about to untrack it |
| Approval.AskedAgainLosesDeadline | src/services/pii_service.py:186-202 | a retry of the whole queueing after a decision can leave the job awaiting approval, untracked, with every participant finished |
| Approval.AloneIsARun | src/services/approval_service.py:366-471 | what a service does alone is a run of the protocol, so the methods below take its steps in its order |
| Approval.DecidedAlone | src/services/approval_service.py:326-467 | alone, a decision or sweep on an awaiting job settles it: processing started once and no deadline, failed for lack of storage, denied, or failed by timeout |
| Approval.BackgroundAlone | src/services/approval_service.py:384-467 | alone, the background work leaves the lock as it found it; it starts nothing when the lock is taken or the status no longer approvable, and else starts once or fails for lack of storage |
| Approval.RescuedAlone | src/services/approval_service.py:384-471 | what a step that raises leads to: a failed untracking holds up neither decision, inside the section the lock is given back and nothing else changes, a failed queueing is redone as a whole or given up as failed |
| Approval.JobRecord.ProcessPiiDecision | src/api/documents.py:856-901 | accepted exactly when the job awaits approval (else 404 or 409, and nothing changes); a denial denies and untracks, an approval queues, untracks and, with the lock free, starts or fails for lack of storage |
| Approval.JobRecord.ProcessApprovalBackground | src/services/approval_service.py:384-467 | untracks; changes nothing more when the lock is taken or the re-check refuses; else processing and one more start, or failed without storage; the lock ends as it was found |
| Approval.JobRecord.ProcessDenialBackground | src/services/approval_service.py:491-518 | the job is denied and untracked whatever it was |
| Approval.JobRecord.QuickApprove | src/services/approval_service.py:339-343 | writes the queued status whatever was there, and nothing else |
| Approval.JobRecord.QuickDeny | src/services/approval_service.py:359-363 | writes denied whatever was there, and nothing else |
| Approval.JobRecord.QueueForApproval | src/services/pii_service.py:162-182 | afterwards the job awaits approval and is tracked, nothing else changes |
| Approval.JobRecord.ProcessExpiredJob | src/services/timeout_service.py:97-146 | true exactly when the job still awaits approval; then it is failed, and in every case untracked |
| SseStream.ReceivedOnceInOrder | src/api/pipeline_viewer.py:714-724 | in every run of emits, suspensions, disconnects and reconnects each client has received the events from its first cursor on, every one once, in order, none skipped |
| SseStream.IdsAreIndices | src/api/pipeline_viewer.py:125-131 | in every run buffer[i] carries id i and the counter is the buffer's length |
| SseStream.EndedExactly | src/api/pipeline_viewer.py:76-85 | in every run a connection that ended sent exactly the slice from its start to the buffer length it last read; nothing was left unsent if and only if nothing was appended after that reading (or it was opened at the end or beyond) |
| SseStream.OpenedAfterEnd | src/api/pipeline_viewer.py:76-85 | a connection opened after a terminal status sends all that remains and stops after one step more than there are events |
| SseStream.OneMoreConnection | src/api/pipeline_viewer.py:714-724 | after the end, whatever a client still lacks, one reconnect with its last id read to the stop delivers exactly that |
| SseStream.EndsEarly | src/api/pipeline_viewer.py:78-85 | a pipeline that ends while the reader hands over an event loses its last event for that connection |
| SseStream.LostWakeUp | src/api/pipeline_viewer.py:87-92 | an event appended during a hand-over can have its wake-up cleared before it is read |
| SseStream.SleepsOnNewsIff | src/api/pipeline_viewer.py:78-89 | in every run a reader that goes to wait clears the wake-up of an unread event if and only if an event was appended after it last read the length |
| SseStream.NewsRaisesFlag | src/api/pipeline_viewer.py:125-131 | as long as no reader goes to wait, whatever is appended and the end of the pipeline leave the wake-up flag up |
| SseStream.HeartbeatCatchesUp | src/api/pipeline_viewer.py:89-94 | after the heartbeat the reader sends the next event if there is one |
| SseStream.MendedDeliversAll | src/api/pipeline_viewer.py:76-85 | a reader that looks at the buffer again before it believes the terminal status stops only when it has sent everything, in every run |
| SseStream.FrozenAfterEnd | src/api/pipeline_viewer.py:144-161 | after a terminal status no run changes buffer, counter or status |
| SseStream.PipelineSession.constructor | src/api/pipeline_viewer.py:644-661 | a stream starts with one event of id 0 and counter 1 |
| SseStream.PipelineSession.Emit | src/api/pipeline_viewer.py:125-131 | appends one event with the next id and raises the flag |
| SseStream.PipelineSession.Finish | src/api/pipeline_viewer.py:519-531 | status and last event change in one step |
| SseStream.PipelineSession.Cancel | src/api/pipeline_viewer.py:147-151 | sets the status and appends nothing |
| SseStream.BufferReader.Resume | src/api/pipeline_viewer.py:76-94 | one run from suspension to suspension: sends at most one event and follows the reader's transition function, clearing the flag only when it goes to wait |
| EventBus.NothingLostInQueues | src/agents/events.py:53-63 | in every run consumed ++ queued of each subscriber is exactly the events since it subscribed |
| EventBus.GaplessWithOneOverlap | src/api/documents.py:562-574 | a stream whose replay ended at m has sent events[..m] and then a prefix of events[s..] with s <= m: no gap, in order, and exactly the slice from s to m is sent again |
| EventBus.EndsAtFirstLast | src/api/documents.py:570-578 | a stream that ends on a last event ends on the first such event since it subscribed |
| EventBus.SentTwice | src/api/documents.py:566-574 | an event published during the replay is sent twice |
| EventBus.LeftBehind | src/api/documents.py:580-590 | a stream that learns from the job status that the job is over drops a last event already in its queue |
| EventBus.StatusEndCompleteIff | src/api/documents.py:580-590 | in every run a stream ended by the job status has sent everything if and only if its queue was empty then; what it lacks is exactly that queue |
| EventBus.EndsExactly | src/api/documents.py:571-590 | a stream that runs on ends if and only if it saw the job finished after a keepalive or handed over a completion or error event; until then it stays subscribed, and a keepalive of an unfinished job leads back to the queue |
| EventBus.EndedForAReason | src/api/documents.py:571-590 | in every run a stream that has ended was disconnected, handed over a last event, or saw the job finished, at a step that can be named |
| EventBus.DrainsQueue | src/api/documents.py:571-578 | a live stream hands over all that is queued, in order, and stays live |
| EventBus.ReplaysRest | src/api/documents.py:566-568 | the replay hands over all that is stored from its place on, in order, and then the stream is live |
| EventBus.RemovedOnce | src/agents/events.py:65-70 | removing a queue from a list of distinct queues removes it and no other |
| EventBus.EventBus.Publish | src/agents/events.py:53-57 | every subscriber's queue and the stored list grow by the event, nothing else changes |
| EventBus.EventBus.Subscribe | src/agents/events.py:59-63 | a new empty queue is added at the end |
| EventBus.EventBus.Unsubscribe | src/agents/events.py:65-70 | exactly that queue leaves the subscribers; an unknown one changes nothing |
| EventBus.EventStream.Resume | src/api/documents.py:562-590 | one run of the generator from suspension to suspension follows the stream's transition function, whose endings EndsExactly and whose deliveries DrainsQueue and ReplaysRest state |
| CircuitBreaker.CountersRefineHistory | src/utils/circuit_breaker.py:162-293 | in every run: closed - the failure count is the failure run since the last success or reset and below the threshold; half-open - no failures, and the success count is the successes of this episode, below its threshold; open - the recorded time is that of the latest failure |
| CircuitBreaker.AdmittedFromOpen | src/utils/circuit_breaker.py:162-183 | a call is admitted from open if and only if the timeout has passed since the latest recorded failure and probes are allowed |
| CircuitBreaker.StaysOpen | src/utils/circuit_breaker.py:250-263 | once open, the circuit refuses every call until the timeout has passed since the latest failure, through any successes, failures and early looks |
| CircuitBreaker.ThresholdOpens | src/utils/circuit_breaker.py:229-239 | from any closed circuit, failures that bring the run to the threshold open it and keep it open |
| CircuitBreaker.ProbesBounded | src/utils/circuit_breaker.py:178-203 | with any number of callers, unreported probes of the current episode never exceed half_open_max_calls plus the stale reports received in it; with none stale the slot counter is their exact number |
| CircuitBreaker.AlwaysProgress | src/utils/circuit_breaker.py:178-227 | with no stale report a half-open breaker admits the next call, or some probe holds a slot and either report of it moves the breaker on |
| CircuitBreaker.RecoversAfter | src/utils/circuit_breaker.py:185-203 | good probes close a half-open circuit exactly when they reach the success threshold |
| CircuitBreaker.StaleReportAdmitsMore | src/utils/circuit_breaker.py:195-203 | a late report of a call admitted before the failure lets a second probe in beside the one allowed |
| CircuitBreaker.LateReportsIff | src/utils/circuit_breaker.py:178-203 | from a half-open breaker with a right slot counter, for any limit: the episode never has more unreported probes than configured, in any run of callers that report at most once, if and only if no earlier call is still in flight or the next success closes the breaker |
| CircuitBreaker.EpisodeStartsExact | src/utils/circuit_breaker.py:276-283 | at the start of every episode of every run the slot counter is right and no probe of it is unreported |
| CircuitBreaker.HeldSlotsRefuse | src/utils/circuit_breaker.py:178-183 | with every slot held, no look at any time changes the breaker or admits a call |
| CircuitBreaker.BadFileBlocksUploads | src/services/storage_service.py:75-111 | after a half-open probe with an invalid file the upload circuit refuses every call; it never moves again, whoever arrives and whenever, if and only if no other call was still in flight to report |
| CircuitBreaker.BadFileBlocksInTurn | src/services/storage_service.py:75-145 | no sequence of uploads of any kind, one after another, gets past it |
| CircuitBreaker.UnreportedExactly | src/services/storage_service.py:547-594 | a probe leaves its slot held for good exactly when it is an upload of a bad file or a load of a missing result |
| CircuitBreaker.UploadReports | src/services/storage_service.py:75-145 | an upload is one check, one look, and then no report for a bad file, a success for a stored one, a failure for a failed one |
| CircuitBreaker.LoadReports | src/services/storage_service.py:547-594 | a load is one check, one look, and then no report for a missing result, a success, a failure, or a success and a failure for one that does not parse |
| CircuitBreaker.FailedUploadsTrip | src/services/storage_service.py:117-143 | failed uploads that bring a closed circuit to its threshold leave it open, since the time of one of them |
| CircuitBreaker.FailedLoadsTrip | src/services/storage_service.py:556-594 | the same for loads whose request fails |
| CircuitBreaker.BadBodiesTripIff | src/services/storage_service.py:567-594 | results that do not parse never open a closed circuit, however many in a row, unless a single failure does |
| CircuitBreaker.GoodCalls | src/services/storage_service.py:130-131 | a call that goes well forgets the failures of a closed circuit and counts as a probe of a half-open one |
| CircuitBreaker.FailedProbe | src/services/storage_service.py:136-143 | a call that fails opens a half-open circuit at once, at the time of the failure |
| CircuitBreaker.StoreDocument | src/services/storage_service.py:75-145 | the answer and the breaker after one upload: refused, rejected without a report, or reported once |
| CircuitBreaker.LoadProcessingResult | src/services/storage_service.py:547-594 | the answer and the breaker after one load: a missing result is not reported, a bad body is reported twice |
| CircuitBreaker.CircuitBreaker.CheckState | src/utils/circuit_breaker.py:162-183 | admits exactly when closed, or half-open with a free slot, after the lazy timeout; takes one slot |
| CircuitBreaker.CircuitBreaker.GetState | src/utils/circuit_breaker.py:140-160 | a reading may move an open circuit to half-open and changes nothing else |
| CircuitBreaker.CircuitBreaker.RecordSuccess | src/utils/circuit_breaker.py:185-212 | the transition of a success in each of the three states |
| CircuitBreaker.CircuitBreaker.RecordFailure | src/utils/circuit_breaker.py:214-239 | the transition of a failure in each of the three states |
| CircuitBreaker.CircuitBreaker.Reset | src/utils/circuit_breaker.py:241-248 | back to the initial state |
| RateLimit.SlidingWindow | src/services/rate_limit_service.py:138-167 | with at most k checks between count and add and clock readings at most `skew` out of order, every interval of the window's width less the skew holds at most limit + k - 1 admissions, in every run |
| RateLimit.ExactLimit | src/services/rate_limit_service.py:138-167 | with one check at a time and clock readings in order no window ever holds more than the limit |
| RateLimit.BoundReached | src/services/rate_limit_service.py:152-163 | for every limit and every k the bound limit + k - 1 is reached |
| RateLimit.ClockOrderNeeded | src/services/rate_limit_service.py:138-155 | a check whose clock was read before a later quota query dropped entries gets one admission too many even with k = 1 |
| RateLimit.LapseDropsOnlyDead | src/services/rate_limit_service.py:160-165 | the expiry of the key, refreshed on every add, never drops an entry still in the window |
| RateLimit.LapseBeforeRefresh | src/services/rate_limit_service.py:163-165 | a run from the start in which a key expiring between an add and its refresh drops a live entry |
| RateLimit.LapseDropsLiveIff | src/services/rate_limit_service.py:160-165 | in every orderly run a due expiry drops a live entry if and only if an added entry not yet refreshed is still in the window |
| RateLimit.QuotaIsRoom | src/services/rate_limit_service.py:204-212 | of any number of checks made at once exactly as many pass as the quota says remain |
| RateLimit.QuotaNeverOverstates | src/services/rate_limit_service.py:204-212 | a count that still holds entries which have left the window never promises more checks than would pass |
| RateLimit.RetryMayBeEarly | src/services/rate_limit_service.py:169-175 | after the time a refusal names, the oldest entry has left the window exactly when its remaining life was a whole number of seconds or at most one |
| RateLimit.GlobalRefusalSpendsQuota | src/services/rate_limit_service.py:57-86 | a submission refused by the global limit has used up one place of its address's limit |
| RateLimit.CheckIsARun | src/services/rate_limit_service.py:138-167 | an uninterrupted check is a run of its three commands, so the methods and the protocol describe the same limiter |
| RateLimit.CheckSubmitRateLimit | src/services/rate_limit_service.py:42-86 | allowed exactly when both limits allow; the global key is touched only when the address's check passed |
| RateLimit.CheckStatusRateLimit | src/services/rate_limit_service.py:88-112 | allowed exactly when fewer than 100 queries of the address are left in its hour |
| RateLimit.RateKey.CheckRateLimit | src/services/rate_limit_service.py:138-175 | allowed exactly when fewer than the limit are left after the prune; a refusal names the oldest entry's remaining time |
| RateLimit.RateKey.GetRemainingQuota | src/services/rate_limit_service.py:204-212 | the answer is between 0 and the limit and is the number of further checks at that moment that would pass, whatever number is made |
| JobStore.QueryFindsOldJobs | src/services/job_service.py:27-64 | in every run of writes, deletes and expiries each live job is indexed with the clock of its last write, at most the time of that write; the cutoff query finds it exactly when that clock is at or before the cutoff |
| JobStore.LivesItsTtl | src/services/job_service.py:90-117 | a status write keeps the job for the time to live of that status, as long as nobody writes, expires or deletes it, and not beyond its expiry |
| JobStore.ExpiredExactly | src/services/queue_service.py:284-311 | in every run the range query of the timeout sweep finds exactly the jobs whose latest tracking command set a deadline between 0 and now |
| JobStore.RemovedOnlyAsChecked | src/services/orphan_service.py:205-273 | in every run of writes, deletes, expiries and any number of sweeps, every job a sweep deleted was missing, or finished and old, when checked; it deleted an active one only if that was written after the check |
| JobStore.TakesNoActiveIff | src/services/orphan_service.py:75-84 | a sweep that has checked a job deletes no active one by that check, in any continuation that does not write the job, if and only if the job is gone or finished and old now |
| JobStore.ActiveJobRemoved | src/services/orphan_service.py:75-84 | a run in which a denied job that is queued again between a sweep's check and its deletion is deleted |
| JobStore.FindingsReviveForGood | src/services/job_service.py:267-288 | findings stored for a job that is gone, and that no sweep is just about to delete, create a hash that no expiry, no further findings and no sweep ever removes |
| JobStore.JobService.ProcessExpiredApprovals | src/services/timeout_service.py:40-86 | an undisturbed sweep fails exactly the expired jobs still awaiting approval, returns their number, and leaves no deadline at or before now but those whose write raised |
| JobStore.JobService.ProcessExpiredJob | src/services/timeout_service.py:97-153 | one expired job: failed and untracked, only untracked, or left alone when its write raises |
| JobStore.SecondSweepFindsNothing | src/services/timeout_service.py:40-86 | a second sweep at the same time finds nothing; the first changed the status of exactly the expired awaiting jobs and no creation time |
| JobStore.SweptOne | src/services/timeout_service.py:60-75 | one turn of the timeout sweep extends the swept set by one job and the count by one exactly when the job was failed |
| JobStore.SameSweep | src/services/timeout_service.py:97-153 | handling one expired job does to it what the sweep of the approval protocol does alone, and nothing to other jobs |
| JobStore.JobService.CleanupOldCompletedJobs | src/services/orphan_service.py:51-109 | an undisturbed retention sweep deletes exactly the removable candidates for which file cleanup and delete script work; it counts as cleaned also those whose script raised, and as errors those whose file cleanup did |
| JobStore.JobService.ShouldCleanupJob | src/services/orphan_service.py:205-245 | true exactly for a missing hash, or a finished job with a readable creation time before the cutoff |
| JobStore.ErasedOne | src/services/orphan_service.py:75-84 | one turn of the retention sweep deletes at most its own job and counts it once |
| JobStore.RetentionKeepsActive | src/services/orphan_service.py:60-64 | an undisturbed sweep deletes a live job exactly when it is finished, known to be older than the cutoff, and its index entry is old or no entry is; every other one is untouched |
| JobStore.RetentionClearsIndex | src/services/orphan_service.py:208-210 | every old index entry whose hash is gone is cleared |
| JobStore.FallbackReachesFurther | src/services/orphan_service.py:60-64 | when the index holds nothing old, a job created before but updated after the cutoff is deleted; one unrelated old entry spares it |
| JobStore.JobService.CreateJob | src/services/job_service.py:191-197 | hash, expiry and index entry of a new job in one step |
| JobStore.JobService.UpdateJobStatus | src/services/job_service.py:247-265 | status, expiry and index entry change in one step and the creation time stays |
| JobStore.JobService.AddPiiFindings | src/services/job_service.py:278-288 | the index entry is refreshed, status and expiry stay, and a missing hash is created |
| JobStore.JobService.CleanupOldJob | src/services/job_service.py:462-487 | hash and index entry go together, or neither when the script raises; true exactly when the script ran and the hash existed |
| JobStore.JobService.AddToTimeoutTracking | src/services/queue_service.py:223-233 | the job is tracked with that deadline, an earlier one is replaced, nothing else changes |
| JobStore.JobService.RemoveFromTimeoutTracking | src/services/queue_service.py:321-371 | the deadline is removed; true exactly when there was one |
| CodeFence.FenceShape | src/services/pipeline_viewer.py:190-273 | every result leaves the page alone, tags one bare fence line, or inserts two fence lines around a region; the region starts at the line that looking up the first line finds, outside of every fence, and ends where looking up the last line from there on does, or is one line; erasing the two lines gives back the page |
| CodeFence.DecidesBy | src/services/pipeline_viewer.py:190-273 | the first closed fence below which the block begins settles the decision; without one, the page is wrapped exactly when the line most similar to the block's first line is similar enough and stands outside of every fence |
| CodeFence.ScanTakesFirst | src/services/pipeline_viewer.py:192-228 | the scan takes the first opening below which the block begins, to tag it when bare and to stop when tagged, and finds nothing exactly when there is none |
| CodeFence.OpeningsPaired | src/services/pipeline_viewer.py:195-228 | each opening it looks at is a fence line that is closed, and closed above the next |
| CodeFence.FoundMeans | src/services/pipeline_viewer.py:154-172 | looking a line up finds the first of the most similar nonblank lines, comparing stripped texts, at a similarity of at least 0.6 |
| CodeFence.FenceTagIff | src/services/pipeline_viewer.py:192-201 | the fence pattern accepts exactly three backticks, a tag of word characters, and whitespace |
| CodeFence.FencesKeptEven | src/services/pipeline_viewer.py:249-263 | the number of fence lines stays or grows by two |
| CodeFence.InsideIsOdd | src/services/pipeline_viewer.py:236-241 | the toggling depth is the parity of the fences above the line |
| CodeFence.SecondTimeNothing | src/services/pipeline_viewer.py:190-273 | fencing the same block again changes nothing, for languages of word characters and fences above the match that are closed above it |
| CodeFence.SecondTimeSamePage | src/services/pipeline_viewer.py:175-273 | the same for the text of the page |
| CodeFence.UnclosedFenceUnstable | src/services/pipeline_viewer.py:196-228 | below an unclosed fence a second application can wrap its own opening line |
| CodeFence.ApplyCodeBlockFence | src/services/pipeline_viewer.py:175-273 | page and change record are those of the decision; a change is reported exactly when the decision is to tag or to wrap, and without one the page is unchanged |
| CodeFence.FuzzyFindLine | src/services/pipeline_viewer.py:154-172 | the loop returns the place the best-match specification gives, or -1 below the threshold |
| CodeFence.FindLineShape | src/services/pipeline_viewer.py:154-172 | a line that is found reaches the threshold |
| CodeFence.FindTagged | src/services/pipeline_viewer.py:192-228 | the nested loops with the skip find the block the recursive scan finds |
| CodeFence.FenceDepth | src/services/pipeline_viewer.py:236-241 | the toggled depth is 1 exactly inside a fence |
| Fuzzy.BestIsBest | src/services/pipeline_viewer.py:162-172 | the best-match loops return the first place of the greatest positive score, or -1 when there is none |
| Fuzzy.BestUnique | src/services/pipeline_viewer.py:162-172 | that description determines place and score |
| SectionMap.SectionsPartition | src/services/pipeline_viewer.py:1428-1481 | the sections carry consecutive stretches that together are the document from the first matched heading on; the preamble carries the rest and is left out exactly when it is blank |
| SectionMap.MatchesDistinct | src/services/pipeline_viewer.py:1407-1426 | headings are matched in document order and no outline entry is used twice |
| SectionMap.MatchesComplete | src/services/pipeline_viewer.py:1407-1426 | every heading takes the first of the most similar outline entries not taken above it, and stays unmatched only when no free entry reaches 0.6 |
| SectionMap.SectionFields | src/services/pipeline_viewer.py:1454-1480 | a section's title and level are those of the heading on its first line, its outline position is the matched entry, its text its own lines, trimmed; the preamble's fields |
| SectionMap.WholeIsOneSection | src/services/pipeline_viewer.py:1482-1493 | without a matched heading the document is one section on all its pages, or none when blank |
| SectionMap.LinesOfWhole | src/services/pipeline_viewer.py:1372-1384 | the lines are those of the pages joined by blank lines |
| SectionMap.LineHasOnePage | src/services/pipeline_viewer.py:1386-1394 | a page owns a line if and only if it is the one _line_to_page returns |
| SectionMap.OwnedLine | src/services/pipeline_viewer.py:1372-1394 | every line of every page is mapped back to that page |
| SectionMap.PagesNeverGoBack | src/services/pipeline_viewer.py:1464-1471 | over the whole document every section's page list is nonempty and increasing, and no section starts before the page the previous one ended on |
| SectionMap.SectionPages | src/services/pipeline_viewer.py:1439-1471 | a section's pages are those of its own stretch; the fallbacks for an empty list never apply |
| SectionMap.PagesOrdered | src/services/pipeline_viewer.py:1464-1471 | every page of an earlier stretch is at most every page of a later one |
| SectionMap.BuildSectionMap | src/services/pipeline_viewer.py:1372-1495 | the three loops build the sections that the specification describes |
| SectionMap.MatchOutline | src/services/pipeline_viewer.py:1407-1426 | the greedy matching loop equals its specification |
| SectionMap.SplitAtHeadings | src/services/pipeline_viewer.py:1428-1481 | the splitting loop equals its specification |
| SectionMap.CollectLines | src/services/pipeline_viewer.py:1374-1382 | lines and page starts of the joined document |
| SectionMap.LineToPage | src/services/pipeline_viewer.py:1386-1394 | the loop with its early exit returns the page the specification gives |
| SectionMap.CollectPages | src/services/pipeline_viewer.py:1464-1469 | the pages of the nonblank lines of a stretch, sorted without repetition |
| ImagePlaceholders.SubstitutionCommutes | src/services/pipeline_viewer.py:752-762 | with figures in page order, as many placeholders as figures on every page, and no marker in captions or ids, substituting then splitting equals splitting then substituting per page |
| ImagePlaceholders.CommutesIffAligned | src/services/pipeline_viewer.py:752-762 | for every document and clean references none a prefix of another, the two agree if and only if the figures are aligned with the placeholders |
| ImagePlaceholders.CommutesWhenAligned | src/services/pipeline_viewer.py:752-762 | alignment suffices for every clean list of references |
| ImagePlaceholders.CaptionDecides | src/services/pipeline_viewer.py:299-301 | a caption and an id without a marker give a reference without it, escaping included |
| ImagePlaceholders.ImageRefIs | src/services/pipeline_viewer.py:300-301 | a reference shows the caption with every closing bracket escaped, so that unescaping gives it back, and links to the figure's own file |
| ImagePlaceholders.EscapeRoundTrip | src/services/pipeline_viewer.py:300 | every closing bracket of a caption comes out escaped and unescaping gives the caption back |
| ImagePlaceholders.FiguresOnIs | src/services/pipeline_viewer.py:755 | the figures of a page are exactly those with its number |
| ImagePlaceholders.WholeDocument | src/services/pipeline_viewer.py:297-302 | after the whole-document substitution each page is filled from the references left after the markers of the earlier pages, and the pages stay the same |
| ImagePlaceholders.ReplaceFills | src/services/pipeline_viewer.py:297-302 | replacing the first remaining marker time and again equals one left-to-right pass: no reference makes or breaks a marker |
| ImagePlaceholders.FillAcrossBreak | src/services/pipeline_viewer.py:297-302 | the pass goes across a page break, the next page taking what is left |
| ImagePlaceholders.SplitOfFill | src/services/docling_response_parser.py:34 | splitting after the pass equals passing over the split parts with the references handed on |
| ImagePlaceholders.OnePerPlaceholder | src/services/pipeline_viewer.py:752-758 | figures in page order, one per placeholder, are aligned |
| ImagePlaceholders.DroppedFigureBreaks | src/services/pipeline_viewer.py:740-742 | a figure dropped by a failed crop makes the two substitutions differ |
| ImagePlaceholders.ReplaceImagePlaceholders | src/services/pipeline_viewer.py:295-304 | the loop with its early exit equals the specification |
| PageSplit.SplitInvertsJoin | src/services/docling_response_parser.py:31-40 | splitting trimmed pages without the marker joined by it returns each kept page under its own number |
| PageSplit.SplitStripsJoin | src/services/docling_response_parser.py:31-40 | pages without the marker, with whatever whitespace around them, come back stripped under their own numbers, blank ones after the first left out |
| PageSplit.PagesAre | src/services/docling_response_parser.py:31-40 | which parts of a document become pages, and that each is its part, stripped |
| PageSplit.PageBreakUnbordered | src/services/docling_response_parser.py:22-25 | the page marker has no border, so no occurrence straddles a join |
| PageSplit.SplitMarkdownByPage | src/services/docling_response_parser.py:31-40 | the loop equals the specification: stripped pages, blank ones after the first dropped, an empty document empty |
| Text.JoinSplit | src/services/docling_response_parser.py:34 | joining what was split gives back the text |
| Text.SplitJoin | src/services/docling_response_parser.py:34 | splitting what was joined gives back parts without the separator, for an unbordered separator |
| Text.SplitParts | src/services/docling_response_parser.py:34 | no part contains the separator |
| Text.FindAtJoin | src/services/docling_response_parser.py:34 | the first marker of a joined text stands at the first join |
| Text.CountIsOne | src/utils/diff_utils.py:48 | what a non-overlapping count of one says about the places of a match |
| Text.LinesUnlines | src/services/pipeline_viewer.py:190 | splitting joined lines gives back the lines |
| Headings.ChangedLine | src/services/pipeline_viewer.py:1285-1315 | a line changes exactly when it is a heading whose level the outline disagrees with; then only hashes and spacing change, and for levels 1-6 it is again a heading with that text and level |
| Headings.HeadingIff | src/services/pipeline_viewer.py:1273 | a heading is exactly one to six hashes, whitespace and at least one more character; its text is the rest, trimmed |
| Headings.MatchEntryIs | src/services/pipeline_viewer.py:1292-1303 | the deciding entry is the first of the most similar ones, at a similarity of at least 0.8; none when no entry reaches it |
| Headings.EntriesOnIs | src/services/pipeline_viewer.py:1278 | the entries of a page are exactly those of the outline with its number |
| Headings.DiffLogIs | src/services/pipeline_viewer.py:1313-1325 | the log of a page holds exactly the lines that differ, each once, with old and new text |
| Headings.StepLogOrdered | src/services/pipeline_viewer.py:1275-1330 | the log of the step goes through the pages in order |
| Headings.StepLogOfPage | src/services/pipeline_viewer.py:1275-1330 | what the log of the step says of a page is that page's own log |
| Headings.FixLineIdempotent | src/services/pipeline_viewer.py:1285-1315 | correcting a corrected line changes nothing, for every level and text |
| Headings.PageKeepsLines | src/services/pipeline_viewer.py:1282-1328 | every page keeps its number of lines and each line is corrected by itself |
| Headings.SecondRunSilent | src/services/pipeline_viewer.py:1275-1334 | a second run over the corrected pages logs nothing, for every document and outline |
| Headings.RewrittenParses | src/services/pipeline_viewer.py:1305-1310 | when a rewritten line is a heading again and with which level and text |
| Headings.PipelineResult.StepHeadingLevels | src/services/pipeline_viewer.py:1275-1347 | the step corrects every page in place, logs exactly the changed lines, and rebuilds the version only when something changed |
| Headings.PipelineResult.FixPageLines | src/services/pipeline_viewer.py:1282-1325 | the loop over one page rewrites the lines in place and logs each changed one |
| Headings.PipelineResult.BestEntry | src/services/pipeline_viewer.py:1292-1301 | the loop returns the best outline entry of the page |
| EditLog.LogReplays | src/services/pipeline_viewer.py:2307-2333 | for every sequence of str_replace calls, accepted or rejected, replaying the log over the original text gives the final text |
| EditLog.RewriteLosesText | src/services/pipeline_viewer.py:2523-2533 | for every page two rewrites exist that leave the same log and different pages |
| EditLog.RewriteRecoverableIff | src/services/pipeline_viewer.py:2525-2533 | the record of a rewrite determines the text if and only if the text has at most 200 characters |
| EditLog.PageEditor.StrReplace | src/services/pipeline_viewer.py:2307-2333 | refused unless the text is counted exactly once; else the first occurrence, and nothing else, is replaced and the change logged as it was asked for |
| EditLog.PageEditor.RewritePage | src/services/pipeline_viewer.py:2517-2534 | refused when blank; else the page is replaced and a truncated record logged |
| DiffUtils.UndoIff | src/utils/diff_utils.py:126-130 | swapping search and replacement undoes an applied edit if and only if the replacement is nonempty, counted once in the new text, and first found at the place of the edit |
| DiffUtils.UndoWhenOnePlace | src/utils/diff_utils.py:126-130 | one occurrence counting overlaps is enough for the undo |
| DiffUtils.CountOneIsNotOnePlace | src/utils/diff_utils.py:48-52 | a count of one can hide two overlapping places, and the undo then hits the wrong one |
| DiffUtils.CountMeansOnePlaceIff | src/utils/diff_utils.py:47-52 | a count of one means one place, in every text, if and only if the pattern has no border |
| DiffUtils.UniqueContextAccepted | src/utils/diff_utils.py:85-104 | what is found for a nonempty target is accepted as a search text and contains the target |
| DiffUtils.VerdictIs | src/utils/diff_utils.py:41-54 | an edit is valid exactly when its nonempty text differs from the replacement, is found, and is not found again at or after its end |
| DiffUtils.FirstUniqueIs | src/utils/diff_utils.py:96-102 | what is found is the candidate of the least width that is unique |
| DiffUtils.CandidateReaches | src/utils/diff_utils.py:97-99 | a candidate stands around the first match with the given number of characters on each side, as far as the text goes |
| DiffUtils.NoneFound | src/utils/diff_utils.py:96-104 | nothing is found exactly when no tried width gives a unique candidate |
| DiffUtils.FindUniqueContext | src/utils/diff_utils.py:85-104 | the widening loop returns the first unique candidate |
| LetterSpacing.CollapseIsKept | src/utils/text_cleanup.py:104-111 | the greedy scan deletes the spaces inside every run of at least four standalone letters separated by single spaces, and nothing else |
| LetterSpacing.RunIsLongestMatch | src/utils/text_cleanup.py:106 | the run the scan takes is the longest match of the pattern, word boundaries included |
| LetterSpacing.CollapseKeepsOthers | src/utils/text_cleanup.py:104-111 | every character but the space is kept, in order |
| LetterSpacing.CollapseIdempotent | src/utils/text_cleanup.py:104-111 | a second application changes nothing |
| Whitespace.TwoPassesEnough | src/utils/text_cleanup.py:133-143 | two passes reach a fixed point without double spaces, trailing whitespace or three newlines in a row, on every text |
| Whitespace.FixedIffClean | src/utils/text_cleanup.py:133-143 | the fixed points are exactly the texts with none of the three |
| Whitespace.OnePassIff | src/utils/text_cleanup.py:133-143 | one pass is enough exactly when no two neighbouring inner lines are blank before the lines are stripped |
| Whitespace.DoubleNewlinesIs | src/utils/text_cleanup.py:137 | collapsing newlines takes out exactly those that directly follow two, so a paragraph break survives |
| Whitespace.SingleSpacesIs | src/utils/text_cleanup.py:134 | collapsing spaces takes out exactly those that directly follow a space |
| Whitespace.OnePassNotEnough | src/utils/text_cleanup.py:137-141 | a text on which one pass is not enough |
| Whitespace.FixKeepsSolid | src/utils/text_cleanup.py:133-143 | every character that is not whitespace is kept, in order |
| Whitespace.CutIsRStrip | src/utils/text_cleanup.py:140-143 | stripping line by line equals one character-wise cut of trailing whitespace |
| Whitespace.CompositionNotIdempotent | src/utils/text_cleanup.py:282-283 | collapsing letters and then fixing whitespace is not idempotent |
| Whitespace.CompositionFixedIff | src/utils/text_cleanup.py:282-283 | the composition leaves a text alone exactly when it is clean and has no loose run of letters |
| Whitespace.CompositionIdempotentIff | src/utils/text_cleanup.py:282-283 | a second composition changes nothing if and only if, once letters are collapsed and spaces are single, no two neighbouring inner lines are blank and no loose run of letters has appeared |
| Whitespace.LooseRunAfterFix | src/utils/text_cleanup.py:133-143 | collapsing newlines and stripping line ends neither makes nor breaks a loose run of letters |
| PrivateUse.ReplacePuaIs | src/utils/text_cleanup.py:36-43 | the two substitutions together turn each maximal run into a hyphen or a mark by what stands around it |
| PrivateUse.RunBecomes | src/utils/text_cleanup.py:36-42 | a maximal run becomes a hyphen between an ASCII letter or digit on both sides and U+FFFD otherwise; what stands around it is treated by itself |
| PrivateUse.StripTakesOut | src/utils/text_cleanup.py:53-55 | stripping takes out exactly the private-use characters and U+FFFD |
| PrivateUse.ReplacePuaClears | src/utils/text_cleanup.py:19-43 | no private-use character is left and a second application changes nothing |
| PrivateUse.StripAfterReplace | src/utils/text_cleanup.py:46-55 | marking and later stripping keeps every other character and the hyphens, in order |

## Left out

- CodeFence.SecondTimeNothing: stability is proved from a condition on the page (a language of word characters, fences above the match closed above it) and not conversely; whether an unclosed fence above leads to a second wrapping depends on how similar the code is to the fence line itself, which is arbitrary here. UnclosedFenceUnstable is a page on which it does.
- ImagePlaceholders.CommutesIffAligned: the "only if" half needs that no reference is a proper prefix of another; otherwise two different lists of references can give the same text.
- Approval.AwaitingIsTracked: assumes that approval is not asked for again after the status was written away; DeadlineKeptIff decides that case from the state, AskedAgainLosesDeadline shows that it occurs.
- JobStore.JobService.ProcessExpiredApprovals: proved for a sweep with nobody in between; how single sweep steps interleave with decisions is in Approval.
- JobStore.JobService.CleanupOldCompletedJobs: one whole sweep with nobody in between; its single checks and deletions beside everything else are in RemovedOnlyAsChecked.
- RateLimit.RateKey.GetRemainingQuota: with nobody between its prune and its count; QuotaNeverOverstates covers a later count.
- Negative reader cursors (`last_event_id` below -1) and session eviction in the session store.
- Fail-open answers of the limiter when Redis is down, `reset_rate_limit`, and the reset times of the quota answer.
- `process_approval_decision` and `_process_approval`, which no endpoint calls, and the PII worker's path without findings.
- The steps of document processing itself; after a start, and for the stuck-job sweep and deletions, arbitrary writes of other statuses are allowed as single steps.
- Direct hash writes of the document processing service, which bypass the index, `backfill_jobs_index`, and crashes between steps.
- The 30-second wait for an event bus and the stream of a job that was finished when the stream was opened.
- Redis failures inside the limiter, the breaker's logging and statistics, retry back-off delays.
- The other edit tools of the page agents, the language-model agents themselves, cost tracking and prompts.
- The docling service, S3, PDF rendering, PII analysis, OCR, metrics, authentication, configuration.
- NFKC normalisation, quote and URL fixes, and non-ASCII whitespace other than what `Text.IsSpace` lists.
- Replaying `rewrite_page` edits: the record is truncated, see EditLog.RewriteLosesText.
- Reasoning strings of change records and similarity percentages in them.
