# Seed server: a Dafny model

The server keeps jobs, confirmations, credits, egress requests, recognised groceries and metrics in stores that many
requests change at once, or through loops whose result is not obvious from one turn. This project models those parts
and proves what holds of every input, every run or every interleaving. Where the code does not do what it is for, a
lemma gives an input that shows it, and another says exactly when it does.

| files | source | what is modelled |
|---|---|---|
| `ConfirmCancel.dfy` | `app/api/actions_saga_routes.py` | any number of confirm and cancel requests over two Redis keys, as a state machine, and the handler as a method that runs it |
| `JobMachine.dfy`, `JobInvariant.dfy`, `JobIdempotency.dfy`, `JobCancellation.dfy`, `JobCustody.dfy`, `JobService.dfy` | `app/api/actions_endpoint.py`, `app/api/jobs_routes.py`, `app/infrastructure/redis/worker.py` | the life of a job between requests, cancellations, the queue and the workers |
| `ParseGrid.dfy` | `scripts/parse_grid.py` | breadth-first search from the drop-off, and the access distance of each item |
| `CreditLedger.dfy` | `app/billing_service.py` | the balance as a reflected walk, and the transaction log, also when commits fail |
| `EgressProxy.dfy` | `scripts/sandbox_egress_proxy.py` | the sliding-window limiter and the domain allowlist |
| `VisionMarkers.dfy`, `VisionDedupe.dfy`, `VisionDistinct.dfy`, `StoreMerge.dfy` | `app/api/inventory_orders_vision_routes.py` | overlap of boxes, merging of detections and when it leaves distinct ones, merging of store rows |
| `BlueprintSteps.dfy`, `BlueprintRepair.dfy`, `BlueprintStepwise.dfy`, `BlueprintGeneral.dfy`, `BlueprintTwice.dfy`, `BlueprintProperties.dfy`, `BlueprintLoss.dfy`, `BlueprintReadings.dfy` | `scripts/smoke_neoeats_real_llm.py` | the blueprint repair |
| `ReplayCache.dfy` | `app/agent_sandbox_worker.py` | replay protection and the order of the checks of a call |
| `AuditLog.dfy` | `app/key_management.py` | the merged key audit log |
| `Metrics.dfy` | `app/api/metrics.py` | histograms and their export |
| `RetryBackoff.dfy` | `app/ai_adapters.py` | the retry loop and its batch |
| `Options.dfy`, `Strings.dfy` | | an option type; `lower`, `strip`, `in` for ASCII text |

`dafny verify dfyconfig.toml` checks the whole project.

Where the code and its contract use one definition, a lemma says what that definition is in terms of rows, numbers and
text alone; the contracts of the endpoints say so themselves.

## How concurrency is modelled

A run is a list of steps that are each possible when they are taken, so it is an interleaving of any number of
handlers, and a statement about every run is about every schedule. Within the API, which is one process with one event
loop, a step is what happens between two awaits. The queue workers are processes of their own (`docker-compose.yml`), so
their steps are single statements, and they may come between the SELECT and the UPDATE of a cancellation, which are two
steps. Redis errors, key expiry, awaited calls that raise, and requests, handlers and workers that stop at an await are
steps as well. The classes `ActionKeys` and `JobService` hold the stores as the server does. Their methods are the
endpoints' code, and each records the run of the machine it performs, so the theorems about runs apply to what the
methods leave behind.

## Where the code does less than it is for

- Confirm and cancel resume an action once only if the Redis client answers `False` to a refused SET NX. The redis
  client for Python answers `None`, which the test `reserved is False` lets through
  (`ConfirmCancel.AtMostOnceIffRefusalIsFalse`). Even with `False`, each swallowed Redis error and each expiry of the
  status key can cost one more resume, but nothing else can (`ConfirmCancel.EveryResumeIsAccounted`, `ConfirmCancel.EachFaultCanResumeAgain`,
  `ConfirmCancel.EachExpiryCanResumeAgain`). With either client a handler that looks after a result is stored does not
  resume (`ConfirmCancel.LateHandlersNeverResume`).
- "cancelled" is not final, because only the UPDATEs to "running" check the status. It is overwritten in three ways: the
  creating request still has an inline execution ahead (`JobCancellation.CancelCanPrecedeInlineRun`); a worker claimed
  the job after the cancellation had read it as queued (`JobCancellation.CancelCanFollowAClaim`); or the worker of
  learning paths (`app/services/path/worker.py`), which ignores whether its UPDATE to "running" matched, had read the
  job as queued before it was cancelled (`JobCancellation.CancelCanPrecedeABlindStart`). It stands in every continuation
  exactly when neither such a request nor such a worker is there (`JobCancellation.CancelStandsIffNobodyOverwrites`).
- The drop-off is never tested against the walls, so the reached cells are all walkable only if it is
  (`ParseGrid.ReachedCellsAreOpenIffStartIs`).
- A debit logs its full amount even when the balance stops at zero, and it raises an overdrawn balance to zero
  (`CreditLedger.DebitAddsUpIffAffordable`, `CreditLedger.DebitsNeverRaiseIffNotOverdrawn`).
- Detections that the merging leaves may still be one marker (`VisionDedupe.OutputsCanMatch`). For given
  scores they are distinct wherever the detections lie exactly when none has a higher score than one that came two or
  more places before it
  (`VisionDistinct.OutputsAreDistinctIffScoresSettle`).
- The blueprint repair can change a block, or replace a step by another one with its id, without reporting it; these
  are the only silent changes (`BlueprintProperties.UnchangedIffReportedAndNotOverwritten`). It loses what a step has
  exactly when the last step with its id has it not (`BlueprintProperties.StepsAreKeptIff`, `BlueprintLoss.LossCanBeSilent`),
  and the references it adds name no step exactly when a role's id is blank
  (`BlueprintProperties.RoleIdsSurviveIffNamed`). When repairing twice is the same as repairing once is said for all
  blueprints by `BlueprintTwice.RepairIsIdempotentIff`.
- The metrics export adds up buckets that are already cumulative (`Metrics.ExportedBucketIsRightIffEarlierAreEmpty`).
- For a negative limit the audit log drops entries from its end: SQLite reads it as no limit, the slice does not
  (`AuditLog.NegativeLimitDropsTheOnlyEvent`). The log holds all that the limit allows exactly when the limit is not
  negative or there is no event at all (`AuditLog.GetKeyAuditLog`, by `AuditLog.CutIsFullIff`).

## Model

| member | source | states |
|---|---|---|
| `ConfirmCancel.StepIsAccounted` | app/api/actions_saga_routes.py:443-464 | whichever step any handler takes, the number of resumes stays within one plus the errors swallowed before a resume, the unrecognised refusals and the expiries of the status key |
| `ConfirmCancel.EveryResumeIsAccounted` | app/api/actions_saga_routes.py:443-464 | the same bound after every interleaving; with a client that answers `False` no refusal goes unrecognised |
| `ConfirmCancel.EachFaultCanResumeAgain` | app/api/actions_saga_routes.py:462-464 | the bound is reached: for every n there is a run with n swallowed errors and n + 1 resumes |
| `ConfirmCancel.EachExpiryCanResumeAgain` | app/api/actions_saga_routes.py:447-452 | so it is by expiries alone: for every n there is a run without errors in which the status key runs out n times and n + 1 resumes happen |
| `ConfirmCancel.NoneReplyResumesTwice` | app/api/actions_saga_routes.py:447-464 | an interleaving without any fault in which a confirm and a cancel both resume the action, with opposite decisions, because the refused SET NX answered `None` |
| `ConfirmCancel.AtMostOnceIffRefusalIsFalse` | app/api/actions_saga_routes.py:442-464 | at most one resume in every run without early faults or expiries, exactly when the client answers `False` |
| `ConfirmCancel.RunKeepsProvenance` | app/api/actions_saga_routes.py:464-489 | in every interleaving the stored result and every reply but the placeholder were returned by some resume, and each resume approves exactly when its handler is a confirm request with the answer yes |
| `ConfirmCancel.CalmRunsAgree` | app/api/actions_saga_routes.py:442-489 | in every run without early faults or expiries all replies are the placeholder or the response of the one resume, which is also what is stored |
| `ConfirmCancel.LateHandlersGetTheStoredResult` | app/api/actions_saga_routes.py:508-512 | with a client that answers `False`, in runs without early faults or expiries: once a result is stored, a handler that has not looked yet can only reply with that result, until the key runs out |
| `ConfirmCancel.LateHandlersNeverResume` | app/api/actions_saga_routes.py:508-512 | whatever the client answers and whatever else fails: such a handler never resumes and can only reply with what is stored from then on, until the key runs out or its own GET raises |
| `ConfirmCancel.HandlersNeverBlock` | app/api/actions_saga_routes.py:442-555 | after any run a handler that has not ended can take its next step |
| `ConfirmCancel.StepsRunOut` | app/api/actions_saga_routes.py:442-555 | each own step brings a handler closer to its end, and no step of another moves it |
| `ConfirmCancel.OutsideEventsDo` | app/api/actions_saga_routes.py:442-452 | keys that run out and handlers that stop change only that key or that handler |
| `ConfirmCancel.ActionKeys.Admit` | app/api/actions_saga_routes.py:442-463 | lookup and reservation reply with the stored result or the placeholder, exactly when GET finds a result or the refused SET NX answers `False`; else they start one resume, which approves exactly for a confirm request with the answer yes; the status key is set only by an effective SET NX |
| `ConfirmCancel.ActionKeys.Finish` | app/api/actions_saga_routes.py:464-489 | after the resume the response is replied, stored unless its SET was lost, and marked done unless a SET was lost or skipped |
| `ConfirmCancel.ActionKeys.Handle` | app/api/actions_saga_routes.py:508-555 | a request served without interruption is a run of its own handler; it resumes exactly when GET raises, or finds nothing and the reservation is free, raises or is refused with `None`; the resume approves exactly for a confirm request with the answer yes; reply, stored result and status in every case |
| `JobMachine.LocalStepKeepsOk` | app/api/actions_endpoint.py:213-363 | each step after the INSERT keeps what ties the creating request to its job's row and queues, for every outcome of the execution, every fault and every stop |
| `JobMachine.RequestCanStepIff` | app/api/actions_endpoint.py:213-363 | at each point after the INSERT: how the request goes on, where an awaited call may raise, and where it may stop |
| `JobMachine.FaultsAndStopsDo` | app/api/actions_endpoint.py:226-341 | an error while the start or the success of the inline execution is announced writes "failed" and announces that; any other ends the request and leaves the row |
| `JobMachine.LosesJobIff` | app/api/actions_endpoint.py:213-363 | a request's step counts as a loss of a queued or running job exactly when it lets go of the job without having put it into a queue |
| `JobMachine.WorkStepKeepsOk` | app/infrastructure/redis/worker.py:41-140 | each statement of a worker, also of the one for learning paths, keeps what ties it to the row: claimed means running, announced means done or failed, unless a cancellation that read the row before wrote over it |
| `JobMachine.WorkerCanWorkIff` | app/infrastructure/redis/worker.py:41-140 | at each point of a worker, the statements that the status of the row allows |
| `JobMachine.WorkLosesIff` | app/infrastructure/redis/worker.py:41-61 | a worker's step counts as a loss of a queued or running job exactly when it lets go of the job outside the queues |
| `JobInvariant.EventKeepsInv` | app/api/actions_endpoint.py:100-363 | every step of every request, cancellation and worker keeps the invariant of the whole system, also a worker step between the two statements of a cancellation |
| `JobInvariant.ReachableKeysAreUnique` | app/infrastructure/db/sqlite.py:117-119 | in every reachable state two rows with one user and one key are one row |
| `JobIdempotency.OneInsertPerKey` | app/api/actions_endpoint.py:164-219 | among all requests with one user and key at most one has inserted a row and at most one is counted as usage, and that one inserted |
| `JobIdempotency.RepliesNameOneJob` | app/api/actions_endpoint.py:100-211 | all successful replies for one user and key name the same job, the one in the table |
| `JobIdempotency.ConflictIffPayloadDiffers` | app/api/actions_endpoint.py:100-211 | a request that reached the table gets 409 exactly when the row stored for its user and key has a digest and that is not the request's |
| `JobIdempotency.UsageCountsRequests` | app/api/actions_endpoint.py:213-219 | in every run a user's usage has grown by the number of the user's requests that were counted |
| `JobIdempotency.EachJobHasOneCustodian` | app/api/actions_endpoint.py:221-352 | in every reachable state a job is with its creating request, in the queue, in the schedule or with one worker, never two of these, and its execution is recorded as done once at most |
| `JobIdempotency.InlineRunIsProtected` | app/api/jobs_routes.py:60-70 | once the guarded UPDATE matched, the row says running and every cancel is refused until the executing request takes a step or stops |
| `JobIdempotency.PushedExactlyWhenReportedQueued` | app/api/actions_endpoint.py:343-363 | a finished request pushed its job once if it reports queued and not at all if it reports an outcome |
| `JobCancellation.CancelledStaysForever` | app/api/jobs_routes.py:55-70 | a cancelled job stays cancelled in every continuation if its request has no inline execution ahead and no worker executes it, is about to without looking, or announces it as done |
| `JobCancellation.InlineStepsOverwrite` | app/api/actions_endpoint.py:222-283 | a cancelled job with an inline execution ahead has a continuation in which it is done |
| `JobCancellation.WorkerOverwrites` | app/infrastructure/redis/worker.py:95-135 | a job that a worker executes, or is about to without looking, has a continuation in which it is done, and one it announces as done has one in which it is failed |
| `JobCancellation.CancelStandsIffNobodyOverwrites` | app/api/jobs_routes.py:55-70 | a cancellation stands in every continuation exactly when no inline execution is ahead and no worker has an unguarded UPDATE of the job ahead |
| `JobCancellation.CancelCanPrecedeInlineRun` | app/api/actions_endpoint.py:213-227 | the concrete run: the job is cancelled while the usage counter is awaited |
| `JobCancellation.CancelCanFollowAClaim` | app/infrastructure/redis/worker.py:62-110 | the concrete run: the cancellation reads "queued", a worker claims and starts the job, the cancellation writes "cancelled", the worker writes "done" |
| `JobCancellation.CancelCanPrecedeABlindStart` | app/services/path/worker.py:47-61 | the concrete run: the path worker reads "queued", the job is cancelled, its guarded UPDATE matches nothing, and it writes "done" |
| `JobCustody.EventLosesNothing` | app/api/actions_endpoint.py:257-352 | no step but the ones counted as losses lets go of a queued or running job |
| `JobCustody.NoJobIsStranded` | app/api/actions_endpoint.py:343-352 | without a fault around the queue, a request or worker that stops with the job, or a delayed job popped early, every row of the run that says queued or running has a creator that has not pushed it or replied, a place in a queue, or a worker |
| `JobService.JobService.CancelJob` | app/api/jobs_routes.py:52-78 | 404 exactly for an unknown job, 403 exactly for another user's job without admin rights, 409 exactly when the SELECT did not read "queued"; else, after whichever of the listed steps the workers can take in between, the row is as it was but for the status "cancelled" |
| `JobService.JobService.WorkOn` | app/infrastructure/redis/worker.py:41-140 | a worker takes a statement exactly when it holds a job in the phase and with the status for it; the row of the job gets the status that statement writes, only putting back touches a queue, and the worker keeps the job in the next phase or lets go of it |
| `JobService.JobService.TakeJob` | app/infrastructure/redis/worker.py:143-162 | a free worker gets a job exactly when there is one to pop, and that queue has it once less |
| `JobService.JobService.LetWorkersRun` | app/infrastructure/redis/worker.py:143-162 | of a list of steps the workers take, in order, exactly those that are possible when their turn comes |
| `JobService.JobService.LookUp` | app/api/actions_endpoint.py:100-113 | a reply exactly when a row is stored for the user and the key; 409 exactly when that row has another digest, and else its id and its status |
| `JobService.JobService.InsertRow` | app/api/actions_endpoint.py:168-211 | a new queued row, or, exactly when the key was taken meanwhile, the same reply from the stored row |
| `JobService.JobService.FinishInline` | app/api/actions_endpoint.py:257-341 | the outcome decides the row's status, the reply and whether the job goes on to the queue; no other row changes |
| `JobService.JobService.Actions` | app/api/actions_endpoint.py:100-363 | a request served without interruption adds events of its own to the run; for a known key it gets 409 or the stored row's id and status, by the digest, and changes no row, queue, schedule or counter; for a new one the reply is done, failed or queued as policy and outcome say, just the row with user, key, digest and that status is added, the counter grows by one, and the job goes to the queue or the schedule exactly when the reply is queued |
| `ParseGrid.DistancesFrom` | scripts/parse_grid.py:110-126 | the search ends; its keys are exactly the cells that some walk reaches, moving to a cell beside the last one each time and only through cells in bounds without a wall; its values are the fewest moves |
| `ParseGrid.OffsetsLeadToAdjacentCells` | scripts/parse_grid.py:122-123 | the four offsets lead to all cells that lie beside, above or below, and to no others |
| `ParseGrid.AdjacentIffManhattanIsOne` | scripts/parse_grid.py:122-123 | these are the cells at Manhattan distance one |
| `ParseGrid.WalksAreNoShorter` | scripts/parse_grid.py:120-126 | when every cell is relaxed, no walk is shorter than the recorded distance |
| `ParseGrid.DiscoveryKeepsExpanding` | scripts/parse_grid.py:120-126 | discovering a neighbour keeps the queue in two layers and every known cell either finished or waiting |
| `ParseGrid.DistanceMapIsUnique` | scripts/parse_grid.py:115-126 | there is one such map, so the order of the offsets cannot show |
| `ParseGrid.DistanceGeometry` | scripts/parse_grid.py:120-126 | distances are at least the Manhattan distance and of its parity |
| `ParseGrid.AdjacentDistancesDifferByOne` | scripts/parse_grid.py:120-126 | adjacent reached cells differ by exactly one |
| `ParseGrid.ReachedCellsAreOpenIffStartIs` | scripts/parse_grid.py:117-119 | all reached cells are open exactly when the drop-off is |
| `ParseGrid.ItemDistance` | scripts/parse_grid.py:129-139 | -1 exactly when no cell beside, above or below the item is reachable, else the fewest moves to such a cell |
| `ParseGrid.NearestAccessGeometry` | scripts/parse_grid.py:129-139 | the access distance is at least the item's Manhattan distance less one, and of the other parity |
| `CreditLedger.BalanceIsNonNegative` | app/billing_service.py:184-186 | from a non-negative balance no sequence of debits and refunds goes below zero |
| `CreditLedger.BalanceIsReflectedWalk` | app/billing_service.py:169-259 | the balance is the sum of the logged amounts plus the larger of the start and their deepest dip |
| `CreditLedger.ShortfallsExplainTheLog` | app/billing_service.py:184-199 | for any start and costs the balance is the start plus all logged amounts plus all clamped shortfalls |
| `CreditLedger.ShortfallsAreTheExcessDip` | app/billing_service.py:184-199 | all that was ever clamped is the excess of the deepest dip over the start |
| `CreditLedger.DebitAddsUpIffAffordable` | app/billing_service.py:125-136 | the line of a debit adds up exactly when the affordability test passes |
| `CreditLedger.RefundRestoresIffAffordable` | app/billing_service.py:244-247 | refunding a debit restores the balance exactly when the debit was affordable, and else gives the cost |
| `CreditLedger.DebitsNeverRaiseIffNotOverdrawn` | app/billing_service.py:184-186 | no debit raises the balance exactly when the balance is not overdrawn |
| `CreditLedger.DebitTakesTheCost` | app/billing_service.py:184-199 | a debit takes the cost times the rate, but no more than there is, and logs the full amount as negative |
| `CreditLedger.RefundGivesTheCost` | app/billing_service.py:244-259 | a refund adds the cost times the rate and logs it |
| `CreditLedger.LogChains` | app/billing_service.py:271-299 | each line of a user's log starts where the last one ended, and the last one ends at the balance |
| `CreditLedger.PhotoBilling.ValidateCanAfford` | app/billing_service.py:104-147 | with required payment and a lookup that does not raise, true exactly when the balance, zero for an unknown user, is at least the cost times the rate, which is when the line of the next debit would add up; true without required payment, false when the lookup raises |
| `CreditLedger.PhotoBilling.DebitUserCredits` | app/billing_service.py:149-209 | one user's balance falls by the cost times the rate, to zero at least, and one line with the full amount is logged unless its commit fails; nothing for an unknown user or a lookup that raises; an update that raises answers false, logs nothing and may have changed the balance; every balance and line due still follows from that user's operations alone |
| `CreditLedger.PhotoBilling.RefundUserCredits` | app/billing_service.py:211-269 | the same for a refund, which adds the cost times the rate |
| `CreditLedger.LogIsCompleteIffAllCommitted` | app/billing_service.py:298-305 | the log has every line exactly when every commit succeeded |
| `CreditLedger.ServiceObeysTheLaws` | app/billing_service.py:149-305 | in every valid state of the service the closed form holds for every user whatever was committed, and the complete log chains for every user |
| `EgressProxy.PruningTwice` | scripts/sandbox_egress_proxy.py:75-76 | what an earlier pruning dropped a later one would drop too |
| `EgressProxy.RecentCountsTheLastMinute` | scripts/sandbox_egress_proxy.py:75-76 | pruning keeps exactly the entries less than sixty seconds old |
| `EgressProxy.AnyMinuteHasAtMostMax` | scripts/sandbox_egress_proxy.py:77-79 | admissions that each found room leave at most the maximum in every half-open minute |
| `EgressProxy.RateLimiter.IsRateLimited` | scripts/sandbox_egress_proxy.py:70-79 | on a clock that does not run back a request is refused exactly when at least the maximum of all requests ever admitted from its source are less than sixty seconds old; no other source is touched |
| `EgressProxy.LimiterBoundsEveryMinute` | scripts/sandbox_egress_proxy.py:70-79 | in every valid state at most the maximum of the requests admitted from a source lie in any sixty seconds |
| `EgressProxy.LabelsConcat` | scripts/sandbox_egress_proxy.py:94-95 | cutting at a dot cuts the list of labels there |
| `EgressProxy.LabelsHaveNoDots` | scripts/sandbox_egress_proxy.py:94-95 | no dot is left in a label |
| `EgressProxy.MatchIffInDomain` | scripts/sandbox_egress_proxy.py:90-96 | the text test holds exactly when the entry's labels are the last labels of the host |
| `EgressProxy.IsAllowed` | scripts/sandbox_egress_proxy.py:87-96 | a host, in lower case and stripped, passes exactly when it lies within some allowed domain, in the sense of section 3.1 of RFC 1034 |
| `Strings.StripCutsTheEnds` | scripts/sandbox_egress_proxy.py:89 | stripping takes white space off both ends and nothing else, until it meets other text |
| `EgressProxy.SubdomainsAreInDomain` | scripts/sandbox_egress_proxy.py:93-95 | every subdomain of a host within a domain is within it |
| `EgressProxy.InDomainIsTransitive` | scripts/sandbox_egress_proxy.py:93-95 | being within a domain is a partial order |
| `VisionMarkers.BoxHasItsReadings` | app/api/inventory_orders_vision_routes.py:174-197 | there is a box exactly when each of its four numbers is usable in the dictionary or else in the flat field and the size is positive, and it has these numbers |
| `VisionMarkers.CenterHasItsReadings` | app/api/inventory_orders_vision_routes.py:200-219 | the centre is read from the first usable of three places for each coordinate, and is the middle of the box when one coordinate has none |
| `VisionMarkers.IouIsSymmetric` | app/api/inventory_orders_vision_routes.py:222-237 | overlap over union does not depend on the order |
| `VisionMarkers.IouIsAFraction` | app/api/inventory_orders_vision_routes.py:222-237 | for boxes of positive size it lies between zero and one |
| `VisionMarkers.IouIsZeroIffDisjoint` | app/api/inventory_orders_vision_routes.py:226-230 | zero exactly when the interiors share no point |
| `VisionMarkers.IouIsOneIffEqual` | app/api/inventory_orders_vision_routes.py:232-237 | one exactly when the boxes are equal |
| `VisionMarkers.IouIsIntersectionOverUnion` | app/api/inventory_orders_vision_routes.py:222-237 | for boxes that share points these points form a box, and the score is its area over the area that both cover together |
| `VisionMarkers.SamePlaceIsReflexive` | app/api/inventory_orders_vision_routes.py:252-263 | a detection is where it is, whichever fields it has |
| `VisionMarkers.SamePlaceIsSymmetric` | app/api/inventory_orders_vision_routes.py:252-263 | the relation is symmetric |
| `VisionMarkers.CloseIff` | app/api/inventory_orders_vision_routes.py:240-245 | centres are close within 0.12 when all coordinates are within 1.5 of zero, and else within 72 |
| `VisionMarkers.SamePlaceIff` | app/api/inventory_orders_vision_routes.py:252-263 | one place: boxes with a score of at least 0.45, close centres, or no centre on either side |
| `VisionMarkers.SamePlaceIsNotTransitive` | app/api/inventory_orders_vision_routes.py:240-245 | three centres of which the outer two are not close |
| `VisionDedupe.SameMarkerIsReflexiveAndSymmetric` | app/api/inventory_orders_vision_routes.py:248-263 | the marker relation is reflexive and symmetric |
| `VisionDedupe.SameMarkerIff` | app/api/inventory_orders_vision_routes.py:248-263 | one marker: one identity key and one place, with the conditions on the place written out |
| `VisionDedupe.ScoreHasItsReading` | app/api/inventory_orders_vision_routes.py:148-155 | the score is the usable reading, as a fraction or a percentage, within zero and one, and else 0.8 |
| `VisionDedupe.ReviewWrites` | app/api/inventory_orders_vision_routes.py:158-163 | trust below 0.7, below 0.85 and from there on, the request for review, the key and the count; no other field changes |
| `VisionDedupe.EachItemJoinsTheFirstMatch` | app/api/inventory_orders_vision_routes.py:280-293 | each detection joins the first cluster whose representative at that time is one marker with it, or opens a new one |
| `VisionDedupe.ClustersAreOk` | app/api/inventory_orders_vision_routes.py:280-299 | after any list of detections the clusters partition it in the order of first members; each representative copies the earliest member of the highest score; a merged quantity is the largest of one and all members |
| `VisionDedupe.OutputPartitionsTheInput` | app/api/inventory_orders_vision_routes.py:276-304 | the same of the output, with the cluster sizes adding up to the length of the input |
| `VisionDedupe.AllSurviveIffNoTwoMatch` | app/api/inventory_orders_vision_routes.py:283-291 | nothing is merged exactly when no two detections are one marker |
| `VisionDedupe.OutputsCanMatch` | app/api/inventory_orders_vision_routes.py:293-299 | three detections whose two outputs are one marker, so that a second pass merges more |
| `VisionDistinct.SettlingOutputsAreDistinct` | app/api/inventory_orders_vision_routes.py:293-304 | no two outputs are one marker if no detection has a higher score than one two or more places before it |
| `VisionDistinct.OutputsAreDistinctIffScoresSettle` | app/api/inventory_orders_vision_routes.py:276-304 | for every list of scores: the outputs are pairwise distinct for all detections with these scores exactly when the scores settle so |
| `VisionDedupe.FindMatch` | app/api/inventory_orders_vision_routes.py:282-286 | the first representative that matches |
| `VisionDedupe.Dedupe` | app/api/inventory_orders_vision_routes.py:276-304 | the loop over detections computes the clustering the lemmas are about |
| `StoreMerge.RowsWithoutIdShareOneKey` | app/api/inventory_orders_vision_routes.py:892-904 | a fact about the loop only, since the query gives no such row: null ids are keyed "None" |
| `StoreMerge.ReadingHasTheFields` | app/api/inventory_orders_vision_routes.py:890-904 | a row is read with its own fields, a missing quantity as zero, under its stripped id or else its product name |
| `StoreMerge.ProductNameHasTheWords` | app/services/product_normalize.py:101-103 | a product name has the words of the stripped, lower-case name, one space apart |
| `StoreMerge.SkippedIffIdAndNameAreBlank` | app/api/inventory_orders_vision_routes.py:904-906 | a readable row is skipped exactly when its id and name are blank |
| `StoreMerge.NothingMergesIffKeysDiffer` | app/api/inventory_orders_vision_routes.py:905-911 | every row gets an item of its own exactly when none is skipped and no two have one key |
| `StoreMerge.RowsOfTheSchemaStayApart` | app/api/inventory_orders_vision_routes.py:871-884 | so it is for the rows of the query, whose ids are a primary key (migrations/versions/006_add_inventory_ledger.py:27-29) |
| `StoreMerge.KeysOccur` | app/api/inventory_orders_vision_routes.py:907-908 | the merged keys are exactly the usable keys of the rows |
| `StoreMerge.KeysAreDistinct` | app/api/inventory_orders_vision_routes.py:907-908 | one entry for each key |
| `StoreMerge.KeysAreInOrder` | app/api/inventory_orders_vision_routes.py:907-908 | the keys are listed in the order in which they first occur |
| `StoreMerge.FirstIsTheEarliest` | app/api/inventory_orders_vision_routes.py:907-908 | the other fields are those of the row with the key that no other precedes |
| `StoreMerge.FirstPriceIsTheEarliest` | app/api/inventory_orders_vision_routes.py:912-913 | the price is the first one that is not null in row order |
| `StoreMerge.MergeRows` | app/api/inventory_orders_vision_routes.py:887-915 | the loop's dictionary has, for each usable key in order of first rows, the first row's fields, the first price and the summed quantity |
| `StoreMerge.MergeConservesTheTotal` | app/api/inventory_orders_vision_routes.py:909-911 | the merged quantities add up to those of all rows with a usable key |
| `StoreMerge.MergeConservesTheRows` | app/api/inventory_orders_vision_routes.py:887-911 | the merged quantities add up to those of the rows themselves, null as zero, of all rows that are not skipped |
| `StoreMerge.ItemHasTheFirstRowsFields` | app/api/inventory_orders_vision_routes.py:907-913 | each merged item has the fields of the first row with its key |
| `StoreMerge.QuantitiesIgnoreTheOrder` | app/api/inventory_orders_vision_routes.py:909-911 | two orders of the same rows give a key the same quantity |
| `StoreMerge.MergesAgree` | app/api/inventory_orders_vision_routes.py:907-911 | and they give the same keys |
| `StoreMerge.MergedItemsReadBack` | app/api/inventory_orders_vision_routes.py:892-904 | a merged item given back as a row is read as itself under its key |
| `StoreMerge.MergeIsIdempotent` | app/api/inventory_orders_vision_routes.py:887-915 | merging the merged items changes neither items nor order |
| `BlueprintReadings.TextIs` | scripts/smoke_neoeats_real_llm.py:190-196 | a falsy value reads as empty, a string as itself and any other value as it prints |
| `BlueprintReadings.IdIsItsOwnOrThePlace` | scripts/smoke_neoeats_real_llm.py:190 | a step without a usable id is named "step_" and the decimal digits of its place |
| `BlueprintReadings.AliasesAre` | scripts/smoke_neoeats_real_llm.py:161-167 | which lower-case names stand for which of the three blocks |
| `BlueprintReadings.NameIsOneOfThree` | scripts/smoke_neoeats_real_llm.py:159-168 | a block, or else a block type, gets the name it stands for, and else its own stripped text |
| `BlueprintReadings.RoleIsTheFirstNamed` | scripts/smoke_neoeats_real_llm.py:203-211 | the role is the first of the three that the block is named by or the id mentions |
| `BlueprintSteps.CanonicalIsIdempotent` | scripts/smoke_neoeats_real_llm.py:159-168 | a canonical block name is its own canonical name |
| `BlueprintSteps.RoleIsKept` | scripts/smoke_neoeats_real_llm.py:203-211 | a step that got its role's block has that role again |
| `BlueprintSteps.FixTwice` | scripts/smoke_neoeats_real_llm.py:190-211 | a fixed step is not changed or reported again |
| `BlueprintReadings.FixWrites` | scripts/smoke_neoeats_real_llm.py:193-211 | which of id, block and inputs the first loop writes, with what and when; no other field changes |
| `BlueprintSteps.FixKeepsUnlessFlaggedOrOverwritten` | scripts/smoke_neoeats_real_llm.py:193-211 | the first loop leaves a step as it is exactly when it reports nothing and the role gives no other block |
| `BlueprintSteps.FixedStepIsSettledIff` | scripts/smoke_neoeats_real_llm.py:191-198 | a second pass reads a fixed step the same way exactly when no blank block hid its `block_type`, and else reports a change |
| `BlueprintRepair.FixSteps` | scripts/smoke_neoeats_real_llm.py:184-211 | the first loop fixes every step, reports whether it fixed any, and finds the last step of each role |
| `BlueprintRepair.IndexById` | scripts/smoke_neoeats_real_llm.py:214-218 | the table of steps by id, without blank ids; of several steps with one id the last |
| `BlueprintRepair.Repair` | scripts/smoke_neoeats_real_llm.py:171-262 | the whole repair computes the blueprint and the flag the lemmas are about |
| `BlueprintReadings.RepairWritesTheVersion` | scripts/smoke_neoeats_real_llm.py:174-182 | the version reads "v1" afterwards and counts as a change if it did not; a blueprint whose steps are no list keeps them |
| `BlueprintRepair.FillKeepsAllIffNothingLacks` | scripts/smoke_neoeats_real_llm.py:222-254 | adding a role's inputs changes nothing exactly when none is missing |
| `BlueprintReadings.NormalizingStepGets` | scripts/smoke_neoeats_real_llm.py:220-236 | the normalizing step gets ingredients, from a pantry that says where it comes from or else from the payload, user and constraints where they are missing, and nothing else |
| `BlueprintReadings.GeneratingStepGets` | scripts/smoke_neoeats_real_llm.py:238-243 | the generating step gets a reference to what the normalizing step normalized, if it has none |
| `BlueprintReadings.ValidatingStepGets` | scripts/smoke_neoeats_real_llm.py:245-254 | the validating step gets references to the recipe and to the normalized constraints, where they are missing |
| `BlueprintStepwise.RebuiltIsFilled` | scripts/smoke_neoeats_real_llm.py:257-260 | with distinct ids and named roles, rebuilding through the table fills each role's step and leaves every other one, also one with a blank id |
| `BlueprintStepwise.RepairIsStepwise` | scripts/smoke_neoeats_real_llm.py:184-260 | if with all three roles there no ids are shared and no role's id is blank, the repair acts step by step, and its flag says whether some step was fixed or lacked an input |
| `BlueprintStepwise.StepsWithOneIdBecomeOne` | scripts/smoke_neoeats_real_llm.py:214-260 | when all roles are there, steps with one id become the same step |
| `BlueprintStepwise.BlankIdLosesTheStep` | scripts/smoke_neoeats_real_llm.py:220-260 | a role's step with a blank id is replaced by one without an id |
| `BlueprintGeneral.RepairIsByHeirs` | scripts/smoke_neoeats_real_llm.py:184-260 | for all blueprints with all roles every step becomes the last one with its id, filled for the roles of that id; only a blank id that is no role's keeps its step |
| `BlueprintGeneral.FlagSaysWhetherHeirsAreComplete` | scripts/smoke_neoeats_real_llm.py:223-251 | for all blueprints the flag is set exactly when a step was fixed or what stands for a role's id lacks an input |
| `BlueprintGeneral.StepsStayIff` | scripts/smoke_neoeats_real_llm.py:184-260 | for all blueprints the steps come back as they were exactly when nothing is reported or overwritten and steps that share an id are equal |
| `BlueprintTwice.RepairIsIdempotentIff` | scripts/smoke_neoeats_real_llm.py:171-262 | for all blueprints: a second repair returns the same blueprint and reports no change exactly when no step that is left hides a type behind a blank block and, with all roles there, no role's id is blank and no step that takes a role over from another one with its id lacks an input of it |
| `BlueprintTwice.RepairOfDistinctIdsIsIdempotentIff` | scripts/smoke_neoeats_real_llm.py:171-262 | for distinct ids that is: no blank block hides a type and no role's id is blank |
| `BlueprintTwice.SecondRepairCanChange` | scripts/smoke_neoeats_real_llm.py:191-198 | a blueprint of one step that a second repair changes |
| `BlueprintProperties.RepairKeepsSteps` | scripts/smoke_neoeats_real_llm.py:184-260 | for all blueprints: number, order and kinds of the steps and entries that are no dictionaries are kept; unless, with all three roles there, ids are shared or a role's id is blank, so are all other fields and all inputs that were there |
| `BlueprintProperties.StepsAreKeptIff` | scripts/smoke_neoeats_real_llm.py:184-260 | for all blueprints: they are kept exactly when, with all roles there, the last step with each id has the other fields and, filled, the inputs of every step with that id, and a role's blank id had none |
| `BlueprintProperties.AddedReferencesNameStepsThatExist` | scripts/smoke_neoeats_real_llm.py:238-254 | if all roles are there, no ids are shared and no role's id is blank: the added references name ids of steps of the repaired blueprint that have the blocks of their roles |
| `BlueprintProperties.StepsReferToRoleIds` | scripts/smoke_neoeats_real_llm.py:220-254 | for all blueprints with all roles: the steps with the generating and the validating id have their inputs, which the last step with that id had or which name the ids of the other roles |
| `BlueprintProperties.RoleIdsSurviveIffNamed` | scripts/smoke_neoeats_real_llm.py:213-260 | for all blueprints with all roles: the repaired blueprint has a step with a role's id exactly when that is not blank |
| `BlueprintProperties.UnchangedIffReportedAndNotOverwritten` | scripts/smoke_neoeats_real_llm.py:171-262 | for all blueprints: it comes back as it was exactly when no change is reported, no role gave a step another block and, with all roles there, steps that share an id are equal |
| `BlueprintProperties.ChangeCanBeSilent` | scripts/smoke_neoeats_real_llm.py:203-205 | a blueprint of one step that is changed without a report |
| `BlueprintLoss.LossCanBeSilent` | scripts/smoke_neoeats_real_llm.py:214-260 | five complete steps, two with one id: the first of these is replaced by the other and no change is reported |
| `ReplayCache.AcceptingUnseenKeepsFarApart` | app/agent_sandbox_worker.py:42-52 | accepting an id that is not remembered keeps equal ids more than the capacity apart |
| `ReplayCache.FarApartIffWindowsAreDistinct` | app/agent_sandbox_worker.py:42-52 | that is the same as: any capacity plus one consecutive acceptances are of different ids |
| `ReplayCache.Worker.CacheIsBounded` | app/agent_sandbox_worker.py:48-51 | the remembered ids are distinct and at most the capacity |
| `ReplayCache.Worker.EvictOldest` | app/agent_sandbox_worker.py:48-51 | the loop keeps the newest ids up to the capacity, in the list and in the set |
| `ReplayCache.Worker.TrackRpcId` | app/agent_sandbox_worker.py:42-52 | a replay exactly when the id is one of the last accepted ones, up to the capacity; else it is accepted |
| `ReplayCache.Worker.ProcessJob` | app/agent_sandbox_worker.py:109-179 | under the id "unknown" when there is none: replay, allowlist, token in this order, each refusal exactly when its check is the first to fail; the tool runs exactly when the call passes all three, and refused calls still use up their id unless replayed |
| `ReplayCache.Worker.NoToolRunsTwiceWithinTheWindow` | app/agent_sandbox_worker.py:109-179 | two executions for one id have at least the capacity of other ids accepted in between |
| `AuditLog.SortPermutes` | app/key_management.py:141-142 | the sort keeps every event |
| `AuditLog.SortIsDescending` | app/key_management.py:141-142 | the sort is newest first |
| `AuditLog.SortIsStable` | app/key_management.py:141-142 | events of one time keep their order |
| `AuditLog.CutsAgree` | app/key_management.py:103-144 | cutting each table and then the union keeps as many as cutting the union once, for negative limits too |
| `AuditLog.CutIsFullIff` | app/key_management.py:103-144 | the log holds as many events as the limit allows exactly when the limit is not negative or there are none |
| `AuditLog.LimitsAre` | app/key_management.py:103-144 | how many entries each table returns and the log keeps, for every limit |
| `AuditLog.RevocationsAreListed` | app/key_management.py:121-129 | each revocation is listed with what its row says, empty for null, in row order |
| `AuditLog.RotationsAreListed` | app/key_management.py:131-139 | the same for rotations |
| `AuditLog.NegativeLimitDropsTheOnlyEvent` | app/key_management.py:103-144 | with limit -1 the tables return the only event and the log is empty |
| `AuditLog.MergedNewest` | app/key_management.py:119-144 | the newest of each table, merged and cut, are the newest of both tables |
| `AuditLog.GetKeyAuditLog` | app/key_management.py:97-144 | the log is sorted newest first, no omitted event of either table is newer than one it shows, and its length for every limit; it has as many entries as the limit allows exactly when the limit is not negative or there are no events |
| `Metrics.Observe` | app/api/metrics.py:58-60 | every bucket goes on counting the observations at or below its bound |
| `Metrics.AtMostCounts` | app/api/metrics.py:58-60 | that is the number of recorded observations that are not above the bound |
| `Metrics.StoredBucketsAreCumulative` | app/api/metrics.py:58-60 | stored buckets grow with their bounds and never exceed the number of observations |
| `Metrics.Export` | app/api/metrics.py:96-101 | bucket k is exported as the sum of the stored buckets 0 to k |
| `Metrics.ExportedBucketIsRightIffEarlierAreEmpty` | app/api/metrics.py:98-101 | that is the number of observations at or below the bound exactly when all earlier buckets are empty |
| `Metrics.ExportIsRightIffOnlyLastBucketFills` | app/api/metrics.py:96-119 | the whole export is right exactly when no observation fits the last bucket but one |
| `Metrics.MetricsStore.RecordHttpRequest` | app/api/metrics.py:51-60 | count, sum, status counts and buckets go on describing exactly the requests recorded so far |
| `Metrics.MetricsStore.RecordLlmGeneration` | app/api/metrics.py:62-71 | the same for generations |
| `Metrics.MetricsStore.BucketLines` | app/api/metrics.py:96-119 | the exported lines, and when each is right, after any run of recordings |
| `RetryBackoff.EditImage` | app/ai_adapters.py:83-163 | posts, seconds slept and result for every sequence of outcomes and every limit |
| `RetryBackoff.EditImageIsDetermined` | app/ai_adapters.py:83-163 | that contract covers every sequence of outcomes, in one way |
| `RetryBackoff.BatchEditImages` | app/ai_adapters.py:192-215 | all variants in order, or the final error of the first variant that brings no image, with at most variants times limit posts |

## Left out

- HTTP, WebSocket, SQL and Redis transport, JSON decoding, logging and authentication: only the effect of each statement on a store is kept.
- The WebSocket consumers of app/core/realtime/ws_consumers.py, which use the same two Redis keys as confirm and cancel.
- What an action does when it is resumed or executed, image editing and downloads: their outcomes are arbitrary.
- `decide_policy`, rate limits and system mode: any plan, and any refusal before the INSERT, is possible.
- Several API processes: between two awaits a request is not interrupted by another request, as in one event loop.
- JobInvariant.EventKeepsInv: other code that inserts job rows while the server runs (app/api/job_queue.py:136, app/api/path.py:320); rows without a creator are there from the start only.
- JobMachine.WorkStepKeepsOk: an error of the database itself, at any statement of a worker or a request.
- What the path worker does to learning nodes, and the events table of a job.
- JobMachine.LocalStepKeepsOk: an error of `bump_usage` or of a push is assumed to have had no effect.
- JobService.JobService.Actions: only the execution may fail in the sequential method; faults of the other calls are steps of the machine.
- Rounding: credits, coordinates, scores and durations are reals.
- CreditLedger.PhotoBilling.DebitUserCredits: two operations on one user do not overlap at their awaits.
- Text beyond ASCII in `lower` and `strip`.
- VisionDedupe.Dedupe: the identity key is taken as given.
- StoreMerge.MergeRows: the query, the validation of `StoreItem` beyond conversions that fail, and the final sort by name.
- BlueprintRepair.Repair: the order of the fields of a dictionary; how `str` prints lists, objects and numbers is a parameter.
- BlueprintProperties.AddedReferencesNameStepsThatExist: the blocks of the steps referred to, when steps share an id; `BlueprintProperties.StepsReferToRoleIds` and `BlueprintProperties.RoleIdsSurviveIffNamed` say what holds then.
- AuditLog.GetKeyAuditLog: the two queries are assumed to return the newest rows of the user; timestamps are numbers.
- The gauges and the text of the metrics export.
- RetryBackoff.EditImage: the cost estimate and the choice of model.
- The summaries that scripts/parse_grid.py prints before and after the item distances.
