# Formal model of ROVIQ Core

ROVIQ Core coordinates vehicle service cases between customers, shops, suppliers, tow and mobility
providers. This Dafny project models its state machines over shared tables and proves what every
run of them keeps. A table is a map or a sequence of records, a committed transaction is one atomic
step, `now()` is one clock that never goes back, and a fresh identifier is a number not used before.

Each component has the same shape. A module of values states one step as `Next` and a history of
steps as `Run`; a proof module shows an invariant of every step and the results about all runs; a
class in a module of its own carries the tables as fields and changes them with the source's loops,
each method proved against `Next`. Beside these, one module per component says what the steps do
without naming the functions that compute them: who is admitted, when a claim or a hold is granted,
what an answer decides, what a score is made of.

| component | modules |
|---|---|
| parts stock, orders and field service | `PartsStock`, `PartsProofs`, `PartsEligibility`, `PartsLifecycle`, `PartsStore`, `PartsSourcing` |
| lease-fenced analysis queue | `AnalysisQueue`, `AnalysisProofs`, `AnalysisPacing`, `AnalysisWorker` |
| constraint projection | `Constraints`, `ConstraintsProofs`, `ConstraintsMeaning` |
| fulfilment plans, handoffs, completion gate | `Fulfilment`, `FulfilmentProofs`, `FulfilmentEffects`, `CaseFile` |
| canonical JSON and idempotent execution | `StableJson`, `StableJsonProofs`, `Idempotency`, `IdempotencyScopes`, `IdempotencyTable` |
| coordination ranking | `Sorting`, `Ranking`, `RankingProofs`, `RankingScores`, `RankingEngine` |
| timed capacity holds | `Capacity`, `CapacityGrants`, `CapacityDesk` |
| loaner allocation | `Mobility`, `MobilityDesk` |
| open-job board and standing | `Standing`, `OpenJobs`, `OpenJobBoard` |
| OBD decoding | `TroubleCodes`, `ObdScan`, `ObdScanProofs`, `ObdReadings`, `ObdReader` |
| notification outbox, both drivers | `Outbox`, `OutboxProofs`, `OutboxDelivery`, `OutboxDesk` |

`dafny verify dfyconfig.toml` checks everything.

## Findings

- Idempotent execution is at-most-once exactly when the business function works through the
  transaction it is given (`Idempotency.AtMostOnceIffJoining`). Some callers do not: the callbacks at
  `src/http/routes/parts.ts:20` and `src/http/routes/transport.ts:78` open transactions of their own.
- A delivery of parts can fail its mismatch guard only after a supplier re-declared stock below what
  is promised (`PartsProofs.MismatchIsReachable`); `PartsProofs.DeliveryCondition` is the exact condition.
  A field-service completion on such a row is not refused: it takes the shelf to zero, so less leaves
  the shelf than was used (`PartsProofs.FieldClampCondition`).
- The outbox is safe without any timing assumption, because attempts are unique by notification and
  number. The price is one crash window: a worker that dies after recording an attempt and before
  writing the row leaves a notification that is never sent and never dies, and that stops every batch
  in which it comes first (`OutboxProofs.StrandedForever`, `OutboxProofs.StrandedHeadBlocksBatch`).
- The two outbox drivers differ on an adapter that throws and on empty or missing texts. They would also
  differ on a limit of zero, but nothing in the repository writes one: the column defaults to five and a requeue only
  raises it, so in every run they agree on the schedule (`OutboxProofs.DriversAgreeInRuns`).
- A review of an assessment reads and writes in separate statements and does not look again before it
  writes: of two people who read the same open assessment, the later one turns an accepted verdict into
  a rejected one (`AnalysisProofs.VerdictCanTurn`). `AnalysisProofs.VerdictStaysIffNoRival` is the exact
  condition for a verdict to stay.
- An empty idempotency key protects nothing, like a missing one (`Idempotency.UnprotectedRunsAgain`).
- The open-job board may show a listing that nobody can have: when the case has moved on or has another
  offer, claiming it only withdraws it (`OpenJobs.OvertakenIsStillListed`).
- A person's waiver of a projected constraint is overwritten by the next refresh while the operating
  table has live rows (`ConstraintsProofs.WaiverOverwritten`); a person's row under the key of a layer
  without rows is kept and can block completion (`ConstraintsProofs.ClearAfterSyncIff`).
- A loaner's projection is satisfied from reservation on, but its handoff blocks completion until the
  loaner has come back (`FulfilmentProofs.MobilityClearsGateIffReturned`).
- Declined and failed loaner allocations keep naming a resource that somebody else may have out.

## Model

| member | source | states |
|---|---|---|
| `PartsEligibility.CandidateIffServable` | src/services/parts.ts:158-187 | The query returns a supplier if and only if the order has items and the reservation loop could serve every item from the supplier's stock with one row per SKU; a row with exactly the quantity wanted is enough |
| `PartsEligibility.SingleLineCandidates` | src/services/parts.ts:158-187 | For one item: exactly the suppliers with an active row of its SKU whose on-hand less reserved is at least its quantity |
| `PartsProofs.EligibleNeverStuck` | src/services/parts.ts:245-279 | The reservation loop never gets stuck on stock that made the supplier a candidate: after any sufficient picks for the first items, some row suffices for the next one, even when items share a SKU |
| `PartsProofs.CoverLasts` | src/services/parts.ts:245-279 | Whatever sufficient rows the loop picked so far, a row that covered the whole demand for a SKU still covers what is left of it |
| `PartsProofs.OldestExists` | src/services/parts.ts:245-279 | Whenever a sufficient row exists, the least recently updated sufficient row exists |
| `PartsProofs.ReservedEqualsHeld` | src/services/parts.ts:245-367 | In every run of orders and field service each row's reserved count is the summed quantity of the reserved, ordered and shipped order items and of the field-service decisions in progress that point at it |
| `PartsProofs.StepKeepsInv` | src/services/parts.ts:71-399 | Every transaction of both services keeps reserved equal to held, orders and decisions consistent with their items, and all rows |
| `PartsProofs.RunKeepsInv` | src/services/parts.ts:71-399 | Every run of transactions keeps that invariant |
| `PartsProofs.ClampNeverFires` | src/services/parts.ts:281-367 | On cancelling or failing any reachable order, each item is released from a row that has at least its quantity reserved, so the lower clamp never matters |
| `PartsProofs.DeliveryCondition` | src/services/parts.ts:281-367 | A delivery passes its mismatch guard if and only if every row still has on hand what the order holds on it |
| `PartsProofs.DeliveryNeverMismatches` | src/services/parts.ts:281-367 | In a run without a re-declaration of stock no delivery ever hits the mismatch guard |
| `PartsProofs.RedeclarationCanMismatch` | src/services/parts.ts:386-399 | Re-declaring a row below what a live order holds on it makes that order's delivery fail and change nothing |
| `PartsProofs.MismatchIsReachable` | src/services/parts.ts:386-399 | From the empty tables: declare, order, assign, reserve, order, re-declare less, and the delivery is refused, for every quantity and every smaller declaration |
| `PartsProofs.FieldClampCondition` | src/http/routes/field-service.ts:304-312 | Completing a decision takes exactly what it held off the reserved count, and off the shelf if and only if the row has that much on hand |
| `PartsProofs.StepKeepsRowCovered` | src/services/parts.ts:245-367 | A row that has on hand what it promised stays so in every step that does not declare it |
| `PartsProofs.RunKeepsCovered` | src/services/parts.ts:245-399 | Without re-declaration, reserved never exceeds on hand on any row, field service included |
| `PartsProofs.StepConservesStock` | src/services/parts.ts:245-367 | One transaction keeps on-hand plus taken, by delivery or field service, of every row it does not declare, provided a completed decision is backed by stock on hand |
| `PartsProofs.StockConserved` | src/services/parts.ts:245-367 | Over any run that does not declare a row, its on-hand falls by exactly what was delivered from it and used up by field service, if the row backs its promises at the start or no decision is completed |
| `PartsLifecycle.MarkEffect` | src/services/parts.ts:281-367 | A status change happens exactly along the nine allowed moves, deliveries only with the stock for them; it moves the order and its open items and no other order |
| `PartsLifecycle.AssignEffect` | src/services/parts.ts:113-149 | A supplier is set exactly on requested, assigned and failed orders; reserving needs a supplier and one of the first two statuses |
| `PartsLifecycle.ItemsFollowOrder` | src/services/parts.ts:245-367 | In every run, from reservation on, all items of an order have the order's own status |
| `PartsLifecycle.EndedForever` | src/services/parts.ts:113-367 | A delivered or cancelled order is the same after every run |
| `PartsLifecycle.PickIsOldest` | src/services/parts.ts:256-261 | Each row taken was updated no later than any other row that had enough when it was taken |
| `PartsLifecycle.UntouchedRowsGoFirst` | src/services/parts.ts:255-262 | An order goes back to a row it took from only when every row with enough that it has not touched was updated at that very moment |
| `PartsLifecycle.DeclareEffect` | src/services/parts.ts:386-399 | A declaration sets the row's on-hand, makes it active, and leaves its reservations and every other row alone |
| `PartsLifecycle.DeclaredOnce` | src/services/parts.ts:245-399 | In every run after a single declaration a row has on hand the declared quantity less everything delivered from it and used up since |
| `PartsStore.Store.CreatePartsOrder` | src/services/parts.ts:71-111 | Appends one requested order, its items in order and unreserved, and changes nothing else |
| `PartsStore.Store.AssignSupplier` | src/services/parts.ts:113-149 | Assigns exactly the orders that are requested, assigned or failed |
| `PartsStore.Store.ReserveOrderInventory` | src/services/parts.ts:245-279 | Reserves every item from the oldest sufficient row or changes nothing and names the error; lack of stock is reported exactly for an item that no row of the supplier had enough of after the rows taken before, never for an eligible supplier |
| `PartsStore.Store.TakeItems` | src/services/parts.ts:245-279 | The reservation loop: oldest sufficient rows for all items, or the stock as it was and the first item for which no row had enough |
| `PartsStore.Store.MarkPartsOrderStatus` | src/services/parts.ts:281-367 | Makes the allowed transition with its stock effect, or names the error and changes nothing |
| `PartsStore.Store.ReleaseItems` | src/services/parts.ts:281-367 | The release loop gives back, item by item, what the items hold |
| `PartsStore.Store.DeliverItems` | src/services/parts.ts:281-367 | The delivery loop takes everything off both counters, or restores the stock at a short row |
| `PartsStore.Store.UpsertInventory` | src/services/parts.ts:386-399 | Sets on-hand and leaves the reserved count alone |
| `PartsStore.Store.StartFieldService` | src/http/routes/field-service.ts:233-266 | Reserves every required part from a sufficient row of the supplier, or changes nothing |
| `PartsStore.Store.TakeAnyItems` | src/http/routes/field-service.ts:247-256 | The start's loop: sufficient rows for all parts, or the stock as it was |
| `PartsStore.Store.CompleteFieldService` | src/http/routes/field-service.ts:297-318 | Ends exactly decisions in progress, using up their parts or giving them back |
| `PartsStore.Store.UseUp` | src/http/routes/field-service.ts:305-312 | The completion's loop lowers both counters part by part, neither below zero |
| `PartsSourcing.RecommendedIsEligible` | src/services/parts.ts:190-243 | Whatever the ranking policy, the recommended supplier covers the whole order |
| `PartsSourcing.AutoAssignAndReserve` | src/services/parts.ts:190-279 | Assigning the recommendation and reserving on the same stock always ends reserved, unless there is no candidate |
| `AnalysisProofs.TokenWritesOnce` | cloudflare/obd-analysis.js:61-135 | In every interleaving each lease token lands at most one write |
| `AnalysisProofs.PublishUnderLiveLease` | cloudflare/obd-analysis.js:93-135 | A published result was written under the job's most recent claim, before that claim's lease ran out |
| `AnalysisProofs.ResultMatchesAssessment` | cloudflare/obd-analysis.js:93-135 | A stored result always equals the content of the event's single assessment, which no other job shares |
| `AnalysisProofs.SavesBounded` | cloudflare/obd-analysis.js:107-133 | A job makes at most four saves that ask for a retry and at most five saves in all |
| `AnalysisProofs.SettledStays` | cloudflare/obd-analysis.js:61-77 | A completed, blocked or reviewed job is not claimable and no step changes it |
| `AnalysisProofs.SettledForever` | cloudflare/obd-analysis.js:61-151 | A settled job is the same after every run |
| `AnalysisProofs.DecidedNeverOverwritten` | cloudflare/obd-analysis.js:93-135 | An assessment that left the proposed state keeps its content in every run and is never proposed again |
| `AnalysisProofs.VerdictStaysIffNoRival` | src/services/triage.ts:30-44 | An accepted or rejected assessment keeps its verdict in every run if and only if no review that read it as open is still to write another verdict |
| `AnalysisProofs.ReviewsRace` | src/services/triage.ts:32-40 | Of two people who read the same open assessment the later write turns the earlier verdict around |
| `AnalysisProofs.VerdictCanTurn` | src/services/triage.ts:32-40 | A run from the empty tables in which an accepted assessment becomes rejected |
| `AnalysisProofs.RoundProgress` | cloudflare/obd-analysis.js:61-135 | A claim followed by a save settles the job or uses up one attempt |
| `AnalysisProofs.FiveRoundsSettle` | cloudflare/obd-analysis.js:61-135 | From any reachable state five uninterrupted rounds settle a job whatever the analyses answer |
| `AnalysisProofs.RunKeepsInv` | cloudflare/obd-analysis.js:61-172 | Every interleaving keeps the fencing invariant |
| `AnalysisPacing.ClaimTakesExactly` | cloudflare/obd-analysis.js:61-77 | A claim takes a job if and only if it is waiting and due or its lease has run out, and nobody has decided its assessment; it then runs for two minutes under a new token with one more attempt |
| `AnalysisPacing.RunningLeaseIsSafe` | cloudflare/obd-analysis.js:61-77 | While a lease runs, no claim touches the job |
| `AnalysisPacing.LeasesNeverOverlap` | cloudflare/obd-analysis.js:61-77 | Over every run, two claims of one job without a write between them are at least a whole lease apart |
| `AnalysisPacing.RetryWaitsForBackoff` | cloudflare/obd-analysis.js:107-117 | Over every run, the claim after a save that asked for a retry comes no earlier than the back-off for the number of claims so far |
| `AnalysisPacing.BackoffDoubles` | cloudflare/obd-analysis.js:109 | The back-off starts at 30 seconds, doubles with every claim, and stops at an hour |
| `AnalysisPacing.OutcomeFitsReport` | cloudflare/obd-analysis.js:107-116 | In every run a job completed by the model stores the model's report, one completed by the fallback a fallback report after five claims or more, and one waiting for a retry a fallback report after fewer |
| `AnalysisPacing.SaveWritesExactly` | cloudflare/obd-analysis.js:107-134 | A save lands if and only if the token is on the row, its lease is running and nobody has decided; it sets the state by model and attempt, the next time, the result and the assessment, and frees the row |
| `AnalysisPacing.BlockWritesExactly` | cloudflare/obd-analysis.js:95-106 | A block lands if and only if the token is on the row, keeps no result, and touches no assessment |
| `AnalysisPacing.SweepClosesExactly` | cloudflare/obd-analysis.js:137-140 | A sweep closes exactly the unfinished jobs without a running lease whose assessment a person decided |
| `AnalysisPacing.ReviewWritesExactly` | src/services/triage.ts:30-44 | A review begins exactly on a proposed or looked-at assessment, and its write sets that verdict alone |
| `AnalysisWorker.Queue.RequestAnalysis` | cloudflare/obd-analysis.js:153-172 | Enqueues an event once |
| `AnalysisWorker.Queue.ClaimObdJob` | cloudflare/obd-analysis.js:61-77 | Claims, among the jobs that are due or whose lease has run out and that nobody decided, the one available longest, for two minutes and one more attempt; claims nothing exactly when there is none |
| `AnalysisWorker.Queue.BlockObdJob` | cloudflare/obd-analysis.js:93-135 | Lands exactly for the token holder, even after the lease ran out |
| `AnalysisWorker.Queue.SaveObdResult` | cloudflare/obd-analysis.js:93-135 | Writes job and assessment together exactly when token, lease and review allow it, and nothing otherwise |
| `AnalysisWorker.Queue.StartObdJob` | cloudflare/obd-analysis.js:93-99 | Blocks a scan that is not permitted before it is analysed |
| `AnalysisWorker.Queue.FinishObdJob` | cloudflare/obd-analysis.js:101-134 | Whatever happened to the job since its start, publishes exactly what is still permitted, owned, in time and undecided, and blocks what is no longer permitted |
| `AnalysisWorker.Queue.SweepReviewed` | cloudflare/obd-analysis.js:137-151 | Closes exactly the idle jobs whose assessment a person decided |
| `AnalysisWorker.Queue.ReadForReview` | src/services/triage.ts:32-36 | Lets a review go on exactly while the assessment is open, and writes nothing |
| `AnalysisWorker.Queue.WriteReview` | src/services/triage.ts:37-40 | Writes the verdict by identifier alone, whatever the row says by then |
| `ConstraintsProofs.DerivedIffReady` | src/services/case-constraint-projection.ts:45-114 | A layer derives nothing exactly when it has no row that counts, and nothing or "satisfied" exactly when the layer is ready in closed form |
| `ConstraintsProofs.SyncMembers` | src/services/case-constraint-projection.ts:12-19 | The refreshed table holds exactly one derived row per layer with live rows, and of the old rows those no refresh touches |
| `ConstraintsProofs.UpsertMembers` | src/services/case-constraint-projection.ts:255-271 | An upsert replaces the one row under its key, whoever owned it, and keeps all others |
| `ConstraintsProofs.DeleteMembers` | src/services/case-constraint-projection.ts:273-278 | A deletion removes only an operational row under its key |
| `ConstraintsProofs.ClearAfterSyncIff` | src/services/case-constraint-projection.ts:12-19 | A refreshed table is all satisfied or waived if and only if every layer is ready and every lasting row is satisfied or waived |
| `ConstraintsProofs.StalenessIrrelevant` | src/services/case-constraint-projection.ts:12-19 | Tables that agree on lasting rows refresh to the same rows, however stale the rest was |
| `ConstraintsProofs.WaiverOverwritten` | src/services/case-constraint-projection.ts:255-271 | A waiver on a projected row with live source rows does not survive the refresh |
| `ConstraintsProofs.DerivedNeverWaives` | src/services/case-constraint-projection.ts:45-114 | No derivation yields a waiver |
| `ConstraintsProofs.SyncSettles` | src/services/case-constraint-projection.ts:12-19 | Refreshing twice at one instant equals refreshing once |
| `ConstraintsMeaning.DerivedStatus` | src/services/case-constraint-projection.ts:45-253 | Every derived status told from the operating rows: nothing without a row that counts, then blocked, unknown, satisfied or required, each by a closed condition per layer |
| `ConstraintsMeaning.MissedTimeIsRequired` | src/services/case-constraint-projection.ts:62-76 | A passed or missed appointment has to be made again: it is required, not blocked |
| `ConstraintsMeaning.ApprovalsThatCount` | src/services/case-constraint-projection.ts:174-192 | Approvals derive something if and only if one is not outdated, and are satisfied if and only if every such one is approved |
| `FulfilmentProofs.AcceptedPlanMeaning` | src/services/network-execution.ts:247-342 | In every run an accepted plan has no decliner and no mark for recovery, and its selected actor is a candidate who accepted |
| `FulfilmentProofs.OnlyNewestVersionOpen` | src/services/fulfillment-planner.ts:78-99 | In every run only the newest version of a case's plans is feasible or blocked |
| `FulfilmentProofs.RecoveryIsPermanent` | src/services/network-execution.ts:214-388 | A plan once marked for recovery keeps the first time of its mark and is never accepted or completed |
| `FulfilmentProofs.MarkedByDeclineOrFailure` | src/services/network-execution.ts:276-388 | A step marks the newest plan if and only if a candidate declines or a handoff is declined or failed, and the plan is not closed |
| `FulfilmentProofs.RecoveryNeedsNewPlan` | src/services/orchestration.ts:113-123 | Once the newest plan is marked, no run without a new plan completes the case |
| `FulfilmentProofs.CompletesIffGate` | src/services/orchestration.ts:79-145 | A step completes a case if and only if an admin asks, payment is due, every layer is ready, lasting constraints and considered handoffs are settled, and the newest plan, if any, is accepted |
| `FulfilmentProofs.ReadyIffGate` | src/services/network-execution.ts:52-133 | The blockers computed on the refreshed projection are empty exactly when the gate, told from the operating tables, is open |
| `FulfilmentProofs.GateIgnoresProjection` | src/services/orchestration.ts:116-123 | Cases that differ only in rows a refresh replaces complete alike and end with the same rows |
| `FulfilmentProofs.CompletedCaseEvidence` | src/services/network-execution.ts:122-162 | In every run a completed case carries an outcome whose recorded constraints and handoffs are all settled |
| `FulfilmentProofs.RefusedChangesNothing` | src/services/orchestration.ts:79-170 | A refused transition leaves the case, its plans and its projection as they were |
| `FulfilmentProofs.EndedForever` | src/services/orchestration.ts:97-112 | Completed and cancelled cases keep their state and outcome in every run |
| `FulfilmentProofs.FinishedProviderWork` | src/services/network-execution.ts:81-93 | When payment falls due, a provider handoff still blocks exactly if it was planned, declined or failed; other handoffs are untouched |
| `FulfilmentProofs.FailedTransportBlocksTwice` | src/services/network-execution.ts:10-19 | A declined or failed transport blocks through its projection too |
| `FulfilmentProofs.TransportClearsGateIffDelivered` | src/services/network-execution.ts:10-19 | A live transport clears both tests of the gate exactly when delivered to a known destination |
| `FulfilmentProofs.MobilityClearsGateIffReturned` | src/services/network-execution.ts:21-30 | A live loaner clears both tests exactly when completed |
| `FulfilmentProofs.RunKeepsInv` | src/services/network-execution.ts:122-388 | Every run keeps plans, handoffs, projection keys and outcomes in order |
| `FulfilmentEffects.AcceptanceDecides` | src/services/network-execution.ts:247-342 | When a candidate accepts the newest unclosed plan, the plan is accepted if and only if it was never marked for recovery and every constraint row is satisfied or waived, otherwise blocked; the candidate is selected and nobody else is still asked |
| `FulfilmentEffects.DeclineBlocks` | src/services/network-execution.ts:276-342 | When a candidate declines it, the plan is blocked and marked from the first such time, and the candidate is not selected |
| `FulfilmentEffects.StrangersAreIgnored` | src/services/network-execution.ts:276-300 | The answer of an actor who is no candidate changes nothing |
| `FulfilmentEffects.GoodHandoffDecides` | src/services/network-execution.ts:247-274 | A handoff that is not declined or failed re-decides an accepted-by-somebody plan by the same condition, for the last candidate who accepted, and leaves other plans alone |
| `FulfilmentEffects.BadHandoffBlocks` | src/services/network-execution.ts:214-244 | A declined or failed handoff blocks the newest unclosed plan and marks it from the first such time |
| `FulfilmentEffects.HandoffIsRecorded` | src/services/network-execution.ts:344-388 | The row under the handoff's key takes the status and keeps its plan or joins the newest; without a row one is added; other rows stay |
| `FulfilmentEffects.GenerationPlans` | src/services/fulfillment-planner.ts:43-118 | A new plan is feasible if and only if it has a candidate and nothing obstructs the case; candidates are ranked in order and asked, and open plans are superseded |
| `FulfilmentEffects.PartsHandoffMeaning` | src/services/network-execution.ts:32-39 | An order's handoff is settled exactly when the order is delivered or cancelled and failed exactly when it failed |
| `FulfilmentEffects.CancellationEndsCase` | src/services/network-execution.ts:165-212 | Cancelling, for admins and customers of a case that is not completed, makes its newest plan cancelled unless completed, ends its open appointments and records rows and plan |
| `FulfilmentEffects.CancellationEvidence` | src/services/network-execution.ts:165-212 | The recorded handoffs of a cancelled case are exactly those of its newest plan |
| `FulfilmentEffects.CompletionEndsCase` | src/services/network-execution.ts:122-162 | Through the open gate the newest plan becomes completed and the outcome keeps rows, plan and considered handoffs |
| `FulfilmentEffects.MovesByTable` | src/services/orchestration.ts:79-112 | A transition to an unended state succeeds exactly by the role table, written out, or for a transport that starts its tow |
| `FulfilmentEffects.CompletedWasRepairedAndPaid` | src/services/orchestration.ts:79-145 | In every run a completed case has been in repair and then waiting for payment |
| `CaseFile.Case.PartsStatus` | src/services/case-constraint-projection.ts:45-50 | The counting loop yields the derived status |
| `CaseFile.Case.SyncOperationalConstraints` | src/services/case-constraint-projection.ts:12-253 | Refreshes the six projections in order and changes nothing else |
| `CaseFile.Case.GenerateFulfillmentPlan` | src/services/fulfillment-planner.ts:43-118 | Supersedes the open plans and inserts the next version with ranked candidates, or changes nothing when an actor is repeated |
| `CaseFile.Case.SyncParticipantDecision` | src/services/network-execution.ts:276-342 | Applies a candidate's answer to the latest plan, or nothing; FulfilmentEffects.AcceptanceDecides and DeclineBlocks say what the answer does |
| `CaseFile.Case.UpsertNetworkHandoff` | src/services/network-execution.ts:344-388 | Records the handoff and marks or reconciles the latest plan; FulfilmentEffects.GoodHandoffDecides and BadHandoffBlocks say how |
| `CaseFile.Case.CompletionBlockers` | src/services/network-execution.ts:52-79 | The two loops list exactly the unsettled constraints and handoffs, in order |
| `CaseFile.Case.RecordCompletionOutcome` | src/services/network-execution.ts:122-162 | Records outcome and completed plan exactly when the evaluation is ready |
| `CaseFile.Case.RecordCancellationOutcome` | src/services/network-execution.ts:165-212 | Records the cancellation and cancels the latest plan unless completed |
| `CaseFile.Case.TransitionCase` | src/services/orchestration.ts:79-170 | Makes the transition with all its consequences, or names the error and changes nothing |
| `StableJsonProofs.PrintsSameIffSame` | src/services/idempotency.ts:76-83 | Two JSON values print the same text if and only if they are equal up to the order of object keys |
| `StableJsonProofs.ReadUnique` | src/services/idempotency.ts:76-83 | A printed value at the start of a text determines the value, up to key order, and where it ends |
| `StableJsonProofs.SamePrints` | src/services/idempotency.ts:76-83 | Values equal up to key order print alike |
| `StableJsonProofs.ReorderedIsSame` | src/services/idempotency.ts:76-83 | Reordering an object's fields gives an equal value |
| `StableJsonProofs.QuoteUnique` | src/services/idempotency.ts:76-83 | A quoted string at the start of a text determines the string and its end |
| `StableJsonProofs.AscendingUnique` | src/services/idempotency.ts:76-83 | Sorted key lists with the same keys are equal |
| `IdempotencyScopes.PrintedText` | src/services/idempotency.ts:76-83 | Literals, plain strings and every kind of escape print as JSON text, code unit by code unit |
| `IdempotencyScopes.PrintedObjects` | src/services/idempotency.ts:76-83 | Two members print by ascending key with colons and a comma, whichever order they are written in |
| `Idempotency.ReplayOrRefuse` | src/services/idempotency.ts:23-73 | Within the window of a committed run every call on the key either repeats the request and gets the committed reply or is refused, and the business function does not run |
| `Idempotency.AtMostOnceIffJoining` | src/services/idempotency.ts:23-73 | Effects happen at most once per key and window over all interleavings if and only if the business functions work through the transaction they are handed |
| `Idempotency.OutsideWorkRepeats` | src/http/routes/parts.ts:20 | A function that ignores the transaction, commits and then fails is run again by the retry: two effects in one window |
| `Idempotency.FailureLeavesNothing` | src/services/idempotency.ts:23-73 | A joining function that fails leaves neither an effect nor a key row |
| `Idempotency.ReplayIsOwn` | src/services/idempotency.ts:6-22 | A replayed reply belongs to a call with the same client key |
| `Idempotency.UnprotectedRunsAgain` | src/services/idempotency.ts:13 | Without a key, or with an empty one, a repeated call has its effect again and no key row is written |
| `Idempotency.RunKeepsInv` | src/services/idempotency.ts:23-73 | Every run of joining calls keeps one window per key and rows that match the effects |
| `IdempotencyScopes.FreshKeyRuns` | src/services/idempotency.ts:24-66 | Over every run of joining calls: with no run under its key in the last day, a call runs its business function, once, and stores its reply or leaves nothing |
| `IdempotencyScopes.LongKeysRefused` | src/services/idempotency.ts:13-14 | A key is refused for its length if and only if it has more than 200 characters; a refused call changes nothing |
| `IdempotencyScopes.ScopesApart` | src/services/idempotency.ts:16-19 | Calls share a key row if and only if role, actor, operation and client key agree, when the first three have no bar; the client key may have any |
| `IdempotencyScopes.UnprotectedFailure` | src/services/idempotency.ts:13 | Without a key, what a business function did before failing late stays done |
| `IdempotencyTable.KeyTable.WithIdempotency` | src/services/idempotency.ts:6-74 | Inserts, resets or replays a key row step by step as one call's transition says |
| `RankingProofs.RankIsSortedPermutation` | src/services/coordination-engine.ts:64-98 | The ranking is a permutation of the candidates' rows in comparator order with ranks 1..n |
| `RankingProofs.RankIgnoresInputOrder` | src/services/coordination-engine.ts:64-98 | Every arrangement of the same candidates gives the same ranked list when tie hashes are distinct |
| `RankingProofs.RawBounded` | src/services/coordination-engine.ts:136-169 | The individual boosts sum to between 0 and 0.28 |
| `RankingProofs.AdjustmentBounded` | src/services/coordination-engine.ts:136-169 | For every policy the adjustment lies in [0, maximum] with the maximum at most 0.25 |
| `RankingProofs.BaseScoreDominates` | src/services/coordination-engine.ts:64-112 | A base score above another's raised by the largest adjustment, by one rounding unit or more, always compares ahead |
| `RankingProofs.DominantRanksAhead` | src/services/coordination-engine.ts:64-98 | Such a candidate stands ahead in the ranked list |
| `RankingProofs.FairnessTargetsBelowMean` | src/services/coordination-engine.ts:114-134 | Exactly candidates below the mean capacity get the counterweight, and none is on both sides of the mean |
| `RankingProofs.RecommendationIsCandidate` | src/services/coordination-engine.ts:64-98 | The first of the list is one of the candidates |
| `RankingScores.OneWeight` | src/services/coordination-engine.ts:100-112 | One weight alone gives signal times weight; a present signal overrides the default, a missing one counts as the default, or nothing |
| `RankingScores.ScoresAdd` | src/services/coordination-engine.ts:100-112 | The scores of concatenated weight lists add up |
| `RankingScores.BetterSignalRanksAhead` | src/services/coordination-engine.ts:64-112 | Without coordination, of two ranked candidates that differ in one signal, weighted once, the one whose weighted value is 0.0001 larger or more has the smaller rank |
| `RankingScores.RankedByThreeLevels` | src/services/coordination-engine.ts:90-98 | Ranks count from one, by score, then base score, then tie hash |
| `RankingScores.RankedFigures` | src/services/coordination-engine.ts:64-90 | A ranked row carries its own candidate's rounded base score, adjustment, raised score and hash |
| `RankingScores.RoundIsNearest` | src/services/coordination-engine.ts:64-98 | Rounding is to the nearest 1/10000, a half upwards |
| `RankingScores.DefaultAdjustment` | src/services/coordination-engine.ts:114-169 | Without set boosts: 0.035 for continuity, 0.025 below the mean capacity of at least two, 0.025 for a rating of 4 or punctuality of 0.9, and 0.04 times nearness, at most 0.12 |
| `RankingScores.AdjustmentOfPolicy` | src/services/coordination-engine.ts:136-169 | With set boosts and maximum inside their caps, the same sum with those boosts, cut at that maximum |
| `RankingScores.SoonerIsNearer` | src/services/coordination-engine.ts:171-179 | Of two travel times the shorter is strictly nearer |
| `RankingScores.FnvVectors` | src/services/coordination-engine.ts:185-191 | The hash has the published values of 32-bit FNV-1a |
| `RankingEngine.RankCoordinationCandidates` | src/services/coordination-engine.ts:64-98 | The procedure with its loops computes the ranked list; RankingScores says what moves a candidate up in it |
| `RankingEngine.ScoreWithPolicy` | src/services/coordination-engine.ts:100-112 | The weight loop computes the score; RankingScores.OneWeight and ScoresAdd say what the score is |
| `RankingEngine.DeterministicTie` | src/services/coordination-engine.ts:171-179 | The hash loop computes the specified tie value |
| `RankingEngine.SortRows` | src/services/coordination-engine.ts:64-98 | Sorting by the three-level comparator |
| `Capacity.NeverOversold` | src/services/capacity-reservation.ts:63-121 | At every instant of every run the live units on a window are at most its capacity |
| `Capacity.OneLiveHoldWithinWindow` | src/services/capacity-reservation.ts:63-121 | A case has at most one live hold per window and no hold outlives its window |
| `Capacity.ConfirmNeverRevives` | src/services/capacity-reservation.ts:123-133 | Confirming extends only live holds of the case, to the window's end, and revives none |
| `Capacity.LapsedStaysLapsed` | src/services/capacity-reservation.ts:28-151 | A hold that is not live is never live again |
| `CapacityGrants.GrantedIff` | src/services/capacity-reservation.ts:28-121 | A reservation is granted if and only if the window exists, its resource is active and not stopped, it is open or limited, its synchronisation and connection allow it, the target lies in it, it is not over, and the case holds it already or the units left cover the wanted ones |
| `CapacityGrants.ReservationEffect` | src/services/capacity-reservation.ts:87-121 | A grant adds one hold of the wanted units until half an hour from now or the window's end, whichever is first, unless the case has one, and expires what has run out; a refusal changes nothing |
| `CapacityGrants.ReservationTakes` | src/services/capacity-reservation.ts:106-121 | A new hold takes its units from its window and from no other |
| `CapacityGrants.ConfirmEffect` | src/services/capacity-reservation.ts:123-133 | Confirming extends exactly the live holds of the case whose window is not over, to its end |
| `CapacityGrants.EndingEffect` | src/services/capacity-reservation.ts:135-151 | Releasing and consuming end exactly the held rows of the case, lapsed ones included |
| `CapacityGrants.ReleasedUnitsCanBeBooked` | src/services/capacity-reservation.ts:28-142 | What a case booked and released another case can book at once |
| `CapacityDesk.Desk.ReserveCanonicalCapacity` | src/services/capacity-reservation.ts:28-121 | Grants exactly when the window's rules and the units left allow it, told from the tables, and leaves the case with a live hold |
| `CapacityDesk.Desk.SumLive` | src/services/capacity-reservation.ts:63-121 | The sum of live units of a window |
| `CapacityDesk.Desk.ConfirmCaseCapacity` | src/services/capacity-reservation.ts:123-133 | Live holds of the case last to the end of their windows, every other hold is unchanged, and no window's live units change |
| `CapacityDesk.Desk.ReleaseCaseCapacity` | src/services/capacity-reservation.ts:135-142 | Leaves the case without a held row |
| `CapacityDesk.Desk.ConsumeCaseCapacity` | src/services/capacity-reservation.ts:144-151 | Leaves the case without a held row |
| `Mobility.AssignedIffOneUser` | src/services/mobility.ts:56-137 | In every run a resource is marked assigned if and only if an allocation in use refers to it, and only one does |
| `Mobility.StaleReferencesHappen` | src/services/mobility.ts:64-123 | A declined allocation keeps naming its resource while another allocation has it out |
| `Mobility.AssignEffect` | src/services/mobility.ts:56-97 | An assignment succeeds exactly from requested, reserved, declined and failed, with no resource or an available one of the provider; it sets provider and resource and marks that resource |
| `Mobility.UpdateEffect` | src/services/mobility.ts:99-137 | A move succeeds exactly along fifteen pairs of states; an ending makes the resource available and touches no other |
| `Mobility.ReturnedIsAssignable` | src/services/mobility.ts:64-123 | A resource given back can be assigned to any other waiting allocation |
| `MobilityDesk.Desk.RequestMobility` | src/services/mobility.ts:31-54 | Appends one requested allocation without provider or resource |
| `MobilityDesk.Desk.AssignMobility` | src/services/mobility.ts:56-97 | Assigns exactly when state, owner and availability allow it |
| `MobilityDesk.Desk.UpdateMobilityState` | src/services/mobility.ts:99-137 | Makes exactly the allowed transitions and gives the resource back where it must |
| `OpenJobs.FirstClaimWins` | src/services/open-jobs.ts:126-291 | Over every interleaving a case has at most one open listing, a claimed listing names its claimant's accepted offer of the same case, and no two listings share an offer |
| `OpenJobs.BoardAcceptsOncePerCase` | src/services/open-jobs.ts:239-291 | The board never gives one case two accepted offers |
| `OpenJobs.ClaimGrantsTheOnlyOffer` | src/services/open-jobs.ts:239-291 | A granted claim makes the claimant's offer the only live offer of the case |
| `OpenJobs.ClosedListingIsFinal` | src/services/open-jobs.ts:168-174 | A claimed or withdrawn listing never changes again |
| `OpenJobs.ListedIffClaimable` | src/services/open-jobs.ts:191-263 | A listing is on a technician's board exactly when it is open, released and near and not gated; a claim of an ungated listing is granted exactly when it is on the board, its case still waits, and the technician qualifies |
| `OpenJobs.OvertakenIsStillListed` | src/services/open-jobs.ts:256-263 | A listing whose case got another offer is still shown, and claiming it only withdraws it |
| `OpenJobs.BoardInOrder` | src/services/open-jobs.ts:191-236 | The board is ordered by job rank, then distance |
| `OpenJobs.BetterTierSeesMore` | src/services/open-jobs.ts:204-234 | A better tier's board contains the worse tier's at the same place, time and qualifications |
| `OpenJobs.BetterScoreSeesMore` | src/services/open-jobs.ts:204-234 | A better score never shows less |
| `OpenJobs.GrantedIff` | src/services/open-jobs.ts:239-291 | A claim is granted if and only if the listing is open, the head start is over, the technician is within 50 km and qualified, and the case waits for a diagnosis without an offered or accepted offer |
| `OpenJobs.RefusedClaim` | src/services/open-jobs.ts:250-264 | A claim that is not granted makes no offer: it withdraws a reachable listing whose case moved on, and otherwise changes nothing |
| `OpenJobs.InsertEffect` | src/services/open-jobs.ts:147-165 | Publishing adds one open listing dated now, unless the case has one |
| `OpenJobBoard.Board.CheckPublish` | src/services/open-jobs.ts:126-144 | Gives leave to insert if and only if the case exists in an early state with a location and has neither an open listing nor an offered or accepted offer; returns its open listing, or names exactly the first condition that fails |
| `OpenJobBoard.Board.InsertListing` | src/services/open-jobs.ts:160-166 | The write half: inserts unless the unique index objects, and returns the open listing |
| `OpenJobBoard.Board.WithdrawOpenJob` | src/services/open-jobs.ts:168-174 | Leaves the case without an open listing |
| `OpenJobBoard.Board.ClaimOpenJob` | src/services/open-jobs.ts:239-291 | Succeeds exactly for a reachable listing of a case still waiting, and then records the accepted offer |
| `Standing.ScoreInRange` | src/services/open-jobs.ts:80-93 | The score lies between 0 and 100 for every history |
| `Standing.FinishingNeverLowers` | src/services/open-jobs.ts:80-107 | Finishing a job never lowers the score, whether the job settles by it or had settled unfinished before |
| `Standing.UnfinishedNeverRaises` | src/services/open-jobs.ts:80-93 | An unfinished settled job never raises it |
| `Standing.FiveStarsNeverLower` | src/services/open-jobs.ts:80-93 | Five stars never lower it |
| `Standing.OneStarNeverRaises` | src/services/open-jobs.ts:80-93 | One star never raises it |
| `Standing.GoldNeedsThreeJobs` | src/services/open-jobs.ts:80-93 | Gold needs at least three completed jobs for every rating history |
| `Standing.ThreeJobsCanMakeGold` | src/services/open-jobs.ts:80-93 | Three jobs can be enough, so the bound is exact |
| `Standing.NewcomerIsSilver` | src/services/open-jobs.ts:80-93 | A technician without history is silver |
| `Standing.BetterTierSooner` | src/services/open-jobs.ts:59-68 | A better tier never waits longer, emergencies included |
| `Standing.KnownScores` | src/services/open-jobs.ts:80-93 | Scores of six histories, from unknown to twenty good jobs |
| `Standing.TierBounds` | src/services/open-jobs.ts:85 | Gold from 80 points, silver from 60 |
| `Standing.HeadStarts` | src/services/open-jobs.ts:59-68 | The head starts in seconds by rank and tier, and their halves in an emergency |
| `ObdScanProofs.DtcRoundTrip` | cloudflare/obd-scan.js:9-40 | Printing any trouble-code frames, counted or not, padded or not, and decoding gives the sent codes in first-seen order without duplicates, up to the length limit |
| `ObdScanProofs.PayloadsRoundTrip` | cloudflare/obd-scan.js:9-22 | Printed frames of the right kind read back as the same frames, up to the length limit |
| `ObdScanProofs.WrongCountRefused` | cloudflare/obd-scan.js:24-34 | A counted frame is refused exactly when its count is wrong |
| `ObdScanProofs.DecodedCodesAccepted` | cloudflare/obd-scan.js:24-40 | Whatever text decodes, its codes are distinct, well-formed, accepted by the knowledge base, and none of the first hundred is invalid |
| `ObdScanProofs.DedupeMeaning` | cloudflare/obd-scan.js:39 | Each code once, and all of them |
| `ObdScanProofs.DedupeKeepsPrefixes` | cloudflare/obd-scan.js:39 | First-seen order: later codes never reorder earlier ones |
| `ObdScanProofs.PidRoundTrip` | cloudflare/obd-scan.js:42-55 | The answer of one control unit decodes to the reading of its data bytes |
| `ObdScanProofs.SeveralUnitsRefused` | cloudflare/obd-scan.js:42-48 | Answers of two control units are refused, not merged |
| `ObdReadings.AnswerRoundTrip` | cloudflare/obd-scan.js:42-55 | Every reading, printed as a control unit sends it (degrees plus 40, quarter revolutions high byte first, lamp bit above the count, supported requests from the highest bit on), decodes to itself |
| `ObdReadings.ReadingRoundTrip` | cloudflare/obd-scan.js:49-54 | The data bytes of every reading read back as that reading |
| `ObdReadings.OnlyTheseRequests` | cloudflare/obd-scan.js:42-48 | Exactly five requests are decoded, from one frame with exactly their number of data bytes |
| `ObdReadings.AcceptedPayloads` | cloudflare/obd-scan.js:9-22 | A response is incomplete if and only if it is over 16384 characters or lacks the prompt; what is accepted has a frame, and every frame the expected prefix |
| `ObdReadings.EchoIgnored` | cloudflare/obd-scan.js:14 | Echoes of the request, the progress message and empty lines change nothing |
| `ObdReadings.FailureSpoils` | cloudflare/obd-scan.js:15 | A line with one of the adapter's failure words, in either case, leaves no result |
| `ObdReadings.WordIsFailure` | cloudflare/obd-scan.js:15 | Each failure word is found anywhere in a line, in either case |
| `ObdReader.ReadPayloads` | cloudflare/obd-scan.js:9-22 | The line loop computes the specified frames or the first refusal |
| `ObdReader.ReadStoredDtcs` | cloudflare/obd-scan.js:24-40 | The frame and pair loops compute the specified codes |
| `TroubleCodes.PairToCodeToPair` | cloudflare/obd-scan.js:33-37 | Every byte pair is recovered from its code |
| `TroubleCodes.CodeToPairToCode` | src/domain/dtc-knowledge.ts:120-121 | Every well-formed code is recovered from its bytes |
| `TroubleCodes.ParseAcceptsCodes` | src/domain/dtc-knowledge.ts:138-150 | Every well-formed code is accepted and kept as it is |
| `TroubleCodes.SynthesizeObdEvidence` | src/domain/dtc-knowledge.ts:159-170 | The loop reports each of the first hundred codes once |
| `TroubleCodes.FindingsDistinct` | src/domain/dtc-knowledge.ts:159-170 | No finding is reported twice and all are well-formed |
| `TroubleCodes.CleanCodesSynthesize` | src/domain/dtc-knowledge.ts:159-170 | Distinct well-formed codes come back in order with none invalid |
| `ObdReadings.CodeSpelled` | cloudflare/obd-scan.js:33-37 | A pair of bytes spells system letter, digit and three hexadecimal digits |
| `ObdReadings.CodeClassified` | src/domain/dtc-knowledge.ts:120-150 | A code in either case between blanks is accepted, with its domain by letter and the manufacturer ranges by first digit |
| `ObdReadings.OnlyCodesClassified` | src/domain/dtc-knowledge.ts:138-150 | Nothing else is accepted |
| `OutboxProofs.RunKeepsInv` | src/services/notifications.ts:119-214 | Every interleaving of claims, late workers, crashes and requeues keeps the attempt log and the rows in step, inside the lock or not |
| `OutboxProofs.SentIsFinal` | src/services/notifications.ts:189-194 | A sent notification is unchanged by every run, however late a worker reports |
| `OutboxProofs.AttemptsBounded` | src/services/notifications.ts:205-214 | k manual requeues allow at most the first limit plus 3k attempts, and a pending row is below its limit |
| `OutboxProofs.AttemptNumbersExact` | migrations/011_notifications_delivery.sql:16-29 | The recorded attempts of a notification are numbered 1, 2, 3, ... and agree with the row, except for one attempt being written |
| `OutboxProofs.DeadUntilRequeued` | src/services/notifications.ts:306-336 | A dead row changes only by a manual requeue, which leaves room for three attempts |
| `OutboxProofs.CrashStrandsIffRecorded` | src/services/notifications.ts:177-194 | A crash leaves a recorded attempt that nobody will write exactly when it falls between the two statements |
| `OutboxProofs.StrandedForever` | src/services/notifications.ts:177-194 | Such a notification stays pending at the same count in every continuation |
| `OutboxProofs.StrandingHappens` | src/services/notifications.ts:177-194 | It can happen to every deliverable notification |
| `OutboxProofs.RetryableIffNotStranded` | src/services/notifications.ts:119-145 | A pending row nobody is writing accepts its next attempt exactly when it is not stranded |
| `OutboxProofs.StrandedHeadBlocksBatch` | src/services/notifications.ts:119-145 | A stranded row at the head of a batch ends the batch without any result |
| `OutboxProofs.ClaimsOldest` | src/services/notifications.ts:123-134 | A batch locks exactly the claimable rows with fewer than the limit of claimable rows before them |
| `OutboxProofs.BatchKeepsInv` | src/services/notifications.ts:119-145 | A whole batch keeps everything proved about single steps |
| `OutboxProofs.DelayDoubles` | src/services/notifications.ts:205-214 | The wait starts at 30 seconds, doubles, and stops at an hour |
| `OutboxProofs.DriversAgreeOnSchedule` | cloudflare/worker.js:216-227 | The two drivers move a row to the same schedule exactly when its limit is positive, the default limit is used up anyway, or the message went out |
| `OutboxProofs.DriversAgreeInRuns` | cloudflare/worker.js:216-227 | In every run the copied limit is positive, so either driver moves the row to the same schedule |
| `OutboxProofs.DriversDecideAlike` | cloudflare/worker.js:319-397 | They decide an attempt alike unless the adapter itself threw |
| `OutboxProofs.DriversAgreeOnError` | cloudflare/worker.js:319-397 | They store the same error text exactly when the adapter gave a non-empty message, or none and no code to prefer |
| `OutboxProofs.DriversWriteSameRow` | src/services/notifications.ts:205-214 | The two drivers write the same whole row exactly when a delivery came with an identifier, or a failure with a limit and a text on which they agree |
| `OutboxDelivery.SentIffLastAttemptWentOut` | src/services/notifications.ts:147-195 | In every run a notification is sent if and only if its last recorded attempt went out and no worker, alive or lost, holds that attempt unwritten |
| `OutboxDelivery.DeadWasNeverSent` | src/services/notifications.ts:189-214 | A dead notification used up its limit and none of its attempts went out |
| `OutboxDelivery.SentAtMostOnce` | src/services/notifications.ts:119-195 | At most one recorded attempt of a notification went out |
| `OutboxDelivery.ClaimTakesExactly` | src/services/notifications.ts:123-134 | A row is claimed if and only if it is pending, due, and not locked within five minutes |
| `OutboxDelivery.WriteDecides` | src/services/notifications.ts:180-214 | A delivery makes the row sent now without error; a failure at the limit makes it dead; another keeps it pending until the wait is over |
| `OutboxDelivery.RefusalsComeFirst` | src/services/notifications.ts:147-180 | A disabled channel and an unknown provider are refused before anything is sent |
| `OutboxDelivery.EnqueueAdds` | migrations/005_operational_glue.sql:18-33 | Queueing adds one row, due at once and never tried |
| `OutboxDelivery.RequeueAllows` | src/services/notifications.ts:306-336 | A manual requeue makes exactly a dead row pending again, due at once, with room for three more attempts |
| `OutboxDelivery.DriverReadings` | cloudflare/worker.js:319-397 | The limit, error text and message identifier each driver reads from the same answer |
| `OutboxDesk.Desk.ProcessBatch` | src/services/notifications.ts:119-145 | Claims the oldest rows and delivers them one by one until one fails to record |
| `OutboxDesk.Desk.DeliverOne` | src/services/notifications.ts:147-195 | Records one attempt and writes the row, or reports that the number is taken; OutboxDelivery.WriteDecides says what is written |
| `OutboxDesk.Desk.ClaimBatch` | src/services/notifications.ts:123-134 | Locks the batch and hands out copies |
| `OutboxDesk.Desk.RequeueFailed` | src/services/notifications.ts:306-336 | Requeues exactly dead rows and names the other cases |

## Left out

- Access and scope checks, audit rows, case events, customer snapshots and deadlines: the caller is taken to be permitted, and the side effects have no part in the invariants.
- SQL text and isolation anomalies: every statement, or transaction where the source opens one, is atomic, and rows skipped because another transaction holds them count as not claimable.
- `now()` of the database and `Date.now()` of the process are one clock.
- Calls to foreign services: the analysis answers an arbitrary "ai" or "fallback" report, a delivery an arbitrary success, failure or exception, and the permission to analyse is a parameter.
- Hashes: SHA-256 request hashes are taken as injective; the tie hash of the ranking is modelled as written, over characters outside the surrogate range.
- Floating point: scores, weights and distances are real numbers and rounding is `floor(x + 0.5)`; a sum in another order may differ in the last bits in JavaScript. NaN, infinities and undefined are excluded.
- Numbers in JSON are identified with their printed text.
- Letters are upper-cased as in ASCII, and white space is the set that JavaScript trims within it.
- Of field service only the stock is modelled: assessment, authorization and operator checks are left out, a decision fulfilled by a delivered order is one that reserves nothing, and the metadata a decision is created with is taken to name no reservation.
- `src/services/triage-evaluation.ts` and the other readers of assessments; the `superseded` status, which nothing writes.
- The handoffs that parts, transport and mobility record are steps of the case, not of the order or allocation that causes them.
- The capacity and the end of a capacity window do not change while holds exist on it; capacity held, released and consumed by a case transition belongs to the capacity component.
- Offers made outside the board are steps of the environment; `rankJob` and `distanceKm` are replaced by given ranks and non-negative distances.
- Descriptions, flags and suggested checks of trouble codes, and the building and uploading of health events.
- The demand of a case and the routing that ranks candidates for a plan: the ranked list is a parameter, and generation is only attempted with a demand.
- The details stored with a constraint, a handoff, a decision or an outcome beyond status, key, plan and actor.
- Two decisions at the same instant count in the order in which they arrive.
- Other writers of the constraint table, triggers included, are one arbitrary edit that respects the unique key; other writers of the case state move it between selection, pending and repair only.
- Templates, message texts and recipients of notifications; the made-up message identifier of the worker's driver is any text distinct per delivery.
- `src/services/financial-reconciliation.ts`, payments, referral fees, deadlines and the shop-floor modules.
- OutboxProofs.AttemptsBounded: counts attempts that were recorded; a worker that dies before recording may still have sent a message.
- OutboxProofs.RunKeepsInv: like the other run results of the outbox, assumes that notifications are inserted with a positive limit, as the column's default of five provides.
