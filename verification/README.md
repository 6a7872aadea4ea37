# Verified model of the mandate payment system

Payers authorise recurring charges by creating a *mandate* in a registry
contract; a relayer submits the charges, an indexer mirrors the contract's
events into a database, an API deduplicates client requests, and a web front end
tells the payer what can be collected and when. This project models those parts
in Dafny and proves what they promise each other.

`dafny verify dfyconfig.toml` checks everything.

## How it is put together

- **The registry** (`RegistrySpec`, `MandateRegistry`). `RegistrySpec` gives
  every entry point as a function from storage to storage and outcome
  (`Ok`, `Err`, or `Trap` for a host panic); the token's answers are arbitrary
  inputs there, so what is proved about the registry holds for any token that
  does not call back. `MandateRegistry` is the contract as code, a class that
  reads a record, changes it field by field and writes it back over the token
  contracts (`TokenHost`), and restores the saved state on failure as the host
  does; each method is proved to do what the specification says. Authorization
  is the set of addresses that signed the invocation. The stream of published
  charge and refund events is kept as history. Identifier hashes are
  constructors, hence injective.
- **Its invariant** (`RegistryInvariant`, `RegistryRuns`, `RegistryTheorems`,
  `Exposure`, `World`, `Conservation`): counters equal history, caps hold in
  every period and over a lifetime, money is conserved.
- **Its answers** (`RegistryLifecycle`, `RegistryAnswers`, `WorldAnswers`): when
  each call gives each answer, told by the stored record, the history, the
  signatures and the balances alone, and what a creation, a pause, a resume or a
  revocation means for everything that comes after.
- **The mirrors** (`MandateTerms`, `ExposureAttained`, `MandateStatusView`, `Precheck`): the web and
  API computations over the same mandate, each related to the contract.
- **The relayer** (`ChargeRequests`, `Relayer`, `RelayerSafety`,
  `RelayerOutcomes`, `RelayerTheorems`, `RelayerNotices`, `RelayerCharged`,
  `RelayerAnnounced`, `RelayerRetries`, `RelayerLimits`): a state machine of any
  number of workers at single-statement granularity, with stale reads, crashes,
  stale-row recovery and transactions the ledger may include late or never.
  `RelayerPipeline` is `processChargeRequest` as code, with arbitrary steps of
  everyone else between any two statements; a ghost trace makes each state it
  reaches a state of the protocol, and what the network answers it is an input,
  so that its contract says which answers lead to which outcome. `Scheduler` is
  the scheduler pass.
- **The indexer** (`IndexerSpec`, `IndexerSafety`, `IndexerTheorems`,
  `IndexerGap`, `IndexerDivergence`, `Indexer`) and **idempotent requests** (`IdempotencySpec`,
  `Idempotency`): the same two layers, protocol and code. `IndexerChain` joins the
  indexer to the registry: the stream is what the registry's calls published.
- **Money strings** (`Money`).

## What the proofs found

- *The gap test of the indexer can miss events.* The test compares the RPC's
  oldest ledger with the last ledger seen plus one, but the cursor stands between
  events. If a page ended inside a ledger and retention then starts right after
  that ledger, the test passes and, on an RPC that answers from its oldest event,
  the rest of the ledger is never read. `IndexerSafety.PageSkipsExactly` gives the
  exact condition, `IndexerGap.GapTestMissesAnEvent` a run, and
  `IndexerTheorems.NothingSkipped` the promise under its negation. The
  documentation (docs/architecture.md, apps/relayer/src/indexer/indexer.ts:16-27)
  says nothing is ever skipped silently.
- *The alarm of that test can also be false.* An empty page keeps the old ledger
  number, so a contract silent for longer than retention raises it with nothing
  unread, and the indexer then stands still for good
  (`IndexerTheorems.FalseAlarmExactly`, `IndexerTheorems.StuckForever`,
  `IndexerGap.SilenceRaisesTheAlarm`).
- *The retry schedule bounds retries only as far as claims act on fresh reads.*
  Every interleaving schedules at most three retries and two more per stale claim
  (`RelayerRetries.RetriesBoundedByStaleClaims`), hence three when there is none.
  With reads and claims in separate statements, as they are, stale claims are
  not bounded, and each can cost its two retries
  (`RelayerRetries.StaleClaimsUseTheirBudget`).
- *A permanently failed request may have been charged.* It happens exactly when a
  submission was given up and its transaction executed all the same, or when
  somebody charged the id past the relayer (`RelayerCharged.ChargedWithoutSuccess`);
  `RelayerLimits.FailedForGoodButCharged` is a run.
- *A completed mandate may never be announced.* It is announced exactly when the
  request of its completing charge settled and no other charge of the mandate came
  between the read its worker settled on and that charge
  (`RelayerAnnounced.AnnouncedExactly`); `RelayerLimits.CompletedButNotAnnounced`
  is a run in which it is not. Neither run has a crash, a recovery, a stale read
  or a caller other than the mandate's creator.
- *Stale recovery leaves the transition table.* It takes `simulated` rows to
  `retryable_failed` (`Scheduler.RecoveryLeavesTheTable`).
- *Two events of one ledger do not converge* when a slow tick applies the older
  one again (`IndexerDivergence.EqualLedgersDiverge`); the row then ends at the
  newest-ledger event applied last (`IndexerTheorems.EndsAtLastOfNewest`).
- *"Still processing" is not purely defensive*: it is what every replay gets after
  a handler that answered null, and only then.
- *A self transfer creates money* in the token (`TokenSpec.SelfTransferIsNotConserved`);
  the registry's payer-is-not-merchant check is what keeps supply constant.
- The comment above `computeNextEligibleChargeDate` adds the minimum interval to
  the start of a mandate never charged; the code does not, and neither does the
  contract. The model follows the code.

## Model

| member | source | states |
|---|---|---|
| RegistryRuns.ApplyKeeps | contracts/mandate-registry/src/charge.rs:99-310 | every registry call, successful or not and for any token reply, keeps the full invariant: counters equal history, caps, spacing, replay guards, refund totals |
| RegistryTheorems.AccountingEqualsHistory | contracts/mandate-registry/src/charge.rs:241-277 | in every reachable state total, count, current-period sum and last time of a mandate are those of its receipts |
| RegistryTheorems.ChargesAreSpaced | contracts/mandate-registry/src/charge.rs:164-172 | two charges of a mandate are in time order, at least the minimum interval apart and inside its window |
| RegistryTheorems.ReceiptMatchesMandate | contracts/mandate-registry/src/charge.rs:148-162 | every receipt pays the mandate's own parties in its asset, within the amount rule |
| RegistryTheorems.ChargeIdAtMostOnce | contracts/mandate-registry/src/charge.rs:138-141 | a (mandate, charge id) succeeds at most once over any run, and is marked used exactly when it has a receipt |
| RegistryTheorems.ChargePlanMeaning | contracts/mandate-registry/src/charge.rs:106-210 | steps 1 to 12 accept exactly the charges that meet every rule stated over the history, free of order and overflow |
| RegistryTheorems.TimingRefusals | contracts/mandate-registry/src/charge.rs:164-210 | the second expiry check, the count check, the zero division and the boundary overflow cannot happen; when overflow is reported, exactly |
| RegistryTheorems.CountErrorUnreachable | contracts/mandate-registry/src/charge.rs:174-180 | no reachable state answers a charge with the count error |
| RegistryTheorems.StoredStatus | contracts/mandate-registry/src/lifecycle.rs:40-47 | stored status is never Expired, and Completed exactly when a nonzero cap is used up |
| RegistryTheorems.PermanentFromHere | contracts/mandate-registry/src/lifecycle.rs:168-256 | from any reachable state on: terms stay, revoked and completed records freeze, receipts are never overwritten, counts never drop |
| RegistryTheorems.RefundsBounded | contracts/mandate-registry/src/refund.rs:103-174 | the refunded total is the sum of the refund receipts, never above the payment; a refund id succeeds once in the whole contract |
| WorldAnswers.ChargeAnswers | contracts/mandate-registry/src/charge.rs:99-310 | over the honest token every answer of a charge, each error and the trap included, exactly when it is given; no other answer exists |
| WorldAnswers.ChargeReceiptIs | contracts/mandate-registry/src/charge.rs:265-276 | the receipt of a charge, field by field, and where it is stored |
| WorldAnswers.RefundAnswers | contracts/mandate-registry/src/refund.rs:96-191 | every answer of a refund exactly when it is given: success for a signed, new, positive, covered refund within the unrefunded rest of the mandate's own payment; the full rest included |
| RegistryLifecycle.CreateAnswers | contracts/mandate-registry/src/lifecycle.rs:101-163 | creation succeeds exactly for a signed, new and valid input, each refusal is told, and the record stored is the signed terms, field by field |
| RegistryLifecycle.PauseExactly | contracts/mandate-registry/src/lifecycle.rs:168-193 | a pause goes through exactly on an active, unexpired mandate of a signing payer and stores Paused |
| RegistryLifecycle.ResumeExactly | contracts/mandate-registry/src/lifecycle.rs:198-223 | a resume goes through exactly on a paused, unexpired mandate of a signing payer and stores Active |
| RegistryLifecycle.RevokeExactly | contracts/mandate-registry/src/lifecycle.rs:233-256 | a revocation goes through exactly for a signing payer of a mandate neither revoked nor completed, expired or not, and stores Revoked |
| RegistryLifecycle.RevokedForGood | contracts/mandate-registry/src/lifecycle.rs:225-256 | after a revocation, in every continuation: get_mandate says Revoked at every instant, no charge goes through and no control does |
| RegistryLifecycle.PausedUntilResumed | contracts/mandate-registry/src/lifecycle.rs:164-193 | after a pause, in every continuation without a resume: not charged, not chargeable, and the record otherwise the old one |
| RegistryLifecycle.ResumeRestores | contracts/mandate-registry/src/lifecycle.rs:195-223 | a resume gives back the record from before the pause and admits exactly the charges that meet the other rules |
| RegistryLifecycle.GetMandateAnswers | contracts/mandate-registry/src/lifecycle.rs:258-268 | get_mandate shows the stored record, expired from its expiry on unless revoked or complete |
| RegistryRuns.RefundEvolves | contracts/mandate-registry/src/refund.rs:96-191 | a refund changes no mandate and no payment |
| RegistryInvariant.ChargeKeeps | contracts/mandate-registry/src/charge.rs:241-262 | the record a successful charge writes is again exactly its longer history |
| RegistryInvariant.PeriodAt | contracts/mandate-registry/src/charge.rs:182-204 | the rollover rule: the computed boundary is the aligned period of now, and what it says was collected there is what the history says |
| RegistryInvariant.TimingPlanMeaning | contracts/mandate-registry/src/charge.rs:164-210 | steps 9 to 12 accept exactly when interval, count and the period's true sum admit the charge |
| MandateRegistry.MandateRegistry.Charge | contracts/mandate-registry/src/charge.rs:99-310 | the field-by-field code over the token contracts equals the specification, and any failure, after the transfer included, leaves registry and tokens as they were |
| MandateRegistry.MandateRegistry.Refund | contracts/mandate-registry/src/refund.rs:96-191 | the refund code equals the specification, restores everything on failure and changes no mandate |
| MandateRegistry.MandateRegistry.CreateMandate | contracts/mandate-registry/src/lifecycle.rs:101-163 | creation with every validation error in order; nothing is stored on failure |
| MandateRegistry.MandateRegistry.PauseMandate | contracts/mandate-registry/src/lifecycle.rs:168-193 | pause as specified, when it goes through, what it stores and the one event it publishes |
| MandateRegistry.MandateRegistry.ResumeMandate | contracts/mandate-registry/src/lifecycle.rs:198-223 | resume as specified, when it goes through, what it stores and the one event it publishes |
| MandateRegistry.MandateRegistry.RevokeMandate | contracts/mandate-registry/src/lifecycle.rs:233-256 | revoke as specified, when it goes through, that it stores Revoked, and the one event it publishes |
| RegistryTheorems.GetPaymentMeaning | contracts/mandate-registry/src/charge.rs:312-315 | after any run get_payment answers exactly for the derived id of a charge that succeeded, with that charge's receipt, and not found for every other id |
| RegistryTheorems.GetRefundMeaning | contracts/mandate-registry/src/refund.rs:192-197 | after any run get_refund answers exactly for a refund that succeeded, with its receipt, which refunds a stored payment |
| MandateRegistry.MandateRegistry.CheckCharge | contracts/mandate-registry/src/charge.rs:106-210 | the validation code, step by step, decides what the specification decides |
| TokenHost.TokenContracts.TransferFrom | contracts/mock-token/src/lib.rs:122-145 | allowance, balance and width checks, then one movement; on success the specified state |
| TokenHost.TokenContracts.MoveBalance | contracts/mock-token/src/lib.rs:164-183 | both balances are read before either is written |
| TokenSpec.MoveConservesSupply | contracts/mock-token/src/lib.rs:164-183 | a movement between different accounts keeps every asset's supply |
| TokenSpec.TransferFromExactly | contracts/mock-token/src/lib.rs:122-145 | succeeds exactly when the spender signs and allowance, balance and width suffice; the allowance goes down by the amount, the balances move, nothing else changes |
| TokenSpec.ApproveExactly | contracts/mock-token/src/lib.rs:74-85 | succeeds exactly for a signing owner; the allowance is then the approved amount and nothing else changes |
| TokenSpec.SelfTransferIsNotConserved | contracts/mock-token/src/lib.rs:164-183 | a transfer to oneself does not: a concrete one mints |
| Exposure.LifetimeExposureBound | apps/web/src/lib/mandate-terms.ts:77-100 | over any run and any token behaviour a mandate's total never exceeds computeMaxExposure of its terms |
| Exposure.SlidingWindowBound | contracts/mandate-registry/src/charge.rs:182-210 | any window [a, b) collects at most the period cap times one more than its length in periods |
| Exposure.AdmittedChargeFits | apps/web/src/lib/mandate-terms.ts:89-100 | even before it happens, an admitted charge fits under the exposure |
| MandateTerms.ExposureIsSmaller | apps/web/src/lib/mandate-terms.ts:77-100 | the exposure is at most the period cap times the least number of periods covering the life and, with a count, at most count times the largest charge, and it is one of the two |
| ExposureAttained.UnlimitedExposureAttained | apps/web/src/lib/mandate-terms.ts:77-100 | without a count and interval it is reached: some run collects exactly the exposure |
| ExposureAttained.CountedExposureAttained | apps/web/src/lib/mandate-terms.ts:89-100 | with a count for which the periods have room, likewise |
| MandateTerms.CeilDivIsCeiling | apps/web/src/lib/mandate-terms.ts:70-75 | the truncating form is the ceiling for non-negative dividends |
| MandateTerms.HeadroomIsOnePercent | apps/web/src/lib/mandate-terms.ts:115-121 | the total is the exposure plus one percent rounded up to a base unit |
| Conservation.BoundedAllowanceSuffices | apps/web/src/lib/mandate-terms.ts:114-121 | an allowance of at least the bounded total, approved at any moment and not approved again, is never the reason to refuse a charge of the payer's only mandate in that asset, over any run of anything else |
| Conservation.RemainingExposureSuffices | apps/web/src/lib/mandate-terms.ts:77-121 | neither headroom nor the full exposure is needed: what is left of the exposure at that moment is enough |
| Conservation.ChargeSucceedsExactly | contracts/mandate-registry/src/charge.rs:99-310 | over the honest token a charge succeeds if and only if every rule holds, the payer can pay and no total leaves its width |
| Conservation.ChargeMovesMoney | contracts/mandate-registry/src/charge.rs:230-239 | a charge moves its amount from payer to merchant, touches no other balance and keeps every supply |
| Conservation.RefundMovesMoney | contracts/mandate-registry/src/refund.rs:96-191 | a refund moves its amount back along the payment and keeps every supply |
| Conservation.RefundTransferAuthorised | contracts/mandate-registry/src/refund.rs:96-191 | whoever authorises a refund is the account the money leaves |
| Conservation.BalancesFollowReceipts | contracts/mock-token/src/lib.rs:103-183 | over any run each balance is its start plus and minus the receipts and refunds it took part in, and supplies stay |
| World.ActsKeep | contracts/mandate-registry/src/charge.rs:215-239 | runs over the honest token, with account holders acting on the token directly, are runs of the registry and keep its invariant |
| Precheck.PrecheckRefinesCharge | apps/api/src/chain/precheck.ts:36-90 | with authorization and an unused id the precheck of get_mandate passes exactly when the contract reaches its token checks, and refuses for the same reason, overflow apart |
| Precheck.TimingAgrees | apps/api/src/chain/precheck.ts:60-90 | the unbounded arithmetic of the mirror and the checked arithmetic of the contract decide the timing steps alike |
| MandateStatusView.ComputeNextEligibleChargeDate | apps/web/src/lib/mandate-status.ts:108-130 | the least instant the precheck accepts some amount, or none exactly when there is none; the closing return is unreachable |
| MandateStatusView.LiveReadIsViewOk | contracts/mandate-registry/src/lifecycle.rs:263-268 | every live read of a sound registry meets what the search for the next date assumes |
| MandateStatusView.RoomAfterRollover | apps/web/src/lib/mandate-status.ts:118-127 | a full period has room at its end and nowhere before: one rollover is always enough |
| MandateStatusView.ChargeableIsOnChain | apps/web/src/lib/mandate-status.ts:88-108 | chargeable for the dashboard means chargeable on chain at that ledger time |
| MandateStatusView.StatusMirrorsContract | apps/web/src/lib/mandate-status.ts:37-42 | deriving the status later from an earlier live read gives what the contract would say then |
| MandateStatusView.UsageIsHistory | apps/web/src/lib/mandate-status.ts:54-70 | from the last charge on, the displayed usage of any instant is what the charge history collected in its aligned period |
| MandateStatusView.FloorDivIsFloor | apps/web/src/lib/mandate-status.ts:24-29 | floor division for every dividend, negative ones included |
| RelayerTheorems.AtMostOnceComposed | apps/relayer/src/pipeline.ts:321-417 | over every interleaving: at most one on-chain charge per request; a payment row exists exactly when the request succeeded and is that charge, for the requested amount in the mandate's asset |
| RelayerTheorems.OneSubmitter | apps/relayer/src/pipeline.ts:349-464 | at most one worker is past submission for a request, and its row is then submitted |
| RelayerTheorems.HeldRowUntouched | apps/relayer/src/scheduler.ts:23-40 | while a worker is past submission no step of anyone else writes its row |
| RelayerTheorems.CompletionNoticesSound | apps/relayer/src/pipeline.ts:395-416 | a completion notice names the very charge that took the count to the cap, though the count was read earlier; never two for a mandate |
| RelayerNotices.OneNoticePerEnd | apps/relayer/src/pipeline.ts:159-174 | in every interleaving exactly one payment.succeeded per succeeded request, exactly one payment.failed per permanently failed one, none for others |
| RelayerCharged.ChargedWithoutSuccess | apps/relayer/src/pipeline.ts:432-464 | in every interleaving a request that is neither submitted nor succeeded, a permanently failed one in particular, was charged if and only if a submission of it was given up and its transaction executed all the same, or somebody charged its id past the relayer |
| RelayerCharged.ChargedExactly | contracts/mandate-registry/src/charge.rs:138-141 | over every run a charge id is used exactly when a transaction of the relayer that names it has executed or somebody charged it directly |
| RelayerLimits.FailedForGoodButCharged | apps/relayer/src/pipeline.ts:457-464 | a run without crash, recovery, stale read or other caller in which a request ends permanently failed though charged: a submission was given up, its transaction executed, and the scheduled retry meets the duplicate refusal |
| RelayerAnnounced.AnnouncedExactly | apps/relayer/src/pipeline.ts:184-204 | in every interleaving a completed mandate is announced if and only if the request of its completing charge settled and no other charge of the mandate executed between the read its worker settled on and that charge |
| RelayerAnnounced.CompletedHasCharge | contracts/mandate-registry/src/charge.rs:251-260 | every mandate stored as Completed has its one completing charge in the history |
| RelayerLimits.CompletedButNotAnnounced | apps/relayer/src/pipeline.ts:395-416 | a run without crash, recovery, stale read or other caller in which two overlapping charges complete a mandate, both succeed, and no completion notice is sent |
| RelayerOutcomes.SafeNext | apps/relayer/src/pipeline.ts:89-465 | every single step keeps chain, rows, workers, payments and notices consistent |
| RelayerOutcomes.ConfirmedCompletes | apps/relayer/src/pipeline.ts:407-416 | a confirmed charge on a mandate read one short of its cap is charge number cap |
| RelayerSafety.ExecutedIsPaid | contracts/mandate-registry/src/charge.rs:262-277 | a transaction the ledger accepts late is still this request's receipt, in the asset read before |
| RelayerRetries.RetriesBoundedByStaleClaims | apps/relayer/src/pipeline.ts:97-157 | in every interleaving at most three retries and two more per stale claim that goes through, and at most one claim more than that plus one per recovery |
| RelayerRetries.BoundedRetries | apps/relayer/src/retry-schedule.ts:18-32 | at most three retries and four claims plus one per recovery, when each read and claim is one step |
| RelayerRetries.StaleClaimsUseTheirBudget | apps/relayer/src/pipeline.ts:97-121 | that bound is exact and unbounded: for every n a run without recovery has exactly n stale claims and schedules exactly 3 + 2n retries |
| RelayerRetries.BalanceRun | apps/relayer/src/pipeline.ts:115-157 | every claim is paid for by a scheduling, a retry or a recovery, in every interleaving |
| RelayerRetries.RowsDescend | apps/relayer/src/pipeline.ts:136-182 | without recoveries each write to a row goes down a measure between 0 and 41 |
| RelayerRetries.NoRowStranded | apps/relayer/src/pipeline.ts:119-134 | without crashes and recoveries a row in progress has exactly one worker, at its stage, whose next write goes through |
| RelayerPipeline.Pipeline.ProcessChargeRequest | apps/relayer/src/pipeline.ts:89-465 | under any interference: it throws for an unknown request only at the start, skips exactly when the claim is lost, goes on exactly while the mandate reads and the charge simulates as they should, submits unless a mark finds the row elsewhere, succeeds with the reported receipt exactly when the network reports one, and ends every other submission by its verdict; the outcome is what the row says, each throw has its cause, and a broadcast comes once, after claim and both marks |
| RelayerPipeline.SucceedsExactly | apps/relayer/src/pipeline.ts:97-430 | a job succeeds exactly when its claim is won, mandate read, simulation and submission come out fine and both marks are written |
| RelayerPipeline.Pipeline.AwaitResult | apps/relayer/src/pipeline.ts:353-464 | confirmed exactly when the network tells of the executed transaction's receipt, with that receipt; transient only for lost contact, a trap, a short allowance or a short balance |
| RelayerPipeline.Pipeline.SettleCharge | apps/relayer/src/pipeline.ts:359-429 | a confirmed charge is always settled: the transaction never conflicts, and the payment row is the receipt |
| RelayerPipeline.Pipeline.ClaimRequest | apps/relayer/src/pipeline.ts:97-134 | throws exactly for an unknown request, is lost exactly when the row left the status that was read, and otherwise counts one attempt more |
| RelayerPipeline.Pipeline.ReadFreshMandate | apps/relayer/src/pipeline.ts:184-204 | goes on exactly with a mandate; an unreachable network is transient, an unknown mandate permanent |
| RelayerPipeline.ReachedByJobs | apps/relayer/src/pipeline.ts:359-429 | a reported success is the request's one on-chain charge, recorded |
| RelayerPipeline.Pipeline.TransitionChargeRequest | apps/api/src/state-machine.ts:57-72 | the guarded update: legal edge and expected status, or a conflict and no change |
| RelayerPipeline.Pipeline.RunTransaction | apps/relayer/src/pipeline.ts:359-417 | payment, status and notices are written together or not at all |
| RelayerPipeline.Pipeline.Fail | apps/relayer/src/pipeline.ts:137-182 | a retry after 6, 24 and 72 hours for a failure that may pass, otherwise giving up with its notice; thrown exactly when the row is no longer where the job left it |
| RelayerPipeline.Pipeline.SimulateCharge | apps/relayer/src/pipeline.ts:273-347 | a worker is prepared exactly with a simulated receipt that matches its request in every field and the wallet and asset the database names; a mismatch is permanent, a short allowance or balance transient |
| RelayerTheorems.PaidToNamedWallet | apps/relayer/src/pipeline.ts:321-347 | in every interleaving the on-chain receipt of a recorded payment names the wallet of the request's own merchant and the asset of the product its mandate was sold for |
| RelayerTheorems.ScheduledAsOrdered | apps/api/src/routes/charges.ts:295-305 | a request is taken unless its id or charge id is, and starts scheduled as ordered, never attempted |
| RelayerTheorems.RowEdges | apps/api/src/state-machine.ts:30-38 | whatever anyone does in one step, a row keeps its status or takes one of nine edges, recoveries of simulated rows apart, and an ended row never changes |
| Scheduler.ChargeTable.ScheduleDueChargeRequests | apps/relayer/src/scheduler.ts:42-61 | one pass queues, each once, exactly the requests at or past their scheduled or retry instant and those claimed or simulated but not written for ten minutes |
| Scheduler.ChargeTable.RecoverStalePreSubmissionCharges | apps/relayer/src/scheduler.ts:23-40 | exactly the rows claimed or simulated and not written for ten minutes change, each due at once; every other row is the old one, and the count is the number of rows changed |
| Scheduler.RecoveryExactly | apps/relayer/src/scheduler.ts:28-38 | what recovery writes, told row by row and column by column, if and only if |
| Scheduler.RecoveryMakesDue | apps/relayer/src/scheduler.ts:42-54 | a row is due after recovery exactly when it awaited a pass before, told in instants |
| Scheduler.RecoveryEdges | apps/relayer/src/scheduler.ts:28-38 | recovery touches no submitted, terminal or claimable row, keeps attempts, and is idempotent |
| Scheduler.RecoveryLeavesTheTable | apps/api/src/state-machine.ts:30-38 | of the two recovery edges exactly the one from processing is in the table |
| Scheduler.AwaitsExactly | apps/relayer/src/scheduler.ts:42-54 | due or stale is: its scheduled instant, its retry instant or ten minutes since its last write have come |
| Scheduler.RetryWaits | apps/relayer/src/retry-schedule.ts:18-32 | the waits are six hours, a day and three days, and there is no fourth |
| IndexerTheorems.NothingSkipped | apps/relayer/src/indexer/indexer.ts:101-150 | unless retention starts right after a ledger the cursor stands inside, every decoded event between winning start and cursor was applied |
| IndexerTheorems.PassedEventsDealtWith | apps/relayer/src/indexer/cursor.ts:29-51 | in every interleaving each passed event was applied or jumped over by the RPC |
| IndexerSafety.PageSkipsExactly | apps/relayer/src/indexer/indexer.ts:129-133 | when a page past the gap test begins at the cursor, if and only if, and which events it otherwise misses |
| IndexerGap.GapTestMissesAnEvent | apps/relayer/src/indexer/indexer.ts:129-144 | a run in which a creation of a known merchant is passed, unapplied, without a failure |
| IndexerTheorems.FalseAlarmExactly | apps/relayer/src/indexer/indexer.ts:129-142 | in every interleaving a raised gap alarm is false if and only if since indexing began the contract published nothing between the cursor's ledger and the retention floor, and nothing more in the cursor's ledger |
| IndexerTheorems.StuckForever | apps/relayer/src/indexer/indexer.ts:129-144 | once the alarm holds with no page of the stored cursor in hand, the cursor never moves again, whatever anyone does |
| IndexerGap.SilenceRaisesTheAlarm | apps/relayer/src/indexer/indexer.ts:129-144 | a contract without events reaches that state with nothing unread |
| IndexerTheorems.NotifiedOnce | apps/relayer/src/webhook.ts:56-64 | an applied event that notifies has exactly one delivery row, and it is its own |
| IndexerTheorems.NoOtherDelivery | apps/relayer/src/indexer/mandate-index-sync.ts:57-63 | every delivery is about an applied event, never a completion |
| IndexerTheorems.LedgerNeverDecreases | apps/relayer/src/indexer/mandate-index-sync.ts:119-134 | a row's ledger never goes back over any step |
| IndexerTheorems.IndexConverges | apps/relayer/src/indexer/mandate-index-sync.ts:108-135 | with events in distinct ledgers the row ends at the latest one applied, in any order and repetition |
| IndexerTheorems.IndexFollowsChain | apps/relayer/src/indexer/indexer.ts:101-150 | once the cursor has passed a mandate's latest event of the stream the row shows it and its parties, when no page starts past its cursor and the mandate's events lie in distinct ledgers |
| IndexerChain.IndexShowsChain | apps/relayer/src/indexer/mandate-index-sync.ts:65-135 | then, for a stream that registry calls published, the row's status, payer and merchant are those the registry stores after all those calls |
| IndexerChain.StorageFollowsStream | contracts/mandate-registry/src/events.rs:1-20 | after any history of calls a mandate is stored exactly when an event named it, and stands as its latest event tells |
| IndexerChain.NoticesFollowCalls | apps/relayer/src/indexer/mandate-index-sync.ts:57-63 | every notice tells of a call that went through: active of a creation, paused of a pause, resumed of a resume, revoked of a revocation, to the mandate's merchant |
| IndexerChain.CallsAreAnnounced | apps/relayer/src/indexer/mandate-index-sync.ts:151-177 | and every such call is told of once the cursor has passed the mandate's events |
| IndexerTheorems.IndexShowsAssets | apps/relayer/src/indexer/mandate-index-sync.ts:100-106 | whichever event created a row, it carries its mandate's asset |
| IndexerTheorems.VersionCountsEvents | apps/relayer/src/indexer/mandate-index-sync.ts:119-134 | a row's version counts the applications that passed its ledger guard |
| IndexerTheorems.EndsAtLastOfNewest | apps/relayer/src/indexer/mandate-index-sync.ts:119-134 | in general it ends at an event if and only if that is the last applied of the newest ledger |
| IndexerDivergence.EqualLedgersDiverge | apps/relayer/src/indexer/mandate-index-sync.ts:119-134 | a run of two ticks in which a pause and a resume of one ledger are both applied and passed by the cursor, and the row ends at paused |
| IndexerTheorems.CursorNeverRetreats | apps/relayer/src/indexer/cursor.ts:29-51 | the cursor never moves back, in position or in ledger |
| IndexerTheorems.FirstRunLooksBack | apps/relayer/src/indexer/indexer.ts:101-116 | a first run starts the configured number of ledgers behind the tip, or at the first ledger |
| IndexerSafety.ResolvesToOwner | apps/relayer/src/indexer/mandate-index-sync.ts:80-87 | with a fixed merchant table the row's merchant and the address lookup agree |
| IndexerSafety.IndexerNext | apps/relayer/src/indexer/indexer.ts:101-150 | every single step keeps cursor, pages in hand, deliveries and rows consistent |
| Indexer.Indexer.RunIndexerTick | apps/relayer/src/indexer/indexer.ts:101-150 | a tick reports its page processed exactly when the network sends one and the cursor is within retention, unless the asset of one of its events cannot be read; which failure it reports otherwise; the page is then applied and a cursor stored, and a failure never touches the cursor |
| Indexer.Indexer.AdvanceIndexerCursor | apps/relayer/src/indexer/cursor.ts:29-51 | create or compare-and-swap; a lost race changes nothing |
| Indexer.Indexer.ReadPage | packages/stellar/src/events.ts:54-67 | the decoded events in order, and the highest ledger of all events |
| IndexerSafety.MaxLedgerExactly | packages/stellar/src/events.ts:54-67 | that ledger is the maximum over the page, dropped events included, and absent exactly for an empty page |
| Indexer.Indexer.UpsertMandateIndexFromEvent | apps/relayer/src/indexer/mandate-index-sync.ts:108-135 | insert, or overwrite a row no newer than the event, with the status the event's kind stands for |
| IdempotencySpec.AtMostOneEffect | apps/api/src/idempotency/middleware.ts:79-121 | over any interleaving of commits and rollbacks a key's handler takes effect at most once |
| IdempotencySpec.SuccessesAgree | apps/api/src/idempotency/middleware.ts:88-117 | all successes with a key carry the same hash, status and body; all but the first are replays |
| IdempotencySpec.ReplayHasOriginal | apps/api/src/idempotency/middleware.ts:109-109 | a replayed answer is one some committed handler gave to this request |
| IdempotencySpec.ReusedExactly | apps/api/src/idempotency/middleware.ts:100-108 | a key is refused as reused exactly when the request differs |
| IdempotencySpec.NeverStillProcessing | apps/api/src/idempotency/middleware.ts:103-108 | handlers that give bodies make the processing branch unreachable |
| IdempotencySpec.NullBodyBlocksReplay | apps/api/src/idempotency/middleware.ts:103-108 | after a null body every identical request takes it |
| Idempotency.Idempotency.RunIdempotent | apps/api/src/idempotency/middleware.ts:79-121 | the code under any interference: a request whose key stands is told what its row says, replay, reuse or still processing; one that gets the key is answered by its own handler; it aborts only for a handler that throws, a lost connection or a key that stayed taken |
| Money.RoundTrip | packages/shared/src/money.ts:59-77 | rendering gives a canonical string that parses back to the amount, for every amount and precision |
| Money.AcceptsExactly | packages/shared/src/money.ts:30-57 | parsing accepts exactly digits, or digits dot digits with no more fraction digits than the asset has |
| Money.ParsesTheValue | packages/shared/src/money.ts:47-56 | the units are the written digits scaled by the fraction digits not written: nothing is rounded |
| Money.CanonicalUnique | packages/shared/src/money.ts:65-77 | a canonical string is the rendering of its own value |
| Money.NormalisesTo | packages/shared/src/money.ts:40-77 | every accepted string re-renders to the canonical string of the same value |
| Money.PositiveExactly | packages/shared/src/money.ts:79-91 | the boundary form accepts exactly the well-formed strings in which some written digit is not zero, with the plain parser's amount |
| Money.FormatRoundTrip | apps/web/src/lib/format.ts:19-24 | the trimmed display form parses back to the amount and ends in no needless zero or dot |
| Money.TrimmedNeverEmpty | apps/web/src/lib/format.ts:22-23 | trimming never leaves the empty string, so the fallback is unreachable |

## Left out

- Soroban host: XDR, authorization entries and signatures, storage lifetime; authorization is a set of addresses, a trap is an outcome, and of an event only its kind, mandate, parties and asset are kept.
- Reentrancy: a token may answer anything and fail at will, but does not call back into the registry.
- Hash collisions: identifiers are injective constructors.
- Calls that overlap on chain: the ledger runs invocations one after another, and so does the model.
- Exposure.LifetimeExposureBound: is an upper bound for every mandate; that it is reached is shown for a minimum interval of zero (ExposureAttained), and for a long interval it is not.
- Precheck.PrecheckRefinesCharge: ends where the contract asks the token, since the precheck does not look at allowance or balance.
- Conservation.BoundedAllowanceSuffices: speaks of the payer's only mandate in the asset; a second mandate draws on the same allowance.
- Failure classification (apps/relayer/src/classify.ts): the protocol lets any failure be judged either way; the code judges by the contract's answer, and an error outside the table stops the worker.
- Transaction hash, failure code and charge authorization columns: an authorization that is missing, expired or unreadable is one of the refusals before submission.
- RelayerRetries.BoundedRetries: is the case without stale claims, which the code does not ensure; the bound for every interleaving counts them.
- RelayerRetries.NoRowStranded: excludes crashes and recoveries; with a crash the row stays where it was until a recovery, and a crash after submission leaves it submitted.
- Changes of a merchant's wallet or of a product's asset: the relayer's model lets both be entered at any time, and once entered they stay.
- Rows that others create or delete: charge ids are unique across requests, and only the indexer writes index rows.
- IndexerTheorems.NotifiedOnce: speaks of merchants in a table that does not change during the run.
- The read of the row and the upsert of one event share one transaction; the asset read of a first event is an input, or a failure.
- RPC errors: whether the wording of one reads like a retention error is an input.
- RelayerPipeline.Pipeline.ProcessChargeRequest, Indexer.Indexer.RunIndexerTick, Idempotency.Idempotency.RunIdempotent: what the network answers is an arbitrary input and the moves of others are arbitrary steps, so what is said is which answers lead to which outcome, not that they come.
- Idempotency keys outlive every request: the model has no deletion of rows, as the code has none.
- BullMQ, Redis, HTTP, Prisma, webhook signing and delivery, sessions, encryption, API routes, the React front end and the SDK: plumbing or library behaviour, or easy members.
- Money: amounts are integers and precisions integers; a precision that is not an integer number is not modelled.
