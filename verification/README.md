# Money-handling state machines, modelled and proved in Dafny

The repository moves money in five places that keep state, and splits it in a sixth. This project models
each of them as the code behaves, errors included, and proves what they keep over every run.

- **Agent-commerce budget rail.** `Authorizations` holds the store calls as functions on three tables;
  `AuthorizationStore` is the store and the service with fields updated in place; `L402Workers` interleaves any
  number of `execute` calls, reconciliations, revocations and crashes; `L402Settlement` is about the money booked,
  `L402Scope` about terms and idempotency keys, `L402Keys` about calls that overlap on a key and the payments they can
  lose, `L402Clashes` about those that overlap and lose none; `L402Calls` has every answer of one call, from its reservation
  to its receipt or its cleanup.
- **AI token spend.** `TokenSpend` (the calls as functions), `TokenBudget` (the invariant), `TokenRuns` (runs, and the
  first-fit search), `TokenCalls` (prices, and exactly what each call admits and books), `TokenStore` (the class and the loops).
- **Royalty split.** `RoyaltyMath` (the split and its optimality), `RoyaltySplit` (the Python and the TypeScript
  implementation, dictionaries and loops).
- **Ledger and royalty obligations.** `Ledger`, `LedgerCalls` (exactly which postings it takes, and what a used key
  answers), `LedgerService`, `RoyaltyLedger`, `RoyaltyObligations` (the service against the ledger), `RoyaltyRuns` (the
  service's own tables over every run), `RoyaltyKeys` (ledger keys that two requests share), `RoyaltyService`.
- **Payments and refunds.** `Payments`, `PaymentCalls` (one call to its end) and `PaymentMoney` (what a status says about
  the money); `Refunds` (the calls),
  `RefundRuns` (what runs keep, and when), `RefundKeys`, `RefundMoney` (refunded against paid), `RefundExamples` (runs that
  reach each trouble); `TransactionService` is both as classes.
- **Gateway claims.** `GatewayClaims`, `GatewayReceipts` (what is stored and returned), `GatewayLeases`, `GatewayRuns`,
  `GatewayService`.
- **Audit chain.** `AuditLog`.
- `Sums` and `Steps` are the shared tools: sums over tables, and repeated steps.

How to read it. A row's id is its position in its table. A protocol is a total function `Next` on states and
actions (an action that cannot happen changes nothing) and `Exec` runs a list of actions; a theorem about `Exec` is a
theorem about every run. A class method's contract gives its result and the whole new state as a function of the old
tables, or says that the call is the run of one worker of the protocol, so that the theorems about runs cover it.
An answer from a payment provider, a processor, a ledger over the network or a clock is an argument.

What the proofs found, where the code gives less than its comments or names suggest. Each comes with the condition under
which the code does what is wanted, and with a run that shows the failure:

- A reservation released from `payment_initiated` loses its payment for good. It takes two `execute` calls that overlap on
  one idempotency key and clash (`L402Keys.SharedKeyLosesPayment`); without a clash, and so without an overlap, it cannot
  happen (`L402Clashes.NoClashLosesNothing`, `L402Keys.OwnKeysLoseNothing`). Two overlapping calls with one payment hash
  at two amounts book the wrong one (`L402Settlement.RebindBooksWrong`); without an overlap, or with one amount per hash, they do not
  (`NoOverlapIsBookedOnce`, `SettledMoneyIsBookedOnce`).
- The two royalty implementations round an odd half cent over an even one differently, and a list that repeats an owner
  can exhaust one of them and not the other (`RoyaltySplit.ImplementationsAgree` says exactly when they agree).
- A royalty in which somebody's payout rounds to zero is refused by the ledger although it balances
  (`RoyaltyLedger.PayableExactly`). One with an owner id of more than twenty characters, or an event id of more than
  ninety-two, can be held but never released (`RoyaltyObligations.LongOwnerIsNeverReleased`, `LongEventIsNeverReleased`).
  One with another text too long for its row is posted and never recorded (`OutgrownCreateBreaks`).
- The ledger replays a key it has seen, and the royalty service then records an effect that never took place: two
  releases under one key are enough (`RoyaltyKeys.SharedReleaseKeyIsReachable`).
- Reversals carry no key, so a retry reverses twice: after a crash, or after a lost answer
  (`RoyaltyObligations.CrashedReversalRepeats`; `RefundRuns.LostReversalIsRepeated` and `CrashedRecordingRepeats`, against
  `ReversedOnce`).
- A refund that the processor calls pending is written FAILED, and refunded again by the retry if it was carried out
  (`RefundRuns.PendingIsRefundedTwice`).
- A refund attempt that is carried out and not recorded blocks its own key but not the money: a new key can then refund
  more than was paid (`RefundMoney.CarelessOverpays`, against `CarriedOutWithinPayment`). Two refunds at once can record
  more than the payment (`RefundRuns.ConcurrentRefundsAddUp`), and a key reused for another payment or amount records a
  refund that was never made (`RefundKeys.ReusedKeyRecordsAnother`).
- A crash after the last refund row leaves a payment refunded in full that never says so (`RefundRuns.LagIsPermanent`).
- A payment can be FAILED for good although the money was taken (`PaymentMoney.FailedMayBeTaken`), exactly when the answer
  to its charge hid it (`StatusAndMoney`).
- A gateway key with a receipt and no completion is never completed (`GatewayLeases.StrandedForever`), while one without a
  receipt always can be (`GatewayRuns.UntroubledCompletes`); a worker past its lease can undo a completion, and
  so can one within its lease whose completing write raised after its commit (`LostCompletionFails`, against
  `CompletedIsFinal`).
- The `expired` status of an authorization and the call-rate pause of a policy are written before an exception that
  rolls them back, so neither is ever stored.

## Model

| member | source | states |
|---|---|---|
| Authorizations.FindKey | services/agent-commerce/agent_commerce/authorization.py:206-209 | The reservation of an authorization and idempotency key if there is one, and none only if no row has that pair |
| Authorizations.FindReceipt | services/agent-commerce/agent_commerce/receipts.py:83-84 | The receipt of a reservation if there is one, and none only if there is none |
| Authorizations.CreateKeepsOrder | services/agent-commerce/agent_commerce/authorization.py:81-150 | Creating an authorization keeps every cache equal to its rows and every limit respected |
| Authorizations.RevokeKeepsOrder | services/agent-commerce/agent_commerce/authorization.py:168-189 | Revoking keeps every cache equal to its rows and every limit respected |
| Authorizations.ReserveKeepsAuth | services/agent-commerce/agent_commerce/authorization.py:239-279 | The checks of reserve are enough: reserved and spent stay within the total, finished and open calls within the call limit |
| Authorizations.ReserveKeepsOrder | services/agent-commerce/agent_commerce/authorization.py:191-296 | Reserving keeps every cache, limit and row in order, and keys unique per authorization |
| Authorizations.BindKeepsOrder | services/agent-commerce/agent_commerce/authorization.py:298-330 | Binding keeps every cache, limit and row in order; a bound invoice is positive and inside the reserved amount |
| Authorizations.InitiateKeepsOrder | services/agent-commerce/agent_commerce/authorization.py:332-351 | Starting a payment keeps every cache, limit and row in order |
| Authorizations.PaidKeepsOrder | services/agent-commerce/agent_commerce/authorization.py:353-416 | Recording a settlement keeps every cache, limit and row in order; invoice plus fee stays inside the reserved amount |
| Authorizations.ReleaseKeepsOrder | services/agent-commerce/agent_commerce/authorization.py:418-447 | Releasing, from payment_initiated too, keeps every cache, limit and row in order |
| Authorizations.FinalizeKeepsAuth | services/agent-commerce/agent_commerce/receipts.py:122-131 | Moving reserved to spent keeps the caches, and an authorization that becomes consumed has no open reservation left |
| Authorizations.FinalizeKeepsOrder | services/agent-commerce/agent_commerce/receipts.py:82-135 | Finalizing keeps everything, with one receipt per finalized reservation |
| Authorizations.PaidCanBeFinalized | services/agent-commerce/agent_commerce/receipts.py:90-100 | For the amounts mark_paid recorded, no budget check of finalization can fail |
| Authorizations.OpenInsideReserved | services/agent-commerce/agent_commerce/receipts.py:122-131 | An open reservation's amount is inside its authorization's reserved total |
| Authorizations.NothingReservedNothingOpen | services/agent-commerce/agent_commerce/receipts.py:122-131 | Where nothing is reserved nothing is open |
| L402Workers.RunInOrder | services/agent-commerce/agent_commerce/l402.py:190-327 | Every reachable state of any interleaving of executes, reconciliations, revocations and crashes has its caches, limits, receipts and worker facts in order |
| L402Workers.PaysAtMostOnce | services/agent-commerce/agent_commerce/l402.py:219-241 | pay_invoice is called at most once per reservation and per authorization and idempotency key |
| L402Workers.PaidIsAccountedFor | services/agent-commerce/agent_commerce/l402.py:241-268 | A reservation that was paid for is initiated, paid or finalized exactly when it was not released late |
| L402Workers.LateIsLost | services/agent-commerce/agent_commerce/authorization.py:371-384 | A reservation released while its payment was initiated refuses every settlement and has no receipt |
| L402Workers.SameReceiptForAll | services/agent-commerce/agent_commerce/receipts.py:83-88 | All callers that finish one reservation return one stored receipt |
| L402Workers.OneReceiptPerReservation | services/agent-commerce/agent_commerce/receipts.py:83-135 | In every run a reservation has at most one receipt, and only a finalized one has it |
| L402Workers.RunEvolves | services/agent-commerce/agent_commerce/authorization.py:217-229 | Over any part of a run: a non-active authorization stays so and gains no reservation, a paid reservation only becomes finalized with its settlement, finalized and released rows never change |
| L402Workers.TurnEvolves | services/agent-commerce/agent_commerce/l402.py:219-323 | No single step of any worker reactivates an authorization, adds a reservation to a non-active one, or moves a paid reservation elsewhere than finalized |
| L402Workers.TurnKeepsFacts | services/agent-commerce/agent_commerce/l402.py:219-323 | What a worker relies on (its bound hash, its recorded settlement, its receipt) holds after its own step |
| L402Workers.OthersKeepFacts | services/agent-commerce/agent_commerce/l402.py:219-323 | What a worker relies on (its bound hash, its recorded settlement, its receipt) holds after any step of any other worker |
| L402Workers.SetOffStays | services/agent-commerce/agent_commerce/authorization.py:424-431 | A payment that was set off leaves that condition only into a late release |
| L402Workers.AdvanceKeepsPayments | services/agent-commerce/agent_commerce/l402.py:239-241 | Only the worker that moved the reservation from invoice_bound may pay, and nobody may pay again |
| L402Settlement.SettledMoneyIsBookedOnce | services/agent-commerce/agent_commerce/receipts.py:102-135 | Over every run in which a payment hash has one amount, however calls overlap: spent_sats is invoice plus fee over the finalized reservations, each once, and no finalization fails |
| L402Settlement.NoOverlapIsBookedOnce | services/agent-commerce/agent_commerce/receipts.py:102-135 | The same over every run in which execute calls on one key do not overlap, whatever invoices they bring |
| L402Settlement.StoredMeansBookedOnce | services/agent-commerce/agent_commerce/receipts.py:57-135 | What both rest on: spent_sats is right as long as a worker that books holds the amount its row stores |
| L402Settlement.BooksRightExactly | services/agent-commerce/agent_commerce/receipts.py:57-135 | Booking a paid reservation leaves spent_sats right exactly when the caller's invoice amount is the stored one |
| L402Settlement.RebindBooksWrong | services/agent-commerce/agent_commerce/authorization.py:313-324 | A run of two overlapping calls on one key, with one hash and the amounts ten and five: ten is spent and the finalized row stores five |
| L402Settlement.OthersHoldOwn | services/agent-commerce/agent_commerce/authorization.py:307-324 | Only a call on the same key can rebind the invoice of a reservation under a caller that bound it |
| L402Settlement.BookingNeverFails | services/agent-commerce/agent_commerce/receipts.py:82-100 | A worker about to finalize, whose amount is the stored one, cannot be refused |
| L402Settlement.DebitIsStored | services/agent-commerce/agent_commerce/receipts.py:57 | For such a worker, the debit it computes from its own invoice and settlement is that of the stored row |
| L402Settlement.OthersBookNothing | services/agent-commerce/agent_commerce/authorization.py:191-447 | No store call but finalization changes what is booked |
| L402Settlement.ReconcileBooksPaid | services/agent-commerce/agent_commerce/recovery.py:49-80 | One reconciliation of a paid reservation ends with its receipt and makes no payment |
| L402Settlement.ReconcileBooksInitiated | services/agent-commerce/agent_commerce/recovery.py:29-80 | One reconciliation of an initiated reservation ends with its receipt when the provider proves a settlement inside the reserved amount |
| L402Settlement.CeilingHolds | services/agent-commerce/agent_commerce/l402.py:213-217 | No invoice above what every caller was advertised is ever held, bound or paid |
| L402Scope.RunStaysInScope | services/agent-commerce/agent_commerce/authorization.py:230-259 | Every reservation of every run is within its authorization's agents, specialties, call price and reserved limit, and was made before its expiry |
| L402Scope.KeyBindsForever | services/agent-commerce/agent_commerce/authorization.py:206-215 | In every later state a key returns its first call's reservation to that call and refuses any other, changing nothing |
| L402Scope.ReservedForItsCall | services/agent-commerce/agent_commerce/authorization.py:206-215 | The reservation that reserve returns carries the details it was asked for |
| L402Scope.TurnKeepsScope | services/agent-commerce/agent_commerce/authorization.py:230-259 | No step changes an authorization's terms or a reservation's call, amount and time, and a new one is in scope and in time |
| L402Scope.CreateExactly | services/agent-commerce/agent_commerce/authorization.py:81-131 | An authorization is created exactly with a positive call price inside a total, a positive call limit, a route fee that is not negative and an expiry to come, and stores them unused; anything else is refused and changes nothing |
| L402Scope.RunIsSensible | services/agent-commerce/agent_commerce/authorization.py:91-103 | In every run every authorization has such limits |
| L402Scope.RevokedForever | services/agent-commerce/agent_commerce/authorization.py:168-189 | Revoking is for good: whatever runs afterwards, the authorization stays out of force, gains no reservation, and keeps those it had |
| L402Calls.ReserveExactly | services/agent-commerce/agent_commerce/authorization.py:202-296 | Under an unused key a call is reserved exactly when its authorization is active and not expired, covers the agent and the specialty, and has room for the price, the amount, the call and the money; the row says what was asked, for how much and when, and a refusal changes nothing |
| L402Calls.RefusalsAreExact | services/agent-commerce/agent_commerce/authorization.py:217-253 | Each refusal of reserve has its own condition: revoked, expired, out of scope or status, out of a limit, nothing to reserve |
| L402Calls.UnknownIsDenied | services/agent-commerce/agent_commerce/authorization.py:202-219 | A call without a positive price, or on an unknown authorization, is denied and changes nothing, and so is revoking an unknown one |
| L402Calls.BindAnswers | services/agent-commerce/agent_commerce/authorization.py:298-330 | An invoice is bound exactly to an unpaid reservation that covers it and has no other hash; each refusal has its own condition |
| L402Calls.InitiateAnswers | services/agent-commerce/agent_commerce/authorization.py:332-351 | A payment is set off exactly from a bound invoice |
| L402Calls.SettleAnswers | services/agent-commerce/agent_commerce/authorization.py:353-416 | A settlement is recorded exactly on an initiated payment that it fits, and a recorded one is only ever repeated; each refusal has its own condition |
| L402Calls.ReleaseAnswers | services/agent-commerce/agent_commerce/authorization.py:418-447 | A reservation is given back exactly until it is paid, and one that is closed is left alone |
| L402Calls.FinalizeAnswers | services/agent-commerce/agent_commerce/receipts.py:45-135 | A receipt is written exactly for a paid reservation without one and a debit it covers; an existing one is returned and changes nothing; each refusal has its own condition |
| L402Calls.DearCall | services/agent-commerce/agent_commerce/l402.py:213-217 | A call is not begun exactly when its invoice is above the advertised ceiling |
| L402Calls.RefusedCall | services/agent-commerce/agent_commerce/l402.py:219-227 | A call under a new key that cannot be reserved ends at once and touches nothing |
| L402Calls.UnboundCall | services/agent-commerce/agent_commerce/l402.py:234-268 | A call whose invoice does not fit its reservation ends with a released row, nothing paid, and every authorization as it was |
| L402Calls.PaysOnce | services/agent-commerce/agent_commerce/l402.py:219-241 | Every other call pays once, for its own new reservation |
| L402Calls.UnsettledCall | services/agent-commerce/agent_commerce/l402.py:241-268 | A payment without a settlement that fits stays initiated with its money held, and nothing is spent |
| L402Calls.SettledCall | services/agent-commerce/agent_commerce/l402.py:190-327 | In every reachable state, a settlement that fits is booked: one payment, one finalized row with its invoice and settlement, one receipt for invoice plus fee, which is what is spent; the rest of the held amount is free again |
| L402Calls.RepeatedCall | services/agent-commerce/agent_commerce/l402.py:219-238 | A call repeated once its reservation is past paying or given back touches nothing and pays nothing, and gets the receipt exactly if there is one |
| L402Calls.OtherCallUnderKey | services/agent-commerce/agent_commerce/authorization.py:206-215 | Other details under a used key end at once and touch nothing |
| L402Calls.InterruptedCall | services/agent-commerce/agent_commerce/l402.py:219-241 | A call that crashed before its payment is taken up by its retry: one payment, for the same reservation |
| L402Calls.ExceptionsCleanUp | services/agent-commerce/agent_commerce/l402.py:260-268 | Whatever step of the payment raises, in any state, the call goes on to clean up |
| L402Calls.CleanupDecides | services/agent-commerce/agent_commerce/l402.py:261-268 | The cleanup gives the reservation back exactly if it reads that no payment was reached |
| L402Calls.ReconcileChangesNothing | services/agent-commerce/agent_commerce/recovery.py:25-52 | Reconciling a finalized reservation returns its receipt; one never paid for, given back or unknown gives nothing, like an initiated one without a settlement that fits; none changes anything |
| L402Keys.OwnKeysLoseNothing | services/agent-commerce/agent_commerce/l402.py:260-268 | If execute calls on one authorization and key never overlap, every payment made is initiated, paid or finalized, through retries, reconciliations and crashes |
| L402Keys.OnlyCallersSetOff | services/agent-commerce/agent_commerce/authorization.py:332-351 | A reservation reaches its payment only through the execute call that bound it |
| L402Keys.SoloRun | services/agent-commerce/agent_commerce/l402.py:260-268 | Without overlapping calls on a key no release is ever late |
| L402Keys.LateReleaseLosesPayment | services/agent-commerce/agent_commerce/l402.py:260-268 | With two calls on one key, one about to start its payment and one about to release, three steps make a payment that can never be booked |
| L402Keys.OverlapCanLose | services/agent-commerce/agent_commerce/authorization.py:298-330 | From any state: two calls starting on one unused key, the first with an invoice that can be bound and the second with one that then cannot, have a schedule that pays and loses the payment |
| L402Keys.SharedKeyLosesPayment | services/agent-commerce/agent_commerce/authorization.py:424-431 | After any run in which a call would be admitted, sending it twice at once with two such invoices can lose its payment for good |
| L402Clashes.NoClashLosesNothing | services/agent-commerce/agent_commerce/l402.py:219-268 | Over every run in which execute calls start only beside calls on their key that they do not clash with (one payment hash, bindable for all or for none), overlaps included, every payment made is initiated, paid or finalized |
| L402Clashes.NoOverlapIsNoClash | services/agent-commerce/agent_commerce/l402.py:219-268 | Calls that do not overlap do not clash |
| L402Clashes.ClashIsNoPeace | services/agent-commerce/agent_commerce/authorization.py:298-330 | Of two calls starting on an unused key, the first bindable, the condition fails exactly when the second clashes, which is when OverlapCanLose has a losing schedule |
| L402Clashes.StarterHasNoCleaner | services/agent-commerce/agent_commerce/l402.py:260-268 | While calls do not clash, none can start a payment that another is about to release |
| AuthorizationStore.Store.CreateAuthorization | services/agent-commerce/agent_commerce/authorization.py:81-150 | The stored tables and the result are exactly those of Authorizations.Create on the old tables, refusals included |
| AuthorizationStore.Store.RevokeAuthorization | services/agent-commerce/agent_commerce/authorization.py:168-189 | The stored tables and the result are exactly those of Authorizations.Revoke |
| AuthorizationStore.Store.ReserveBudget | services/agent-commerce/agent_commerce/authorization.py:191-296 | The stored tables and the result are exactly those of Authorizations.Reserve, which L402Calls.ReserveExactly pins; the expired status written before the exception is rolled back |
| AuthorizationStore.Store.Bind | services/agent-commerce/agent_commerce/authorization.py:298-330 | The stored tables and the result are exactly those of Authorizations.BindInvoice |
| AuthorizationStore.Store.MarkPaymentInitiated | services/agent-commerce/agent_commerce/authorization.py:332-351 | The stored tables and the result are exactly those of Authorizations.MarkInitiated |
| AuthorizationStore.Store.Settle | services/agent-commerce/agent_commerce/authorization.py:353-416 | The stored tables and the result are exactly those of Authorizations.MarkPaid, replays and conflicts included |
| AuthorizationStore.Store.ReleaseReservation | services/agent-commerce/agent_commerce/authorization.py:418-447 | The stored tables and the result are exactly those of Authorizations.Release |
| AuthorizationStore.Store.FinalizePaidCall | services/agent-commerce/agent_commerce/receipts.py:45-150 | The stored tables and the result are exactly those of Authorizations.Finalize, a receipt that is already there included |
| AuthorizationStore.Database.Rollback | services/agent-commerce/agent_commerce/storage.py:190-201 | An exception restores all tables to what they were at BEGIN |
| AuthorizationStore.Database.Begin | services/agent-commerce/agent_commerce/storage.py:190-195 | BEGIN fixes the tables as they are for a later ROLLBACK |
| AuthorizationStore.Service.PayReserved | services/agent-commerce/agent_commerce/l402.py:233-259 | The try block of execute is a run of one worker from binding to booking or to cleaning up |
| AuthorizationStore.Service.CleanUp | services/agent-commerce/agent_commerce/l402.py:260-268 | The except branch is that worker's cleaning up |
| AuthorizationStore.Service.ExecuteCall | services/agent-commerce/agent_commerce/l402.py:190-327 | execute, run alone, is a run of one worker, so every theorem on runs covers it |
| AuthorizationStore.Service.ReconcilePayment | services/agent-commerce/agent_commerce/recovery.py:12-80 | reconcile_initiated_payment, run alone, is a run of one worker |
| TokenSpend.RateFor | services/agent-commerce/agent_commerce/token_preflight.py:171-182 | The card found covers the route and no covering card took effect later; none only if no card covers it |
| TokenSpend.FirstAffordable | services/agent-commerce/agent_commerce/token_preflight.py:93-111 | The first candidate that is allowed, rated and affordable, and none only if no candidate is |
| TokenSpend.FindKey | services/agent-commerce/agent_commerce/token_preflight.py:44-51 | The reservation of a policy and idempotency key, and none only if there is none |
| TokenSpend.FindEvent | services/agent-commerce/agent_commerce/token_reconcile.py:41-45 | The stored event of a provider and event id, and none only if there is none |
| TokenSpend.FindCharged | services/agent-commerce/agent_commerce/token_reconcile.py:50-55 | The reservation a provider charge answers, and none only if there is none |
| TokenBudget.CostMonotone | services/agent-commerce/agent_commerce/token_rates.py:94-112 | Using no more of any kind of token never costs more |
| TokenBudget.WithinIsNormal | services/agent-commerce/agent_commerce/token_usage.py:53-69 | A call within its estimate is never an anomaly |
| TokenBudget.NeverClamps | services/agent-commerce/agent_commerce/token_usage.py:125-132 | An unfinished call's amount is inside its policy's reserved total, so MAX(0, ...) never clamps |
| TokenBudget.NoCulpritNoOverrun | services/agent-commerce/agent_commerce/token_usage.py:53-56 | If no call of a policy used more tokens than estimated, none cost more |
| TokenBudget.WithinKeepsActive | services/agent-commerce/agent_commerce/token_usage.py:133-138 | On a policy none of whose calls passed its estimate, a call within its own estimate does not pause it |
| TokenBudget.CreateKeepsOrder | services/agent-commerce/agent_commerce/token_policy.py:15-81 | Creating a policy keeps the cached columns equal to the rows and the budget bound |
| TokenBudget.PreflightKeepsOrder | services/agent-commerce/agent_commerce/token_preflight.py:21-157 | Admitting a call keeps the cached columns and the budget bound, with unique keys and estimates inside the policy's limits |
| TokenBudget.SettleKeepsSums | services/agent-commerce/agent_commerce/token_usage.py:125-132 | Settling moves the reserved amount out, the cost in, and any overrun into the bound |
| TokenBudget.SettleKeepsPolicy | services/agent-commerce/agent_commerce/token_usage.py:125-138 | After settling, active still means spent within budget, and a pause for usage still has a call that passed its estimate |
| TokenBudget.FinalizeKeepsOrder | services/agent-commerce/agent_commerce/token_usage.py:40-143 | Reporting usage keeps rows, cached columns, budget bound and events in order, with each provider request id on one reservation |
| TokenBudget.ReconcileKeepsOrder | services/agent-commerce/agent_commerce/token_reconcile.py:41-110 | Storing a provider event keeps rows, cached columns and budget bound in order, and a disputed one has its policy paused |
| TokenBudget.PauseKeepsOrder | services/agent-commerce/agent_commerce/token_policy.py:111-136 | Stopping or pausing a policy keeps rows, cached columns, budget bound and events in order |
| TokenRuns.RunInOrder | services/agent-commerce/agent_commerce/token_preflight.py:43-157 | Every reachable state of any sequence of calls is in order |
| TokenRuns.CommittedWithinBudget | services/agent-commerce/agent_commerce/token_usage.py:125-138 | Reserved, spent and call count are sums over the rows; spent plus reserved passes the budget by no more than finished calls went over their estimates; active means spent within budget |
| TokenRuns.EstimatesKeptBudgetKept | services/agent-commerce/agent_commerce/token_usage.py:133-138 | A policy whose calls all kept to their estimates is never over budget and never paused for usage or rate |
| TokenRuns.DisputeMeansPaused | services/agent-commerce/agent_commerce/token_reconcile.py:95-102 | A disputed event belongs to a reservation of a paused policy |
| TokenRuns.RunEvolves | services/agent-commerce/agent_commerce/token_preflight.py:159-169 | Paused is never left, a paused policy gains no reservation, and finished usage, events and rate cards never change |
| TokenRuns.RefusalsAreExact | services/agent-commerce/agent_commerce/token_preflight.py:112-117 | Route denied, no rate card and over budget arise in exactly three disjoint cases that cover every search without a fitting route |
| TokenRuns.NormalizeKeepsKeys | services/agent-commerce/agent_commerce/token_policy.py:84-96 | Normalizing keeps exactly the keys of the input, one route each, and adds none |
| TokenRuns.FallbacksStayAllowed | services/agent-commerce/agent_commerce/token_policy.py:43-46 | Every stored fallback is an allowed route of its policy |
| TokenRuns.RouteDeniedExactly | services/agent-commerce/agent_commerce/token_preflight.py:84-113 | On a reachable policy the route is denied exactly when it is not allowed and there is no fallback |
| TokenRuns.AdmittedWithinTerms | services/agent-commerce/agent_commerce/token_preflight.py:84-141 | Every admitted call runs on an allowed route at that route's card, within token limits and call limit, reserved at the price of its estimate |
| TokenRuns.KeyBindsForever | services/agent-commerce/agent_commerce/token_preflight.py:44-51 | In every later state a key returns its first request's reservation to that request and refuses any other, changing nothing |
| TokenRuns.EventBindsForever | services/agent-commerce/agent_commerce/token_reconcile.py:41-48 | A replayed provider event gets its stored verdict whatever the tolerance, and one with other data is refused |
| TokenRuns.VerdictIsRight | services/agent-commerce/agent_commerce/token_reconcile.py:77-82 | A new event is orphaned exactly when no reservation answers it, and disputed exactly when it misses the recorded cost by more than the tolerance and one per cent |
| TokenCalls.OneKindCosts | services/agent-commerce/agent_commerce/token_rates.py:94-112 | Tokens of one kind cost their own price for every million, rounded up to the whole unit |
| TokenCalls.MillionsCost | services/agent-commerce/agent_commerce/token_rates.py:94-112 | Whole millions of one kind cost exactly that kind's price, for each of the four kinds |
| TokenCalls.CostsAddUp | services/agent-commerce/agent_commerce/token_rates.py:94-112 | Costs add up, over kinds and over calls, to the rounding of one unit |
| TokenCalls.KeyFixesRoute | services/agent-commerce/agent_commerce/token_common.py:148-149 | Two routes have one key only if they are the same, unless a provider's name holds a colon |
| TokenCalls.PreflightExactly | services/agent-commerce/agent_commerce/token_preflight.py:41-120 | Under an unused key a request is admitted exactly when its policy is in force, its estimate within the token limits, a call is left for the minute, and the asked route or a fallback is allowed, rated and affordable; a refusal changes nothing |
| TokenCalls.AdmittedAsAsked | services/agent-commerce/agent_commerce/token_preflight.py:93-157 | An admitted request is recorded with itself, the asked route if that fits, the card in force, that card's price of the estimate and the time, and its policy holds that cost |
| TokenCalls.PolicyRefusals | services/agent-commerce/agent_commerce/token_preflight.py:53-91 | Each refusal of a policy has its own condition: paused or crowded, out of its period or a token limit, out of budget, a negative estimate |
| TokenCalls.UnknownPolicyIsDenied | services/agent-commerce/agent_commerce/token_preflight.py:53-55 | A request on no policy is denied |
| TokenCalls.AdmittedInTime | services/agent-commerce/agent_commerce/token_preflight.py:159-169 | In every run every call was admitted within its policy's period, on the asked route or a fallback |
| TokenCalls.RateLimitHolds | services/agent-commerce/agent_commerce/token_preflight.py:73-87 | In every run, whatever the clock does, no call is admitted when its policy has already admitted the allowed number in the minute before it |
| TokenCalls.ReportIsBooked | services/agent-commerce/agent_commerce/token_usage.py:15-143 | A well-formed report on an unfinished call is booked exactly when its request id is new with its provider: the usage, its price on the call's own card, the released estimate, the spent cost, one call more, and a pause exactly for runaway or over-budget usage |
| TokenCalls.RunawayIsPaused | services/agent-commerce/agent_commerce/token_usage.py:57-73 | The four anomalies and the budget, with the multiplier's rounding said as an inequality |
| TokenCalls.OtherReportsChangeNothing | services/agent-commerce/agent_commerce/token_usage.py:28-50 | A malformed report is refused, one on an unknown call or without its policy or card denied, and one on a finished call returns that call, all changing nothing |
| TokenCalls.ChargeIsRecorded | services/agent-commerce/agent_commerce/token_reconcile.py:42-110 | A new provider event is recorded with its data and the call its request id names; the verdict, by the tolerance and one per cent, goes on that call's row; a dispute pauses its policy; nothing else changes |
| TokenCalls.NegativeChargeIsRefused | services/agent-commerce/agent_commerce/token_reconcile.py:13-41 | A negative charge or tolerance is refused and changes nothing |
| TokenCalls.NormalizesUnlessBlank | services/agent-commerce/agent_commerce/token_policy.py:84-96 | Routes normalize exactly if none is blank, to none only from none |
| TokenCalls.PolicyIsCreated | services/agent-commerce/agent_commerce/token_policy.py:15-82 | A policy is created exactly with a period, positive limits, a multiplier of at least one and fallbacks among its allowed routes, once for a scope and start, and starts active and unused |
| TokenCalls.CardIsPut | services/agent-commerce/agent_commerce/token_rates.py:13-74 | A rate card is recorded exactly with prices that are not negative, once for a route and a moment |
| TokenCalls.StopAnswers | services/agent-commerce/agent_commerce/token_policy.py:111-136 | A stop needs a reason and a policy, and then pauses that policy alone |
| TokenCalls.StoppedForGood | services/agent-commerce/agent_commerce/token_policy.py:111-136 | An emergency stop is for good: whatever runs afterwards, the policy refuses every new request and has admitted none |
| TokenStore.NormalizeRoutes | services/agent-commerce/agent_commerce/token_policy.py:84-96 | The loop over a list and a set of keys computes the normalized routes, or refuses a blank one |
| TokenStore.Search | services/agent-commerce/agent_commerce/token_preflight.py:93-117 | The candidate loop with its three flags returns the first fitting candidate or the right refusal |
| TokenStore.ValidatePolicy | services/agent-commerce/agent_commerce/token_preflight.py:159-169 | The refusal it returns is the one every request on the policy meets, and when it returns none a request is refused only for its own tokens or the call rate |
| TokenStore.AnomalyReasons | services/agent-commerce/agent_commerce/token_usage.py:61-69 | Some reason is listed exactly when the usage is anomalous |
| TokenStore.Store.AddPolicy | services/agent-commerce/agent_commerce/token_policy.py:15-81 | create_policy as a function of the tables, refusals included |
| TokenStore.Store.StopPolicy | services/agent-commerce/agent_commerce/token_policy.py:111-136 | emergency_stop as a function of the tables |
| TokenStore.Store.PutRateCard | services/agent-commerce/agent_commerce/token_rates.py:13-74 | put_rate_card as a function of the tables |
| TokenStore.Store.CheckRequest | services/agent-commerce/agent_commerce/token_preflight.py:55-82 | The refusals of preflight in order; the call-rate pause is rolled back and leaves no trace |
| TokenStore.Store.PreflightCall | services/agent-commerce/agent_commerce/token_preflight.py:21-157 | preflight as a function of the tables |
| TokenStore.Store.RecordUsage | services/agent-commerce/agent_commerce/token_usage.py:112-138 | The writes of finalize_usage, with the pause |
| TokenStore.Store.FinalizeCall | services/agent-commerce/agent_commerce/token_usage.py:15-143 | finalize_usage as a function of the tables, which TokenCalls.ReportIsBooked and MillionsCost pin |
| TokenStore.Store.ReconcileCharge | services/agent-commerce/agent_commerce/token_reconcile.py:13-110 | reconcile_provider_event as a function of the tables |
| RoyaltyMath.SplitIsOptimal | services/gateway/royalty_money_math.py:59-81 | Among all integer allocations of the pool, of either sign, the split has the least total deviation from the exact shares |
| RoyaltyMath.SplitConservesPool | services/gateway/royalty_money_math.py:59-81 | The payouts sum to the pool |
| RoyaltyMath.SplitKeepsQuota | services/gateway/royalty_money_math.py:59-79 | Each payout is less than one cent from the exact share |
| RoyaltyMath.SplitIsFair | services/gateway/royalty_money_math.py:74-79 | A larger share never receives less, and equal shares differ by at most one cent |
| RoyaltyMath.SplitIgnoresOrder | services/gateway/royalty_money_math.py:74-81 | No payout depends on the order of the splits |
| RoyaltyMath.LeftoverRange | services/gateway/royalty_money_math.py:70-72 | The leftover is at least zero and less than the number of owners |
| RoyaltyMath.ZeroRemainderGetsNothing | services/gateway/royalty_money_math.py:74-79 | An owner whose share is whole cents gets no leftover cent |
| RoyaltyMath.RankIsCountAhead | services/gateway/royalty_money_math.py:74-77 | Sorting by remainder, share and owner puts each owner behind exactly those that precede it |
| RoyaltySplit.PoolsAreNearest | services/gateway/royalty_money_math.py:94-95 | For every gross both pools are its nearest whole cents and nothing else is; of two as near, Python takes the even one and TypeScript the one farther from zero |
| RoyaltyMath.TruncateTowardsZero | services/gateway/royalty_money_math.py:63-66 | A share is rounded towards zero, for negative pools too |
| RoyaltySplit.BothMatchReference | services/transaction/royalty-money-math.ts:26-78 | Both implementations return the reference split for every valid input |
| RoyaltySplit.ImplementationsAgree | services/transaction/royalty-money-math.ts:80-90 | For every gross and every list of shares, repeated owners included: the two agree exactly when no more cents are left than the list has rows, and on an odd half cent over an even one exactly when moreover what the repeated rows are paid makes both refuse |
| RoyaltySplit.PythonPassesExactly | services/gateway/royalty_money_math.py:84-103 | For every pool and list of shares, compute_royalty accepts exactly when the rows that repeat an owner are paid as many cents as could not be handed out |
| RoyaltySplit.TypeScriptPassesExactly | services/transaction/royalty-money-math.ts:80-90 | computeRoyalty accepts exactly when all cents could be handed out and the rows that repeat an owner are paid nothing |
| RoyaltySplit.DistinctOwnersAgree | services/transaction/royalty-money-math.ts:80-90 | Without a repeated owner the two give the same result for every gross except exactly those half cents |
| RoyaltySplit.AgreeExactly | services/transaction/royalty-money-math.ts:62-78 | For every pool and every list of shares the two distributions are equal, with and without the final check, exactly when no more cents are left than the list has rows |
| RoyaltySplit.DictionaryKeepsNoMore | services/gateway/royalty_money_math.py:59-72 | However a list repeats owners, the dictionary never holds more shares than the list |
| RoyaltySplit.JournalAlwaysBalances | services/gateway/royalty_money_math.py:84-103 | The invariant failure at the end of compute_royalty never happens on a valid split |
| RoyaltySplit.DictionariesMatchReference | services/gateway/royalty_money_math.py:59-72 | The dictionaries' leftover and ranking are those of the reference |
| RoyaltySplit.RepeatedOwner | services/transaction/royalty-money-math.ts:26-78 | What each implementation returns for two rows of one owner, before and after the final check, for every pool and shares |
| RoyaltySplit.RepeatedOwnerMayPass | services/gateway/royalty_money_math.py:46-81 | A repeated owner that Python accepts and TypeScript refuses |
| RoyaltySplit.DistributeSplitsPython | services/gateway/royalty_money_math.py:46-81 | distribute_splits, with its dictionaries and its loop over ranked owners, refusals included |
| RoyaltySplit.DistributeSplitsTypeScript | services/transaction/royalty-money-math.ts:26-78 | distributeSplits, with its index loop and the exhausted ordering |
| RoyaltySplit.ComputeRoyaltyPython | services/gateway/royalty_money_math.py:84-103 | compute_royalty with half-even rounding and the final check |
| RoyaltySplit.ComputeRoyaltyTypeScript | services/transaction/royalty-money-math.ts:80-90 | computeRoyalty with half-up rounding and the final check |
| RoyaltySplit.HandOut | services/gateway/royalty_money_math.py:78-79 | Each owner ends with its floor plus one cent for every time it is named |
| Ledger.FirstRefused | services/ledger/ledger-service-core.ts:183-213 | The first refused line and why, and none exactly when every line is on the organization's own account with a positive amount |
| Ledger.PostKeepsBooks | services/ledger/ledger-service-core.ts:139-273 | Posting, with what its row and entry columns refuse, keeps every transaction balanced and every organization at zero |
| Ledger.ReverseKeepsBooks | services/ledger/ledger-service-core.ts:281-352 | Reversing keeps every transaction balanced and every organization at zero |
| Ledger.CreateAccountKeepsBooks | services/ledger/ledger-service-core.ts:57-95 | Opening an account keeps every transaction balanced and every organization at zero |
| Ledger.EveryRunBalances | services/ledger/ledger-service-core.ts:139-352 | Every reachable ledger has each transaction balanced and each organization netting to zero |
| Ledger.ReversalAlwaysPosts | services/ledger/ledger-service-core.ts:281-352 | A transaction of the organization can always be reversed, any number of times |
| Ledger.ReversalCancels | services/ledger/ledger-service-core.ts:281-352 | A reversal takes back what the original put on every account and changes no existing entry |
| Ledger.ReversalIsOpposite | services/ledger/ledger-service-core.ts:281-352 | The reversal nets to the opposite of the original on every account |
| Ledger.JournalOnlyGrows | services/ledger/ledger-service-core.ts:183-213 | No later command rewrites or removes an entry |
| Ledger.KeyPostsOnce | services/ledger/ledger-service-core.ts:140-150 | Posting again under a key changes nothing, in any later state, before and after its stored response expires |
| Ledger.TrialTotalIsOrgNet | services/ledger/ledger-service-core.ts:423-455 | The trial balance, account by account, sums to the organization's entries |
| LedgerCalls.PostExactly | services/ledger/ledger-service-core.ts:117-273 | A posting is taken exactly when it is well asked, balances, fits its row and has a new key and lines on the organization's accounts for amounts that fit; then one transaction, its lines in order and a response for a day are added; a stored response is given again; a refusal changes nothing |
| LedgerCalls.PostRefusals | services/ledger/ledger-service-core.ts:117-273 | Each refusal of a posting has its own condition, and the first line that cannot be inserted is named |
| LedgerCalls.KeyAnswersForever | services/ledger/ledger-service-core.ts:117-273 | After a posting under a key, whatever runs in between, the key is answered for a day with the same transaction and refused from then on, and never changes anything |
| LedgerCalls.ReverseExactly | services/ledger/ledger-service-core.ts:281-352 | A reversal is taken exactly for a transaction of the organization: a new transaction that refers to it, with its lines mirrored and no key, and the original marked |
| LedgerCalls.ReverseRefusals | services/ledger/ledger-service-core.ts:281-352 | In any books, a transaction without entries is not reversed, nor one whose mirrored lines are not taken, whose refusal is passed on; and nothing changes |
| LedgerCalls.OpenExactly | services/ledger/ledger-service-core.ts:57-95 | An account is opened exactly under a code of one to twenty characters that its organization does not have |
| LedgerService.Service.ValidateBalance | services/ledger/ledger-service-core.ts:484-498 | The two accumulated sums accept exactly the lines that balance at a positive total |
| LedgerService.Service.VerifyTransactionBalance | services/ledger/ledger-service-core.ts:500-506 | Accepts exactly a transaction whose stored rows balance at a positive total |
| LedgerService.Service.InsertEntries | services/ledger/ledger-service-core.ts:183-213 | The insert loop fails at the first refused line, else adds every line in order |
| LedgerService.Service.OpenAccount | services/ledger/ledger-service-api.ts:90-96 | createAccount behind its API as a function of the tables: a code of none or more than twenty characters is refused, and so is one that is taken |
| LedgerService.Service.PostTransaction | services/ledger/ledger-service-core.ts:117-273 | postTransaction as a function of the tables, rolled back on every error, with the keys, references and amounts that the request schema and the columns refuse |
| LedgerService.Service.ReverseTransaction | services/ledger/ledger-service-core.ts:281-352 | reverseTransaction as a function of the tables |
| LedgerService.Service.Reconcile | services/ledger/ledger-service-core.ts:423-478 | isBalanced exactly when the trial balance is zero, and the discrepancies are exactly the transactions that disagree |
| LedgerService.Service.ReconcileReachable | services/ledger/ledger-service-core.ts:423-478 | On any ledger the service built, reconcile reports balanced with no discrepancies |
| RoyaltyLedger.EnsureOwners | services/transaction/royalty-service-ledger-client.ts:108-129 | Each id is the account of its payout's owner; the first account that cannot be had ends it |
| RoyaltyLedger.SplitGate | services/transaction/royalty-service-ledger-client.ts:108-129 | The entries of a split balance exactly when gross is positive and equals the payouts |
| RoyaltyLedger.PostSplitEffect | services/transaction/royalty-service-ledger-client.ts:95-140 | A fresh allow or release posting goes through exactly when it is payable and the ledger can store its key and its reference, and then moves each account by exactly its effect |
| RoyaltyLedger.PostHoldEffect | services/transaction/royalty-service-ledger-client.ts:142-183 | A fresh hold goes through exactly when gross is a positive amount the ledger can hold and its key and its reference can be stored, and moves exactly two accounts |
| RoyaltyLedger.HoldThenReleaseIsAllow | services/transaction/royalty-service-ledger-client.ts:95-229 | Hold then release goes through exactly when a direct allow does and the release's own key and reference, each eight characters longer, can be stored; then it leaves every account as the allow would |
| RoyaltyLedger.GateNeedsWholeCents | services/transaction/royalty-service-ledger-client.ts:198-219 | The entries of a valid split pass the balance gate exactly when gross is a positive number of whole cents |
| RoyaltyLedger.PayableExactly | services/transaction/royalty-service-ledger-client.ts:108-129 | A valid split is payable exactly when gross is a positive number of whole cents that the ledger can hold, nobody's payout is zero, and every owner id fits as an account code |
| RoyaltyLedger.LongOwnerNeverPosts | migrations/002_ledger_schema.sql:9-20 | With an owner id that does not fit, no allow or release is posted under any key, in any state |
| RoyaltyLedger.UnfileableNeverPosts | migrations/002_ledger_schema.sql:66-81 | With a key or a reference that the ledger cannot store, no allow or release is posted, in any state, unless the ledger repeats a live response |
| RoyaltyLedger.OneCentForTwo | services/transaction/royalty-service-ledger-client.ts:108-129 | One cent shared by two passes the gate and is refused by the ledger |
| RoyaltyObligations.LedgerMatchesObligations | services/transaction/royalty-service-core.ts:37-255 | Over any run of creates, releases, reversals and their replays in which the ledger is never asked to post under a key it has seen, nor for a row whose texts the service's own table refuses, each account holds exactly the effects of the obligations on record: an allowed or never-released one reversed leaves nothing, a released one reversed leaves its hold |
| RoyaltyObligations.HoldConserves | services/transaction/royalty-service-core.ts:54-124 | Under a fresh key a hold is recorded exactly when the ledger takes it (amount, key and event id) and its row's columns accept it; it keeps every account equal to the effects on record unless the first holds and the second does not |
| RoyaltyObligations.AllowConserves | services/transaction/royalty-service-core.ts:54-124 | Under a fresh key an allow is recorded exactly when its split computes, is payable, can be filed under its key and event id, and its row's columns accept it; it keeps the accounts likewise |
| RoyaltyObligations.ReleaseConserves | services/transaction/royalty-service-core.ts:132-187 | A release keeps every account equal to the effects of the obligations on record, and one of a held row goes through exactly when its split computes and is payable and the lengthened key and event id can be stored |
| RoyaltyObligations.LongOwnerIsNeverReleased | services/transaction/royalty-service-core.ts:132-187 | A held royalty with an owner id that does not fit is never released, under any key |
| RoyaltyObligations.LongEventIsNeverReleased | services/transaction/royalty-service-ledger-client.ts:216-229 | A held royalty with an event id of more than ninety-two characters is never released, under any key, except by repeating a live response |
| RoyaltyObligations.LongEventIsHeldForGood | services/transaction/royalty-service-ledger-client.ts:157-229 | Such an event, up to a hundred characters, is recorded as held, and its release then fails |
| RoyaltyObligations.OutgrownCreateBreaks | services/transaction/royalty-service-core.ts:83-124 | A create that the ledger takes and the service's own table refuses for a text that is too long is not recorded and leaves ledger and obligations at odds, unless its effect is nothing |
| RoyaltyObligations.OutgrownReversalBreaks | services/transaction/royalty-service-core.ts:227-245 | So does a reversal whose event id or key is too long for its row |
| RoyaltyObligations.ReverseConserves | services/transaction/royalty-service-core.ts:189-255 | A reversal whose row can be stored keeps every account equal to the effects of the obligations on record |
| RoyaltyObligations.HoldMovesExactlyWhenUnseen | services/transaction/royalty-service-core.ts:60-68 | A recorded hold moves the ledger exactly when the ledger had not seen its key |
| RoyaltyObligations.AllowMovesExactlyWhenUnseen | services/transaction/royalty-service-core.ts:69-81 | A recorded allow moves the ledger exactly when its key was unseen, or its effect is nothing |
| RoyaltyObligations.ReleaseMovesExactlyWhenUnseen | services/transaction/royalty-service-core.ts:132-187 | A release that is carried out moves the ledger exactly when its key was unseen, or its effect is nothing |
| RoyaltyObligations.ReusedCreateKeyBreaks | services/transaction/royalty-service-core.ts:54-124 | Recording an obligation under a key the ledger has seen leaves ledger and obligations at odds, except for an allow whose effect is nothing |
| RoyaltyObligations.ReusedReleaseKeyBreaks | services/transaction/royalty-service-core.ts:146-187 | Carrying out a release under a key the ledger has seen leaves them at odds exactly when its effect is not nothing |
| RoyaltyKeys.SharedReleaseKey | services/transaction/royalty-service-core.ts:146-187 | Two held obligations alike in organization, amount and owners, released under one key within a day: both are recorded as posted and the ledger moved for one |
| RoyaltyKeys.SharedReleaseKeyIsReachable | services/transaction/royalty-service-core.ts:37-187 | Four calls without a crash, from tables without obligations, reach that and leave ledger and obligations at odds |
| RoyaltyKeys.SharedReleaseKeyFromEmpty | services/transaction/royalty-service-core.ts:37-187 | So from the empty tables, with any two event ids |
| RoyaltyKeys.CrashedHoldRetriedAsAllow | services/transaction/royalty-service-core.ts:54-124 | A hold that crashed after the ledger posted it, retried under its key as an allow, is recorded as posted while the ledger moved as for a hold |
| RoyaltyObligations.CrashedHoldRetry | services/transaction/royalty-service-core.ts:60-124 | A hold that crashed after posting is completed by a retry to the uninterrupted state, until the stored response expires |
| RoyaltyObligations.CrashedAllowRetry | services/transaction/royalty-service-core.ts:69-124 | An allow that crashed after posting is completed by a retry to the uninterrupted state while the stored response lasts, and refused after that |
| RoyaltyObligations.CrashedReleaseRetry | services/transaction/royalty-service-core.ts:146-187 | So is a release that crashed after posting; after the response has expired it is refused, with its row still held |
| RoyaltyObligations.CrashedReversalRepeats | services/transaction/royalty-service-core.ts:222-245 | A reversal retried after a crash posts a second time and takes the effect back twice |
| RoyaltyRuns.RunIsOrderly | services/transaction/royalty-service-core.ts:37-255 | In every run of the service: a blocked obligation has no transaction and no payouts, a held one a transaction, a posted one its computed payouts, a reversed one exactly one reversal; keys are unique |
| RoyaltyRuns.RunMoves | services/transaction/royalty-service-core.ts:37-255 | From any moment of a run to any later one a row keeps its request, its status only goes from held to posted to reversed, and payouts and reversals are only added |
| RoyaltyRuns.KeyBindsForever | services/transaction/royalty-service-core.ts:39-52 | In every later state a used create key returns its obligation to a request of the recorded hash and refuses any other, changing nothing |
| RoyaltyRuns.CreateRecordsTheRequest | services/transaction/royalty-service-core.ts:54-126 | A create under a new key records nothing of its own, or one row with the organization, event, key, hash, amount and shares it was asked for, the status its decision asks for and the payouts of that status; a blocked one leaves the ledger alone |
| RoyaltyRuns.PostedIsNotReleasedAgain | services/transaction/royalty-service-core.ts:147-155 | After an event is posted, every later release returns it or finds it reversed, and changes nothing |
| RoyaltyRuns.ReleasePostsTheRow | services/transaction/royalty-service-core.ts:132-188 | A release that goes through posts the event's row and records its computed payouts; one that does not leaves the service's tables alone |
| RoyaltyRuns.ReverseRecordsTheReversal | services/transaction/royalty-service-core.ts:190-255 | A reversal that goes through marks the row and records the ledger's transaction under its own event and key; one that does not leaves the service's tables alone |
| RoyaltyRuns.ReversedForever | services/transaction/royalty-service-core.ts:224-227 | A reversed event is never released or reversed again |
| RoyaltyRuns.BlockedForever | services/transaction/royalty-service-core.ts:156-159 | A blocked event has no transaction and is never released or reversed |
| RoyaltyRuns.ReversalKeyBindsForever | services/transaction/royalty-service-core.ts:199-212 | In every later state a used reversal key returns the obligation it reversed and changes nothing |
| RoyaltyRuns.BlockAnswers | services/transaction/royalty-service-core.ts:58-60 | A blocked create under a new key is recorded exactly if its row can hold it |
| RoyaltyRuns.HoldAnswers | services/transaction/royalty-service-core.ts:60-69 | A held one exactly if the ledger takes the hold and the row can hold it; the ledger's refusal is passed on, and what it posted stays posted |
| RoyaltyRuns.AllowAnswers | services/transaction/royalty-service-core.ts:70-126 | An allowed one exactly if the split can be computed, the ledger takes it, the row can hold it and everybody is paid something; each refusal is passed on |
| RoyaltyRuns.ReleaseAnswers | services/transaction/royalty-service-core.ts:161-188 | A release of a held event answers likewise |
| RoyaltyRuns.ReverseAnswers | services/transaction/royalty-service-core.ts:229-255 | A reversal of an event with a transaction is recorded exactly if the ledger takes it back and the row can hold its texts |
| RoyaltyRuns.UnknownEvent | services/transaction/royalty-service-core.ts:139-146 | An event that no row names is neither released nor reversed |
| RoyaltyService.LedgerClient.EnsureAccount | services/transaction/royalty-service-ledger-client.ts:72-78 | Finds the account of a code or has it created, with the ledger's refusal passed on |
| RoyaltyService.LedgerClient.PostSplitTransaction | services/transaction/royalty-service-ledger-client.ts:95-140 | postAllow and postRelease, which differ in the debited account, the key and the reference, as a function of the ledger's tables |
| RoyaltyService.LedgerClient.PostHoldTransaction | services/transaction/royalty-service-ledger-client.ts:142-183 | postHold as a function of the ledger's tables |
| RoyaltyService.Service.InsertPayouts | services/transaction/royalty-service-core.ts:113-119 | The payout rows go in up to one that breaks the amount check |
| RoyaltyService.Service.CreateObligation | services/transaction/royalty-service-core.ts:37-130 | createObligation as a function of the service's and the ledger's tables, whose answer to a used key is RoyaltyRuns.KeyBindsForever |
| RoyaltyService.Service.ReleaseObligation | services/transaction/royalty-service-core.ts:132-187 | releaseObligation as a function of the service's and the ledger's tables |
| RoyaltyService.Service.ReverseObligationByEvent | services/transaction/royalty-service-core.ts:189-255 | reverseObligation as a function of the service's and the ledger's tables, with a reversal row that does not fit |
| Payments.FindKey | services/transaction/transaction-service-core.ts:82-86 | The payment of a key, and none only if there is none |
| Payments.RunInOrder | services/transaction/transaction-service-core.ts:78-230 | Every reachable state of concurrent, crashing calls is in order |
| Payments.ChargesAtMostOnce | services/transaction/transaction-service-core.ts:99-142 | The processor is charged at most once per idempotency key |
| Payments.ReturnedIsFinished | services/transaction/transaction-service-core.ts:133-226 | Once the inserting call has returned the payment failed, or succeeded and has a ledger id or a queue row |
| Payments.SamePaymentForAll | services/transaction/transaction-service-core.ts:82-127 | Calls return the same payment exactly when they had the same key |
| Payments.QuietRunFinishesAll | services/transaction/transaction-service-core.ts:78-230 | In a run without crashes, once every call has ended every payment is finished |
| Payments.TurnTouchesOnly | services/transaction/transaction-service-core.ts:133-226 | A call changes no payment but the one it inserted, and never a key |
| PaymentCalls.PaymentsAreAsSent | services/transaction/transaction-service-core.ts:100-121 | In every run every payment is for the key and the amount of one request that was sent |
| PaymentCalls.UsedKeyReturns | services/transaction/transaction-service-core.ts:82-92 | A used key is answered with its payment and nothing is done |
| PaymentCalls.UnstorableIsRefused | services/transaction/transaction-service-core.ts:100-131 | A request that no row can take ends in an exception and nothing is done |
| PaymentCalls.LoserReturnsTheWinners | services/transaction/transaction-service-core.ts:122-130 | A call that loses the race for its key returns the winner's payment and charges nothing |
| PaymentCalls.AsksOnce | services/transaction/transaction-service-core.ts:94-135 | A new request inserts its own pending payment and asks the processor once |
| PaymentCalls.RefusedChargeFails | services/transaction/transaction-service-core.ts:144-164 | Any answer but an acceptance leaves one failed payment with the processor's reference, and nothing to post |
| PaymentCalls.AcceptedChargeSucceeds | services/transaction/transaction-service-core.ts:166-226 | An acceptance leaves one succeeded payment with the processor's reference, linked to its ledger transaction or queued to be posted, never both |
| PaymentMoney.SucceededTookMoney | services/transaction/transaction-service-core.ts:133-171 | In every run SUCCEEDED means that the processor was called exactly once and took the money |
| PaymentMoney.StatusAndMoney | services/transaction/transaction-service-core.ts:133-171 | In every run a SUCCEEDED payment was answered as accepted, and a FAILED one has its money taken exactly when the answer to its charge took the money without saying so |
| PaymentMoney.FailedTookNothing | services/transaction/transaction-service-core.ts:133-165 | Over every run without such an answer, FAILED means that no money was taken |
| PaymentMoney.FailedIsFinal | services/transaction/transaction-service-core.ts:82-171 | A FAILED payment never changes again, is never charged again, and is what every later call of its key returns |
| PaymentMoney.FailedMayBeTaken | services/transaction/transaction-service-core.ts:133-165 | After any run a new key can end FAILED with the money taken, when the answer is lost, unreadable, or still processing |
| Refunds.FindRefund | services/transaction/transaction-service-core.ts:241-245 | The refund of a key, and none only if there is none |
| Refunds.FindAttempt | services/transaction/transaction-service-core.ts:284-314 | The attempt of a key, and none only if there is none |
| Refunds.RunInOrder | services/transaction/transaction-service-core.ts:232-431 | Every reachable state of calls one at a time, crashing at any await, is in order |
| Refunds.ProcessorPhaseKeepsTables | services/transaction/transaction-service-core.ts:325-367 | Attempt statuses say truly whether the processor carried the refund out, except that a FAILED one may have been after a pending answer |
| Refunds.RecordKeepsTables | services/transaction/transaction-service-core.ts:391-407 | Recording a refund keeps the sum within the payment |
| Refunds.SettleKeepsTables | services/transaction/transaction-service-core.ts:417-421 | After the last write of a call, its payment says REFUNDED exactly when its refunds add up to it |
| RefundRuns.RefundsAtMostOncePerKey | services/transaction/transaction-service-core.ts:284-367 | The processor refunds a key at most once, unless it carried a refund of that key out after a pending answer |
| RefundRuns.PendingIsRefundedTwice | services/transaction/transaction-service-processor.ts:205-216 | Whenever it did, the next call of the key has it refunded again |
| RefundRuns.RecordedWithinPayment | services/transaction/transaction-service-core.ts:269-281 | Recorded refunds never pass the payment's amount, and REFUNDED means they equal it |
| RefundRuns.RecordedWasProcessed | services/transaction/transaction-service-core.ts:337-407 | Every recorded refund was carried out under its key |
| RefundRuns.NewKeyGoesThrough | services/transaction/transaction-service-core.ts:283-415 | From its insert on, an untroubled call under a new key makes one processor refund, one reversal and one refund row |
| RefundRuns.UntroubledRefund | services/transaction/transaction-service-core.ts:232-431 | A whole untroubled call under a new key, from its first read to the refund it returns: one attempt, one processor refund, one reversal, one row, and the right status |
| RefundRuns.StatusIsRight | services/transaction/transaction-service-core.ts:391-421 | Over every run without a crash between the refund row and the status write, and outside of those two steps, a payment says REFUNDED exactly when its refunds add up to it |
| RefundRuns.StatusCanLag | services/transaction/transaction-service-core.ts:391-421 | A crash there leaves the status behind exactly when that refund completed the payment |
| RefundRuns.LagIsPermanent | services/transaction/transaction-service-core.ts:258-281 | In every later run the payment stays so: refunded in full and not saying it |
| RefundRuns.LaggingRefuses | services/transaction/transaction-service-core.ts:258-281 | Every later request on it under a new key and for a positive amount is refused |
| RefundRuns.ReversedOnce | services/transaction/transaction-service-core.ts:369-407 | Over every run in which no reversal takes effect behind a lost answer and no crash falls between the reversal and the refund row, each attempt is reversed at most once |
| RefundRuns.LostReversalIsRepeated | services/transaction/transaction-service-core.ts:369-389 | Whenever a reversal took effect behind a lost answer, the retry of its key posts it again |
| RefundRuns.CrashedRecordingRepeats | services/transaction/transaction-service-core.ts:369-407 | Whenever a call ends between its reversal and its refund row, the retry of its key posts the reversal again |
| RefundRuns.CrashAtClosingIsHarmless | services/transaction/transaction-service-core.ts:241-245 | A crash after the refund row repeats nothing: the retry returns the row |
| RefundRuns.ConcurrentRefundsAddUp | services/transaction/transaction-service-core.ts:269-281 | Two calls that both read first record both amounts, whether or not they fit together |
| RefundRuns.ChecksExactly | services/transaction/transaction-service-core.ts:232-281 | The checks of a call write nothing, and it passes them exactly if it names its organization's own payment, which succeeded or is partly refunded, has a processor and a ledger reference, and has the amount left; it returns at once exactly under a recorded key |
| RefundRuns.RowsBelongToTheirAskers | services/transaction/transaction-service-core.ts:247-251 | In every run the processor and the ledger are asked about a payment of the organization that sent the request, and every attempt and refund row is of such a payment |
| RefundRuns.ClosedInBetween | services/transaction/transaction-service-core.ts:304-327 | A call that finds its key's attempt closed by another returns the key's refund if there is one, and asks nobody |
| RefundRuns.RecordedInBetween | services/transaction/transaction-service-core.ts:385-402 | A key that is recorded already is not recorded again |
| RefundKeys.RecordedMatchesProcessed | services/transaction/transaction-service-core.ts:283-407 | If every key is used for one request, each recorded refund is one the processor carried out for the same payment and amount |
| RefundKeys.ReusedKeyRecordsAnother | services/transaction/transaction-service-core.ts:307-407 | A key whose attempt was carried out records what the next request of the key asks without refunding it, which is wrong exactly when payment or amount differs |
| RefundMoney.CarriedOutIsRecordedOrNot | services/transaction/transaction-service-core.ts:283-407 | Over every run with one request per key, what the processor refunded on a payment is what is recorded plus what it carried out without a refund row |
| RefundMoney.CarriedOutWithinPayment | services/transaction/transaction-service-core.ts:267-407 | It stays within the payment over every such run in which each request is sent only while no other key's attempt on the payment is PROCESSING or PROCESSOR_SUCCEEDED and no pending refund is carried out |
| RefundMoney.NewKeyAddsUp | services/transaction/transaction-service-core.ts:267-407 | Otherwise a new key adds its amount: asking for all that is left passes the payment exactly when something is unrecorded |
| RefundMoney.CarelessOverpays | services/transaction/transaction-service-core.ts:267-407 | In any run with one request per key, once an attempt was carried out and left without a refund row, asking for the rest under a new key refunds more than was paid |
| RefundMoney.LostAnswerThenNewKey | services/transaction/transaction-service-core.ts:337-342 | One way there: the processor's answer is lost, and a new key refunds again while one refund is recorded |
| RefundMoney.RefusedReversalThenNewKey | services/transaction/transaction-service-core.ts:369-389 | Another: the ledger refuses the reversal, and a new key refunds again while one refund is recorded |
| RefundExamples.LagIsReachable | services/transaction/transaction-service-core.ts:391-421 | After any run, a fresh request for all that is left can end in a lagging status |
| RefundExamples.LostReversalIsReachable | services/transaction/transaction-service-core.ts:369-389 | After any run, a fresh request can end in two reversals through a lost answer |
| RefundExamples.CrashedRecordingIsReachable | services/transaction/transaction-service-core.ts:369-407 | After any run, a fresh request can end in two reversals through a crash |
| RefundExamples.PendingTwiceIsReachable | services/transaction/transaction-service-core.ts:336-357 | After any run, a fresh request can be refunded twice through a pending answer |
| RefundExamples.SecondKeyOverpays | services/transaction/transaction-service-core.ts:267-407 | From the empty tables: ten paid, and more than ten refunded through a refused reversal and a second key |
| RefundExamples.LostAnswerIsReachable | services/transaction/transaction-service-core.ts:337-342 | After any run, two fresh requests with keys of their own can end in two refunds and one row through a lost answer |
| RefundExamples.RefusedReversalIsReachable | services/transaction/transaction-service-core.ts:369-389 | After any run, two such requests can end so through a refused reversal |
| RefundExamples.ReusedKeyIsReachable | services/transaction/transaction-service-core.ts:307-407 | After any run, a fresh request and the same key for another payment or amount reach such a record |
| RefundExamples.ReusedKeyFromEmpty | services/transaction/transaction-service-core.ts:307-337 | From the empty tables: one key for two payments, the first of which is refunded and the second recorded |
| RefundExamples.TwoWholeRefundsOverpay | services/transaction/transaction-service-core.ts:269-281 | From the empty tables: two calls for all of a payment of ten record more than ten |
| TransactionService.PaymentService.CreatePayment | services/transaction/transaction-service-core.ts:78-230 | createPayment is a run of one worker |
| TransactionService.PaymentService.ChargeInserted | services/transaction/transaction-service-core.ts:133-171 | The charge and the status it leaves are that worker's steps |
| TransactionService.PaymentService.PostCharged | services/transaction/transaction-service-core.ts:173-226 | The ledger post, the link and the queue are that worker's steps |
| TransactionService.RefundService.CheckRequest | services/transaction/transaction-service-core.ts:241-281 | The reads of refundPayment find the key's refund, or let the request on exactly when it names its organization's own payment, which succeeded, has both references, and has that amount left |
| TransactionService.RefundService.ClaimAttempt | services/transaction/transaction-service-core.ts:283-334 | The attempt insert and its status branches are the worker's steps |
| TransactionService.RefundService.CallProcessor | services/transaction/transaction-service-core.ts:336-367 | The processor call and the status it leaves, FAILED for a pending answer, are the worker's steps |
| TransactionService.RefundService.RefundPayment | services/transaction/transaction-service-core.ts:232-431 | refundPayment is a run of the refund worker |
| GatewayClaims.RunInOrder | services/gateway/gateway_store.py:330-467 | Every reachable state of racing, stalling and crashing workers is in order |
| GatewayClaims.HashNeverChanges | services/gateway/gateway_store.py:356-371 | A key's request hash never changes and its row never goes away |
| GatewayClaims.ReplayFindsReceipt | services/gateway/production_main.py:413-421 | No call ends without its stored receipt, and what is returned is of its merchant, key and request |
| GatewayClaims.SameReceiptForAll | services/gateway/gateway_store.py:405-436 | All calls that return a receipt for a key return the same one |
| GatewayLeases.OneOwnerPerKey | services/gateway/gateway_store.py:374-391 | If every worker stops acting before its lease ends, at most one owns a key and the row is its claim, still processing or completed by the write that the worker is about to undo |
| GatewayLeases.CompletedIsFinal | services/gateway/gateway_store.py:438-452 | If moreover no completing write raises after its commit, a completed row never changes again |
| GatewayLeases.LostCompletionFails | services/gateway/production_main.py:455-470 | Whenever a completing write raises after its commit, the same worker's next step fails the completed key within its lease and strands it |
| GatewayLeases.ClaimFindsNoOwner | services/gateway/gateway_store.py:374-391 | A key with an unexpired owner cannot be claimed |
| GatewayLeases.StaleWorkerFailsCompleted | services/gateway/production_main.py:462-470 | A worker past its lease turns a completed key into a failed one |
| GatewayLeases.CrashAfterSaveStrands | services/gateway/production_main.py:450-460 | A crash between saving and completing strands the key |
| GatewayLeases.LostSaveStrands | services/gateway/production_main.py:449-470 | A receipt whose write raises after its commit strands the key |
| GatewayLeases.StrandedForever | services/gateway/production_main.py:423-470 | No later run, whatever happens in it, completes a stranded key |
| GatewayRuns.UntroubledCompletes | services/gateway/production_main.py:392-470 | In every reachable state, a key that can be claimed is completed by an untroubled call exactly when no receipt is stored under it, and then stores and returns the receipt of its payment |
| GatewayRuns.ClaimableExactly | services/gateway/gateway_store.py:330-403 | A key can be claimed exactly when it is neither blank nor too long and is new, or its own request's and failed or past its lease |
| GatewayRuns.ClaimWrites | services/gateway/gateway_store.py:340-403 | A claim writes one row: a new one, or the old one processing from now on, with its event kept |
| GatewayRuns.RefusedAtOnce | services/gateway/gateway_store.py:338-391 | A blank or too long key, one of another request, and one within its lease are refused at once, changing nothing |
| GatewayRuns.CompletedReplays | services/gateway/production_main.py:413-421 | A completed key gives its request the stored receipt again, changing nothing |
| GatewayRuns.ReplaysOwnOnly | services/gateway/gateway_store.py:526-531 | A replay returns the receipt of its event exactly if that is the merchant's own |
| GatewayRuns.UnpaidCall | services/gateway/production_main.py:423-470 | A payment that raises leaves its key failed and stores nothing; an HTTP error that is passed through leaves it claimed |
| GatewayRuns.UnsavedCall | services/gateway/production_main.py:443-470 | A receipt that is not written leaves its key failed and nothing stored |
| GatewayRuns.FailedCompletionStrands | services/gateway/production_main.py:450-470 | An exception from the completing UPDATE strands the key as a crash does |
| GatewayRuns.StrandingIsReachable | services/gateway/production_main.py:392-470 | After any run, a call of a claimable key without a receipt can strand it, by a crash or by an exception |
| GatewayRuns.LostSaveIsReachable | services/gateway/production_main.py:392-470 | After any run, a call of a claimable key without a receipt can strand it through a save that raises after its commit |
| GatewayRuns.LostCompletionIsReachable | services/gateway/production_main.py:392-470 | After any run, such a call can complete its key and then fail it within its lease |
| GatewayRuns.FirstKeyStrandedForever | services/gateway/production_main.py:392-470 | The very first key of an empty gateway can be stranded, and no later run completes it |
| GatewayRuns.StaleFailureIsReachable | services/gateway/gateway_store.py:374-391 | After any run, a worker stalled past its lease can turn a key that another completed to failed |
| GatewayReceipts.ReceiptIsThePayments | services/gateway/gateway_store.py:405-436 | In every run a stored receipt is the one that the payment of its own event answered with |
| GatewayReceipts.ReturnsThePayment | services/gateway/production_main.py:413-460 | Every call that returns, the first one or a replay, returns the answer of the payment made under its key and for its request, and all calls of a key return the same |
| GatewayReceipts.TurnKeepsReceipts | services/gateway/gateway_store.py:405-436 | No step changes a stored receipt, and only the saving worker adds one, with its own payload |
| GatewayService.GatewayStore.ClaimIdempotency | services/gateway/gateway_store.py:330-403 | The claim and the new row as functions of the tables |
| GatewayService.GatewayStore.SaveReceipt | services/gateway/gateway_store.py:405-436 | The insert goes through exactly when no other event has the key's receipt, and then stores it, or only its new payload; GatewayReceipts.ReceiptIsThePayments says what that is |
| GatewayService.GatewayStore.CompleteIdempotency | services/gateway/gateway_store.py:438-452 | The completed row |
| GatewayService.GatewayStore.FailIdempotency | services/gateway/gateway_store.py:454-467 | The failed row |
| GatewayService.ProcessPayment | services/gateway/production_main.py:392-470 | process_payment is a run of one worker: claim, pay, save, complete or fail; it returns that worker's event and receipt |
| AuditLog.EveryBuiltLogVerifies | services/agent-commerce/agent_commerce/storage.py:203-254 | Every log built by append_audit_event passes verify_audit_chain |
| AuditLog.LastHashFixesLog | services/agent-commerce/agent_commerce/storage.py:231-254 | Two verifying logs with one last hash have one length and one material at every position, unless the hash collides on those materials |
| AuditLog.MaterialFixesFields | services/agent-commerce/agent_commerce/storage.py:216-218 | If only payloads may hold the separator, the material determines every field |
| AuditLog.BarsCanMoveBetweenFields | services/agent-commerce/agent_commerce/storage.py:216-218 | Two different events with one material, when a field other than the payload holds the separator |
| AuditLog.AppendKeepsChain | services/agent-commerce/agent_commerce/storage.py:203-229 | Appending to a verifying log leaves a verifying log |
| AuditLog.AppendAdds | services/agent-commerce/agent_commerce/storage.py:203-229 | A log takes an event exactly if its id and its hash are new, and then at the end, with its own fields and the last hash before it |
| AuditLog.EveryEventIsKept | services/agent-commerce/agent_commerce/storage.py:203-229 | Events of different ids, with separators in payloads only, are all in the log in the order of their appending, unless the hash collided on them |
| AuditLog.Store.AppendEvent | services/agent-commerce/agent_commerce/storage.py:203-229 | append_audit_event returns a hash exactly if the id and the hash are new, and then the event is the log's last; otherwise the log is unchanged |
| AuditLog.Store.VerifyAuditChain | services/agent-commerce/agent_commerce/storage.py:231-254 | The loop accepts exactly the logs that verify |

## Left out

- Float arithmetic: the advertised ceilings of `reserve` and `execute` are arguments; `calculate_cost`, the one per cent tolerance and the anomaly multiplier are exact.
- decimal.js keeps twenty significant digits and Python's context twenty-eight; amounts here are exact integers of the smallest stored unit.
- Owner ids are compared character by character; the two languages' own string orders may differ outside the basic plane.
- L402Settlement.SettledMoneyIsBookedOnce: needs one amount per payment hash, which bind_invoice does not enforce; NoOverlapIsBookedOnce does without it, and RebindBooksWrong shows what is left.
- RoyaltyObligations.LedgerMatchesObligations: leaves out runs that have the ledger post under a key it has seen, or for a row its service cannot store, in which it is false: ReusedCreateKeyBreaks, ReusedReleaseKeyBreaks, OutgrownCreateBreaks and OutgrownReversalBreaks say exactly when.
- Refunds.RunInOrder: runs calls one at a time, crashing anywhere; two at once are the subject of RefundRuns.ConcurrentRefundsAddUp.
- RefundMoney.CarriedOutWithinPayment: needs each request to be sent while no other key's attempt is open, which the code does not check; NewKeyAddsUp says what happens otherwise.
- The processor's own idempotency keys: each call it says yes to, or carries out unseen, counts as a refund or a charge of its own.
- GatewayLeases.CompletedIsFinal: needs completing writes that do not raise after their commit; LostCompletionFails shows what happens otherwise.
- GatewayLeases.OneOwnerPerKey: needs every worker to act within its lease, which the code does not enforce; StaleWorkerFailsCompleted shows what happens otherwise.
- An obligation carries one field the table lacks, whether it was posted by a release, so that its ledger effect can be read from its row.
- Attempt and refund rows carry the organization that asked; the tables store the payment's, which RefundRuns.RowsBelongToTheirAskers proves to be the same.
- Event ids of obligations are not unique in the schema; the first row of an event is the one that is found.
- The running balance column of ledger accounts, kept by a trigger, and its overflow beyond fifteen digits; account names, types and currencies.
- Amounts of payments and refunds beyond fifteen digits; in the ledger and the royalty tables such amounts are refused as the columns refuse them.
- Refusals of text columns outside the ledger, the royalty tables and idempotency keys; such an exception ends a call where a crash can.
- Stored ledger responses expire after twenty-four hours; the row of an expired one is replaced, not deleted.
- Retrying a failed refund attempt from two calls at once, and the worker that later posts queued payments.
- Refund amounts finer than a cent, which the conversion to minor units refuses.
- Blank-trimming and lower-casing of provider, model and id strings; inputs are taken as already trimmed.
- A policy's tenant, scope type and scope id are one value here, as the schema's unique constraint uses them.
- Receipt signatures, their verification on replay, request fingerprints (compared as the values they cover), and delivery evidence.
- Row-level security, tenant sessions, HTTP routes, request validation, the fraud and analytics calls.
- Merchant keys and credentials, key rotation, reputation, dashboards, outbox simulators and the mock services: easier members that would add nothing.
- Alerts and audit events written beside each call; the audit chain itself is modelled in AuditLog.
