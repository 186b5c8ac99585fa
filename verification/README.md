# A Dafny model of the Shik Roll backend

The NestJS backend in `services/backend/src/modules` runs a chain of sushi
kitchens: orders, payments, a bonus ledger, kitchen terminals, couriers, cooks
and customer accounts share rows that many requests write at once. This
project models those protocols in Dafny and proves what they keep.

A protocol is a state machine: a `State`, an `Action` for every statement that
other requests can come between ("Left out" names the exceptions), a total
`Next` (a statement that must wait or
is refused changes nothing), `Exec` over a whole schedule, an invariant `Inv`
that every step keeps, and theorems about every run. Where the source changes
objects step by step, a class with the same fields follows the source's
statements; a schedule of everybody else's actions runs between them, and each
method's contract says which run of the machine it is. So what is proved about
runs holds of the methods.

- `Ledger`, `LoyaltyService`: the bonus ledger with its compare-and-set retry
  loop. Interleaved transactions refine one atomic `Post`.
- `Pricing`: line totals, the 30% rule, cashback, receipts, the worker's
  recomputation, over exact reals.
- `Customers`, `CustomerTheorems`, `CustomersService`: checkout, cashback,
  refund, deletion and restore of customer accounts on top of the ledger,
  statement by statement.
- `OrderStatus`, `Orders`, `OrderTheorems`, `OrdersService`: one order row
  written by kitchen, couriers, payments and the worker, with its version, its
  history and the events published about it.
- `Payments`, `PaymentTheorems`, `PaymentsService`: payment attempts and
  webhooks, composed with the order protocol.
- `Cooks`, `CooksService`: cook shifts under the cook's and the terminal's
  locks, and the signing of kitchen history rows.
- `CourierAccounts`, `CourierAccountsService`: deletion, restore, the sweep
  and the login lookup of couriers.
- `Calendar`, `Revenue`, `RevenueReport`: civil dates after section 21.4.1 of
  ECMA-262, the ranges of the revenue report and its sums.
- `Otp`, `OtpService`, `PinLimiter`, `StreamGuard`: one-time codes, the PIN
  limiter and the guard of event streams.
- `Categories`, `EventBus`: the category tree and the fan-out of kitchen
  events.
- `Codes`, `OrderNumbers`: minted SKUs and order numbers.

Time is an integer number of milliseconds that never runs back, UUIDs are
fresh names, credentials are compared as plain values. What the database, the
payment provider, the SMS gateway and the clock answer comes in as parameters
of actions and methods. A row lock is held by a running transaction until it
commits or aborts; a unique index rejects the write that would break it.

Some results show where the code and its promises part:

- The comment on receipt lines says that they sum to the order total. They sum
  to the total plus the bonus discount (`Pricing.ReceiptAddsUp`).
- Two overlapping requests of one courier can win two orders; the claim is
  safe exactly when the courier owns nothing when it is written
  (`OrderTheorems.ClaimIsSafeExactlyWhenIdle`).
- An order of a courier who deleted the account while a claim was running is
  freed by the sweep and won again; the winner is final exactly when no burn
  hits a courier who owns an order (`OrderTheorems.OwnedThroughoutExactly`,
  `OrderTheorems.BurnedOrderIsWonTwice`).
- The worker cancels a completed order with a stop-listed item
  (`OrderTheorems.CompletedIsFinalExactly`).
- A deletion with nothing to burn holds no lock, and the check of a cashback is
  not part of its entry. So a deleted customer can hold points, exactly when a
  checked entry comes after the deletion or between an empty burn and the row
  update (`CustomerTheorems.DeletedHoldsPointsExactly`).
- A sign-in looks for a live and for a frozen account before it inserts. One
  that found the account live inserts a second account on its number after the
  deletion; a frozen number stays with its owner exactly when no such insert
  comes (`CustomerTheorems.FrozenNumberExactly`,
  `CustomerTheorems.OvertakenSignInTakesNumber`).
- A restore without a tenant answers "several tenants" for two deleted rows of
  one tenant (`CourierAccounts.RestoreIsAmbiguousExactly`).
- A limit below one still admits one attempt: zero or less for one-time codes,
  below zero for PINs, where a zero becomes five
  (`Otp.CodesAreGuessedLittle`, `PinLimiter.WindowAdmitsTheBudget`).
- `Date.UTC` moves the years 0 to 99 into the twentieth century, and the week
  that reaches into the year 10000 repeats a label
  (`Revenue.PeriodsContainNowExactly`, `Revenue.WeekDaysAreDistinctExactly`).
- The cycle check sees 32 categories and is not part of the write
  (`Categories.AcceptedMoveBreaksExactly`,
  `Categories.OverlappingMovesMakeACycle`).
- Order numbers carry four characters of the branch id, so two branches that
  share them get one number for their first orders of a day, and the unique
  index refuses the second (`OrderNumbers.NamesakeBranchesCollide`).
- The two event buses differ exactly after a second subscription of an open
  handler or a late end that meets one (`EventBus.BusesAgreeExactly`). The only
  caller passes a new closure each time, so it never meets this
  (`EventBus.FreshHandlersAreGuarded`).

## Model

| member | source | states |
|---|---|---|
| Ledger.PostKeepsConsistent | services/backend/src/modules/loyalty/loyalty.service.ts:352-430 | Any entry, applied or refused, keeps the ledger laws: balance equals the sum of rows, running balances chain, nothing zero or negative, keys unique |
| Ledger.DrainEmptiesTheAccount | services/backend/src/modules/loyalty/loyalty.service.ts:224-243 | A drain is never refused for lack of points, reports exactly the points there were, and leaves a balance of zero |
| Ledger.BalanceAfterChain | services/backend/src/modules/loyalty/loyalty.service.ts:352-430 | Of two successive rows of one customer the later balance is the earlier one plus its own points |
| Ledger.OthersSurviveCommit | services/backend/src/modules/loyalty/loyalty.service.ts:352-430 | A commit leaves every other running transaction with valid reads, locks and pending rows |
| Ledger.NextKeepsInv | services/backend/src/modules/loyalty/loyalty.service.ts:329-430 | Every statement, commit and abort of every transaction keeps the ledger laws and the exclusion of locks and keys |
| Ledger.RunsAreConsistent | services/backend/src/modules/loyalty/loyalty.service.ts:329-430 | After any interleaving of spends, earns, refunds and drains, with retries and aborts, the ledger laws hold |
| Ledger.CommitIsAtomicPost | services/backend/src/modules/loyalty/loyalty.service.ts:352-430 | A commit equals one atomic entry on the tables of that moment, however stale the read it started from |
| Ledger.RunsAreSerial | services/backend/src/modules/loyalty/loyalty.service.ts:329-430 | Every interleaved run ends in the tables of running its committed entries one after another |
| Ledger.ReplayKeepsConsistent | services/backend/src/modules/loyalty/loyalty.service.ts:329-350 | Replaying committed work keeps the laws and never rewrites a row |
| Ledger.LostSwapMeansOthersMoved | services/backend/src/modules/loyalty/loyalty.service.ts:390-430 | A compare-and-set fails only if rows committed since the read changed that customer's total |
| Ledger.WonSwapIsExact | services/backend/src/modules/loyalty/loyalty.service.ts:390-430 | A compare-and-set that succeeds after the balance left and came back still writes the right row |
| Ledger.DuplicateMeansPostedOnce | services/backend/src/modules/loyalty/loyalty.service.ts:329-350 | In every run a transaction turned away by the unique key leaves exactly one committed row of that key, so that answering it as done is right |
| Ledger.LedgerOnlyGrows | services/backend/src/modules/loyalty/loyalty.service.ts:352-430 | Committed rows stay, in place, in every run |
| Ledger.LockFreezesBalance | services/backend/src/modules/loyalty/loyalty.service.ts:352-430 | While one transaction holds an account's row nobody else changes its balance |
| LoyaltyService.PromisedKeepsConsistent | services/backend/src/modules/loyalty/loyalty.service.ts:352-430 | However the retry loop ends, the laws hold and no row was rewritten |
| LoyaltyService.LedgerStore.Attempt | services/backend/src/modules/loyalty/loyalty.service.ts:375-430 | One turn of the loop: either nothing was written because the balance moved, or the entry is the one promised |
| LoyaltyService.LedgerStore.ApplyLedgerEntry | services/backend/src/modules/loyalty/loyalty.service.ts:352-430 | The bounded retry loop with other transactions committing after each read: its result is the promised one of replays and one entry |
| LoyaltyService.LedgerStore.ExpireAllWithinTransaction | services/backend/src/modules/loyalty/loyalty.service.ts:224-243 | The drain applied through the loop, and the burned amount it reports |
| LoyaltyService.RenderIsInjective | services/backend/src/modules/loyalty/loyalty.service.ts:24-37 | Two ledger keys never render to the same string, for ids free of the separator |
| Pricing.RoundsToNearestKopeck | services/backend/src/modules/orders/domain/order-pricing.ts:24-50 | Rounding lands on a kopeck at most half a kopeck away and leaves kopecks alone |
| Pricing.OuterRoundingIsIdentity | services/backend/src/modules/orders/domain/order-pricing.ts:35-46 | Rounding the sum of rounded lines again changes nothing |
| Pricing.SubtotalErrorBound | services/backend/src/modules/orders/domain/order-pricing.ts:35-46 | The subtotal differs from the unrounded sum by at most half a kopeck per line |
| Pricing.KopeckPricesAreExact | services/backend/src/modules/orders/domain/order-pricing.ts:24-50 | With prices in kopecks no rounding happens at all |
| Pricing.OfferMatchesChecks | services/backend/src/modules/loyalty/domain/bonus-rules.ts:21-42 | The offered maximum is exactly the largest spend that the checkout accepts |
| Pricing.SpendLeavesSeventyPercent | services/backend/src/modules/loyalty/domain/bonus-rules.ts:21-29 | An allowed spend leaves at least 70% of the subtotal to pay |
| Pricing.CashbackWithinTotal | services/backend/src/modules/loyalty/domain/bonus-rules.ts:44-52 | Cashback at a rate of at most 100% lies between zero and the total |
| Pricing.KopeckPricesAreStoredAsTheyAre | services/backend/src/modules/orders/orders.service.ts:230-264 | Kopeck prices reach the stored lines unchanged |
| Pricing.RecomputationReproducesCheckout | services/backend/src/modules/queues/order-processing.processor.ts:102-126 | Recomputing the totals any number of times gives back what the checkout stored |
| Pricing.ReceiptAddsUp | services/backend/src/modules/payments/payments.service.ts:355-380 | Receipt lines sum to the total plus the bonus discount, and to the total exactly when no bonus was spent |
| Pricing.NonnegativeLines | services/backend/src/modules/orders/domain/order-pricing.ts:24-46 | Nonnegative prices make a nonnegative subtotal |
| OrderStatus.TransitionsClimb | services/backend/src/modules/orders/domain/order-status-machine.ts:11-24 | Every allowed transition climbs a rank, so there is no cycle, and terminal statuses have no way out |
| Customers.NextKeepsInv | services/backend/src/modules/customers/customers.service.ts:114-227 | Every statement of sign-ins, checkouts, status changes, cashbacks, refunds, deletions, restores and phone releases keeps books, numbers and requests in order |
| Customers.RunsKeepInv | services/backend/src/modules/customers/customers.service.ts:114-227 | The account laws hold after every interleaving of these statements |
| CustomerTheorems.DeletedHoldsPointsExactly | services/backend/src/modules/loyalty/loyalty.service.ts:255-321 | In every reachable state a deleted customer from whom nothing was taken since the burn holds points exactly when a checked cashback or refund was entered, since that burn, after the deletion or between a burn of nothing and the row update; and holds none without such an entry |
| CustomerTheorems.DeletedNeverHoldsPoints | services/backend/src/modules/customers/customers.service.ts:91-95 | After every run without late entries since the burn a deleted customer has a balance of zero, no phone and no name |
| CustomerTheorems.DeletedHoldsItsStrays | services/backend/src/modules/customers/customers.service.ts:136-155 | What a deleted customer holds is exactly the sum of the rows since the burn |
| CustomerTheorems.EntriesWereChecked | services/backend/src/modules/loyalty/loyalty.service.ts:255-321 | Every entry under way passed its check at an earlier moment of the run, when the customer was not deleted |
| CustomerTheorems.CashbackSlipsIn | services/backend/src/modules/loyalty/loyalty.service.ts:374-398 | From every state with nothing to burn: a cashback checked and entered between burn and row update leaves the deleted customer with its points |
| CustomerTheorems.CashbackComesLate | services/backend/src/modules/loyalty/loyalty.service.ts:255-288 | From every state: a cashback checked before a deletion and entered after it leaves the deleted customer with its points |
| CustomerTheorems.BurnGoesOn | services/backend/src/modules/loyalty/loyalty.service.ts:224-243 | The burn of a deletion is never refused for lack of points: it waits for another deletion of the customer or goes on, with a row exactly if there is a balance |
| CustomerTheorems.DeletionBurns | services/backend/src/modules/customers/customers.service.ts:136-155 | At the commit a burn with a row has taken exactly the balance of that moment, as one atomic drain; a burn of nothing leaves exactly what was entered since |
| CustomerTheorems.SpendIsKeptOrReturned | services/backend/src/modules/loyalty/loyalty.service.ts:189-206 | In every run an order's spend and refund points sum to minus its spend or to zero, never anything else |
| CustomerTheorems.EarnAtMostOnce | services/backend/src/modules/loyalty/loyalty.service.ts:255-288 | In every run two cashback rows are for two orders, each for the customer who placed the order |
| CustomerTheorems.DeletedGainNoRows | services/backend/src/modules/loyalty/loyalty.service.ts:245-321 | A step that is not a late entry appends no row to a deleted customer who holds nothing |
| CustomerTheorems.NobodyElseArrivesExactly | services/backend/src/modules/customers/customers.service.ts:171-193 | While a number is parked a step brings somebody else to it exactly if it is the insert of a sign-in that is past its looks |
| CustomerTheorems.FrozenNumberExactly | services/backend/src/modules/auth/auth.service.ts:176-206 | Through every run inside the window and without its restore a frozen number stays with its owner alone exactly when no sign-in past its looks inserts the number |
| CustomerTheorems.StealersLookedBefore | services/backend/src/modules/auth/auth.service.ts:176-200 | Such a sign-in was past its looks when the number was frozen; a later one is offered the restore |
| CustomerTheorems.UpsertKeepsRestoreExactly | services/backend/src/modules/auth/auth.service.ts:202-206 | An insert makes a possible restore impossible exactly if it is of the parked number |
| CustomerTheorems.OvertakenSignInTakesNumber | services/backend/src/modules/auth/auth.service.ts:173-206 | From every state: a sign-in finds the account live, its deletion commits, the sign-in inserts a second account on the frozen number, and the restore is refused |
| CustomerTheorems.SleepsThroughRuns | services/backend/src/modules/customers/customers.service.ts:171-227 | Through any run without its restore and without late entries, a deleted account keeps its one parked number or loses it to the release, and its ledger does not move |
| CustomerTheorems.DeleteThenRestore | services/backend/src/modules/customers/customers.service.ts:96-227 | Any run up to a deletion, any run after it, the write of a restore: same row, same phone, balance zero, ledger as the deletion left it; refused exactly if somebody else holds the number |
| CustomerTheorems.RestoreStaysOpen | services/backend/src/modules/customers/customers.service.ts:195-227 | Inside the window, with nobody else on the number at the deletion: nobody else comes to it exactly when no sign-in past its looks inserts it, and then the restore cannot be refused |
| CustomersService.AccountStore.ConfirmDeletion | services/backend/src/modules/customers/customers.service.ts:96-169 | The confirmed deletion with other requests before the count, the burn and the row update: each answer with its condition, and the run it is |
| CustomersService.DeletionOutcome | services/backend/src/modules/customers/customers.service.ts:136-160 | Points reported as burned are the balance up to the commit and nothing is left; after a burn of nothing the ledger is as the others left it |
| CustomersService.AccountStore.FindFrozenByPhone | services/backend/src/modules/customers/customers.service.ts:171-193 | The search returns the newest deleted account that parks the phone inside the window, or none if there is none |
| CustomersService.AccountStore.Unfreeze | services/backend/src/modules/customers/customers.service.ts:195-227 | The restore, with other requests between its read and its write, returns the parked phone or is refused, each refusal with its condition |
| CustomersService.AccountStore.CompleteSignIn | services/backend/src/modules/auth/auth.service.ts:173-209 | A verified code leads to the live account, the restore offer, or a new account, with other requests before the second look and before the insert |
| CustomersService.AccountStore.ReleasePendingPhones | services/backend/src/modules/queues/customer-maintenance.processor.ts:81-99 | Exactly the phones parked longer than the window are released, and counted |
| CustomersService.AccountStore.EarnCashback | services/backend/src/modules/loyalty/loyalty.service.ts:255-288 | The check on a read and the entry in a transaction of its own, with other requests in between |
| CustomersService.AccountStore.RefundOnCancel | services/backend/src/modules/loyalty/loyalty.service.ts:297-321 | The same for the return of a spend |
| CustomersService.EntryOutcome | services/backend/src/modules/loyalty/loyalty.service.ts:329-342 | An entry that did not have to wait ends with the row of its key in the ledger, whoever wrote it |
| Orders.AllowedRowsAreEdges | services/backend/src/modules/orders/domain/order-status-machine.ts:11-24 | Every history row an actor may write, claims and the worker apart, is an edge of the table of transitions |
| Orders.NextKeepsInv | services/backend/src/modules/kitchen/kitchen.service.ts:151-213 | Every step of kitchen, couriers, payments, worker, sweep and publisher keeps history, versions and events in order |
| Orders.NextKeepsOwned | services/backend/src/modules/couriers/couriers.service.ts:495-609 | Every step but the burn of a courier who owns an order keeps the owner of every order tied to the claim in its history |
| Orders.NextKeepsExclusive | services/backend/src/modules/couriers/couriers.service.ts:495-609 | With one request at a time per courier, every step keeps one delivery per courier and none for deleted couriers |
| OrderTheorems.HistoryTellsTheStatus | services/backend/src/modules/kitchen/kitchen.service.ts:151-213 | In every reachable state the version counts the history rows, which form a chain from the initial to the current status |
| OrderTheorems.PaymentMovesFirstOrNever | services/backend/src/modules/payments/payments.service.ts:298-321 | A payment moves an order only as its very first change |
| OrderTheorems.EventsAreDetermined | services/backend/src/modules/kitchen/kitchen-events.service.ts:164-184 | Order and version determine type and payload of the published event, however late it was read |
| OrderTheorems.VersionsClimb | services/backend/src/modules/kitchen/kitchen-events.service.ts:164-184 | Over any run the version never falls, the history is only extended, and an unchanged version means an unchanged event |
| OrderTheorems.StepFollows | services/backend/src/modules/kitchen/kitchen.mapper.ts:14-38 | A step leaves history, version, status and event of an order alone, or adds one history row and one to the version |
| OrderTheorems.TerminalStepIsIdle | services/backend/src/modules/queues/order-processing.processor.ts:79-100 | A finished order is moved only by the worker's stop-list check |
| OrderTheorems.TerminalIsFinal | services/backend/src/modules/orders/domain/order-status-machine.ts:11-24 | Without worker steps a completed or cancelled order keeps its status for ever |
| OrderTheorems.CompletedIsFinalExactly | services/backend/src/modules/queues/order-processing.processor.ts:79-100 | A completed order stays completed exactly as long as the worker never finds it stop-listed, and is cancelled otherwise |
| Orders.BurnKeepsOwnedExactly | services/backend/src/modules/queues/courier-maintenance.processor.ts:86-121 | Burning a deleted courier keeps the owner of every order tied to its claim exactly when the courier owns no order |
| OrderTheorems.RunsKeepOwned | services/backend/src/modules/couriers/couriers.service.ts:560-609 | Only the claimant of an order starts and ends its delivery, in every run whose effective burns are of couriers who own nothing |
| OrderTheorems.OwnedThroughoutExactly | services/backend/src/modules/couriers/couriers.service.ts:560-609 | Owner and claim stay tied all along a run exactly when every effective burn is of a courier who owns nothing |
| OrderTheorems.WonOnceForAll | services/backend/src/modules/couriers/couriers.service.ts:526-558 | In such runs an order is won at most once, its winner never changes, and only the winner delivers it |
| OrderTheorems.BurnedOrderIsWonTwice | services/backend/src/modules/queues/courier-maintenance.processor.ts:86-121 | Why the condition is needed: a claim overlaps the claimant's own deletion, the sweep frees the order, and a second courier wins it |
| OrderTheorems.WonTwiceFromTheStart | services/backend/src/modules/queues/courier-maintenance.processor.ts:86-121 | The same as one run from the empty tables |
| OrderTheorems.OneEachExactly | services/backend/src/modules/couriers/couriers.service.ts:511-545 | A courier owns at most one READY or ON_WAY order all along a run exactly when every claim is written by a courier who owns nothing at that moment |
| OrderTheorems.DeletedOwnNoneExactly | services/backend/src/modules/couriers/couriers.service.ts:511-545 | A self-deleted courier owns no READY or ON_WAY order all along a run exactly when every claim is won by a courier who is not deleted at that moment |
| OrderTheorems.SoberRunsKeepExclusive | services/backend/src/modules/couriers/couriers.service.ts:495-609 | Runs in which no courier overlaps its own requests keep one delivery per courier |
| OrderTheorems.OneDeliveryPerCourier | services/backend/src/modules/couriers/couriers.service.ts:511-524 | In such runs a courier owns at most one READY or ON_WAY order, and a self-deleted one owns none |
| OrderTheorems.ClaimIsSafeExactlyWhenIdle | services/backend/src/modules/couriers/couriers.service.ts:511-545 | A claim keeps one delivery per courier exactly when the courier owns nothing at the moment of the write |
| OrderTheorems.OverlappingClaimsBothWin | services/backend/src/modules/couriers/couriers.service.ts:511-545 | Two overlapping claims of one courier that both count first are both won |
| OrdersService.OrderDesk.UpdateOrderStatus | services/backend/src/modules/kitchen/kitchen.service.ts:122-219 | The terminal's transition under status and version: every answer with its condition and the state it leaves |
| OrdersService.OrderDesk.ClaimOrder | services/backend/src/modules/couriers/couriers.service.ts:496-558 | The claim in its three phases: won on an unassigned READY order, each refusal with its condition |
| OrdersService.OrderDesk.TransitionOwnOrder | services/backend/src/modules/couriers/couriers.service.ts:561-609 | ON_WAY and COMPLETED by the owner only, from the expected status only, each refusal with its condition |
| OrdersService.OrderDesk.ProcessOrder | services/backend/src/modules/queues/order-processing.processor.ts:59-129 | The job cancels a stop-listed order, leaves a cancelled one, otherwise writes totals that no event shows, and asks for the refund exactly when the order stands cancelled by the worker, on every retry |
| OrdersService.OrderDesk.PublishOrderChanged | services/backend/src/modules/kitchen/kitchen-events.service.ts:164-184 | Publishes the event of the row as it is now, or nothing for an unknown order |
| OrdersService.OrderDesk.DeleteOwnAccount | services/backend/src/modules/couriers/couriers.service.ts:283-349 | Self-deletion succeeds only with the PIN and, at the moment of the write, without an order in hand |
| Payments.NextKeepsInv | services/backend/src/modules/payments/payments.service.ts:59-211 | Every step of createPayment and of the webhooks keeps the attempts of an order in line |
| Payments.AttemptsFormALine | services/backend/src/modules/payments/payments.service.ts:72-138 | The attempt keys of an order are exactly 1..n and all but the last are canceled |
| Payments.SettledStaysSettled | services/backend/src/modules/payments/payments.service.ts:182-208 | The first effective webhook decides a payment for good, whatever arrives later and in which order |
| Payments.PaidAtMostOnce | services/backend/src/modules/payments/payments.service.ts:72-138 | At most one payment of an order ever succeeds |
| PaymentTheorems.SecondSettlementIsIdle | services/backend/src/modules/payments/payments.service.ts:182-208 | In every run: once a verified event for a payment has been applied, a further one, applied after whatever kitchen, worker and other payments did in between, changes neither payments nor orders |
| Payments.NoConfirmationWithoutPayment | services/backend/src/modules/payments/payments.service.ts:283-345 | An order that payments confirmed has a succeeded payment, in every run |
| PaymentsService.Newest | services/backend/src/modules/payments/payments.service.ts:72-86 | The newest attempt of an order with a status, or none if there is none |
| PaymentsService.PaymentDesk.ReadOrder | services/backend/src/modules/payments/payments.service.ts:59-91 | The read goes on to the provider exactly when all attempts are canceled, with the next number |
| PaymentsService.PaymentDesk.InsertOrYield | services/backend/src/modules/payments/payments.service.ts:110-138 | The attempt is inserted, or the pending winner of its key is returned |
| PaymentsService.PaymentDesk.ApplySettlement | services/backend/src/modules/payments/payments.service.ts:283-345 | A settlement writes the payment and moves the order in one transaction |
| PaymentsService.PaymentDesk.CreatePayment | services/backend/src/modules/payments/payments.service.ts:59-145 | The whole request with other requests before the provider's reply, the insert and the settlement of a payment that comes back paid |
| PaymentsService.PaymentDesk.HandleWebhook | services/backend/src/modules/payments/payments.service.ts:153-211 | A verified event settles a pending payment, acknowledges a repeated one, and ignores everything else |
| Cooks.NextKeepsInv | services/backend/src/modules/cooks/cooks.service.ts:46-95 | Every statement of sign-ins, edits, sign-outs, timeouts and kitchen writes keeps the matching and the locks |
| Cooks.ShiftsMatchCooksToTerminals | services/backend/src/modules/cooks/cooks.service.ts:80-95 | At every commit open shifts pair cooks and terminals one to one, belong to active cooks, and ended ones ended soundly |
| Cooks.SignInLeavesOneShift | services/backend/src/modules/cooks/cooks.service.ts:88-94 | A committed sign-in leaves its shift as the only open one of the cook and of the terminal |
| Cooks.EditEndsEveryShift | services/backend/src/modules/cooks/cooks.service.ts:46-52 | Once a deactivation or a new PIN commits the cook has no open shift |
| Cooks.EndedShiftsStayEnded | services/backend/src/modules/cooks/cooks.service.ts:89-101 | A shift never changes cook, terminal, branch or start, and once ended keeps its ending |
| Cooks.CookRowsAreWrittenOnShift | services/backend/src/modules/kitchen/kitchen.service.ts:160-213 | Every history row naming a cook was committed while that cook's shift at that terminal and branch was open, found unexpired by the same transaction, and the cook active |
| CooksService.ShiftDesk.LockAndRecheck | services/backend/src/modules/cooks/cooks.service.ts:80-87 | Cook lock, terminal lock, second look: the run of these statements among others, and its outcome |
| CooksService.ShiftDesk.EndTimedOut | services/backend/src/modules/cooks/cooks.service.ts:88-89 | Ends the shifts of cook and terminal that are eight hours old, unless a lock is held |
| CooksService.ShiftDesk.FindExisting | services/backend/src/modules/cooks/cooks.service.ts:90-92 | Finds an open shift of this cook at this terminal if there is one |
| CooksService.ShiftDesk.Replace | services/backend/src/modules/cooks/cooks.service.ts:93-94 | Ends every other open shift and opens the new one |
| CooksService.ShiftDesk.Login | services/backend/src/modules/cooks/cooks.service.ts:54-100 | The whole sign-in as one run among other transactions, with each answer |
| CooksService.ShiftDesk.Update | services/backend/src/modules/cooks/cooks.service.ts:40-53 | The edit of a cook as one run among other transactions, with each answer |
| CooksService.ShiftDesk.Logout | services/backend/src/modules/cooks/cooks.service.ts:101 | Ends the cook's own open shift and no other |
| CooksService.ShiftDesk.SignRow | services/backend/src/modules/kitchen/kitchen.service.ts:160-213 | A row is signed exactly after its shift was locked and found the cook's own, open and fresh; otherwise nothing is written |
| CooksService.ShiftDesk.Verify | services/backend/src/modules/cooks/cook-session.service.ts:38-56 | A session is admitted exactly for an open, fresh shift that matches its token, an active cook and terminal; an expired one is closed at its eighth hour |
| CourierAccounts.NextKeepsInv | services/backend/src/modules/couriers/couriers.service.ts:140-349 | Every read and write of accounts keeps live numbers unique and burned rows old |
| CourierAccounts.OnlyOldDeletionsBurn | services/backend/src/modules/queues/courier-maintenance.processor.ts:86-121 | In every run no two live rows of a tenant share a number, and what was burned had been deleted for more than seven days |
| CourierAccounts.RestoredRowsSurviveTheSweep | services/backend/src/modules/queues/courier-maintenance.processor.ts:95-111 | A row that was live at some moment is burned only by a sweep whose cutoff is later, so a row restored after the read survives |
| CourierAccounts.LiveRowsOutliveTheWindow | services/backend/src/modules/queues/courier-maintenance.processor.ts:86-121 | A live row is still there a week later, whatever happens to it |
| CourierAccounts.RevivalIsInTheWindow | services/backend/src/modules/couriers/couriers.service.ts:186-218 | A row comes back to life only inside the window its request read, and never beside a live namesake |
| CourierAccounts.RestoreUndoesDeletion | services/backend/src/modules/couriers/couriers.service.ts:312-336 | A self-deletion, any run inside the window that leaves the row alone, and the write of a restore, by PIN or from the panel: the row is what it was, unless the index refuses because a live namesake came in between |
| CourierAccounts.LoginLookupAgreesWithTheTable | services/backend/src/modules/tenant/resolve-login-row.ts:32-56 | Whichever two rows the query returns, the answer is unknown, the row or ambiguous exactly when no, one or several active tenants own a live row with the number |
| CourierAccounts.DeclaredLoginIsExact | services/backend/src/modules/couriers/couriers.service.ts:88-103 | With a declared tenant the lookup finds the one live row or none |
| CourierAccounts.RestoreIsAmbiguousExactly | services/backend/src/modules/couriers/couriers.service.ts:151-164 | A restore without a tenant answers ambiguous exactly when several deleted rows are in the window; this is right of the tenants exactly when there is at most one row or at least two tenants |
| CourierAccounts.RestoreAmbiguityInOneTenant | services/backend/src/modules/couriers/couriers.service.ts:151-164 | Two deleted rows of one tenant for which the restore answers "several tenants" |
| CourierAccounts.DeclaredRestoreTakesTheLatest | services/backend/src/modules/couriers/couriers.service.ts:165-175 | With a declared tenant the restore takes the row deleted last |
| CourierAccountsService.CourierDesk.AddCourier | services/backend/src/modules/couriers/staff-couriers.controller.ts:71-87 | A new courier is refused exactly when a live courier of the tenant has the number |
| CourierAccountsService.CourierDesk.AuthenticateByPin | services/backend/src/modules/couriers/couriers.service.ts:66-122 | A session only for the one live, active row with the right PIN; ambiguous exactly for several rows |
| CourierAccountsService.CourierDesk.DeleteOwnAccount | services/backend/src/modules/couriers/couriers.service.ts:283-349 | Deletion of the account with the PIN checked on a read and the orders on the write |
| CourierAccountsService.CourierDesk.WriteRestore | services/backend/src/modules/couriers/couriers.service.ts:186-218 | The guarded write: done, number taken or refused, each exactly under its condition |
| CourierAccountsService.CourierDesk.RestoreAccount | services/backend/src/modules/couriers/couriers.service.ts:140-222 | The courier's restore, its lookup and its write under one cutoff |
| CourierAccountsService.CourierDesk.RestoreFromPanel | services/backend/src/modules/couriers/staff-couriers.controller.ts:118-160 | The panel's restore within the brand |
| CourierAccountsService.CourierDesk.ExpireDeletedCouriers | services/backend/src/modules/queues/courier-maintenance.processor.ts:86-121 | The sweep's loop with other requests between its deletes; its count is the rows it burned |
| Calendar.DateOfDay | services/backend/src/modules/staff-analytics/analytics.service.ts:13-17 | Every day has a valid date that names it |
| Calendar.DayOfDate | services/backend/src/modules/staff-analytics/analytics.service.ts:13-17 | Every valid date is the date of its day |
| Calendar.YearOrder | services/backend/src/modules/staff-analytics/analytics.service.ts:13-33 | Days are ordered as their years |
| Calendar.LabelRoundTrip | services/backend/src/modules/staff-analytics/analytics.service.ts:11 | Reading a four-digit label gives back its date |
| Calendar.LabelOfKeyed | services/backend/src/modules/staff-analytics/analytics.service.ts:36-42 | Writing the date that was read gives back the label |
| Calendar.KeysAreDistinct | services/backend/src/modules/staff-analytics/analytics.service.ts:11 | No two days of the four-digit years share a label |
| Calendar.CenturyMoves | services/backend/src/modules/staff-analytics/analytics.service.ts:16 | A date in the years 0 to 99 is taken nineteen centuries later |
| Revenue.EchoExactly | services/backend/src/modules/staff-analytics/analytics.service.ts:36-42 | The echo check passes exactly for calendar dates |
| Revenue.SortsBefore2000 | services/backend/src/modules/staff-analytics/analytics.service.ts:39-41 | A date sorts before 2000-01-01 exactly when its year is before 2000 |
| Revenue.ParseCustomDate | services/backend/src/modules/staff-analytics/analytics.service.ts:36-43 | The checks on the text accept exactly the calendar dates from 2000 on, whether or not the engine rolls days over |
| Revenue.ListDays | services/backend/src/modules/staff-analytics/analytics.service.ts:47-48 | The loop lists the days of the span in order |
| Revenue.RevenueRange | services/backend/src/modules/staff-analytics/analytics.service.ts:13-51 | The range as it is computed, for every period and every error |
| Revenue.InstantsByDay | services/backend/src/modules/staff-analytics/analytics.service.ts:49 | An instant is in the range exactly when its Moscow day is in the span |
| Revenue.TodayIsToday | services/backend/src/modules/staff-analytics/analytics.service.ts:15-17 | Today is the one day that is today, exactly outside the years 0 to 99 |
| Revenue.YesterdayMeetsToday | services/backend/src/modules/staff-analytics/analytics.service.ts:24 | Yesterday is the day that ends where today begins |
| Revenue.WeekStartsOnMonday | services/backend/src/modules/staff-analytics/analytics.service.ts:25-27 | A week is seven days from a Monday and contains today exactly outside the years 0 to 99 |
| Revenue.MonthIsWhole | services/backend/src/modules/staff-analytics/analytics.service.ts:28-31 | A month is all the days of its calendar month and no others |
| Revenue.YearIsWhole | services/backend/src/modules/staff-analytics/analytics.service.ts:32-34 | A year is all the days of its calendar year and no others |
| Revenue.PeriodsContainNowExactly | services/backend/src/modules/staff-analytics/analytics.service.ts:13-34 | Today, week, month and year contain now exactly when the Moscow year is not one of 0 to 99 |
| Revenue.DaysAreDistinct | services/backend/src/modules/staff-analytics/analytics.service.ts:47-48 | No day is listed twice |
| Revenue.InstantsFallOnOneDay | services/backend/src/modules/staff-analytics/analytics.service.ts:47-49 | Every instant of the range falls on exactly one listed day, its Moscow date |
| Revenue.NamedSpansAreFourDigit | services/backend/src/modules/staff-analytics/analytics.service.ts:13-34 | Day, month and year of a four-digit year list four-digit dates only |
| Revenue.WeekDaysAreDistinctExactly | services/backend/src/modules/staff-analytics/analytics.service.ts:25-27 | A week lists each day once exactly when it ends by the end of 9999 |
| Revenue.CustomDatesAreLabels | services/backend/src/modules/staff-analytics/analytics.service.ts:36-43 | A custom date is accepted exactly when it is the label of a day from 2000-01-01 on |
| Revenue.CustomPeriodIsItsDates | services/backend/src/modules/staff-analytics/analytics.service.ts:44-46 | A custom period is accepted exactly when its dates are and it has 1 to 3660 days |
| RevenueReport.GroupsAddUp | services/backend/src/modules/staff-analytics/analytics.service.ts:77-88 | Groups over keys that cover all the orders add up to all the orders |
| RevenueReport.ByDayIsGrouped | services/backend/src/modules/staff-analytics/analytics.service.ts:86-113 | The zero-filled list by day is the grouping over the listed days |
| RevenueReport.ReportAddsUp | services/backend/src/modules/staff-analytics/analytics.service.ts:86-113 | Grouped rows, list by day and groups by branch add up to the same total and count |
| Otp.NextKeepsInv | services/backend/src/modules/auth/auth.service.ts:86-174 | Every step of sends and verifications keeps the accounts of guesses and the spacing of slots |
| Otp.CodesAreGuessedLittle | services/backend/src/modules/auth/auth.service.ts:142-174 | A stored code meets at most max(1, limit) wrong guesses, is accepted at most once, and neither after it expires |
| Otp.SlotsAreSpaced | services/backend/src/modules/auth/otp-store.service.ts:87-102 | Two slots of a phone begin at least a cooldown apart unless the first was given back |
| Otp.StaleReleaseFreesNothing | services/backend/src/modules/auth/otp-store.service.ts:97-102 | A slot stays until it is over unless the send that took it fails |
| Otp.LazyExpiryRefinesEager | services/backend/src/modules/auth/otp-store.service.ts:49-103 | Removing entries only when they are looked at gives the states and answers of removing them at once |
| OtpService.InMemoryOtpStore.Get | services/backend/src/modules/auth/otp-store.service.ts:62-70 | The entry exactly while it lasts; an expired one is removed |
| OtpService.InMemoryOtpStore.IncrementAttempts | services/backend/src/modules/auth/otp-store.service.ts:72-80 | Counts one more attempt on an entry that lasts |
| OtpService.InMemoryOtpStore.AcquireSendSlot | services/backend/src/modules/auth/otp-store.service.ts:87-95 | A slot exactly when none is in its cooldown |
| OtpService.InMemoryOtpStore.ReleaseSendSlot | services/backend/src/modules/auth/otp-store.service.ts:97-102 | Frees the slot only for the token that took it |
| OtpService.AuthDesk.SendOtp | services/backend/src/modules/auth/auth.service.ts:86-140 | The code is stored only once the gateway accepted it; a failed send gives its own slot back |
| OtpService.AuthDesk.VerifyOtp | services/backend/src/modules/auth/auth.service.ts:142-174 | One verification: expired, invalid, burned at the limit, or used up |
| PinLimiter.WindowAdmitsTheBudget | services/backend/src/modules/tenant/pin-rate-limit.ts:71-91 | A window admits its attempts up to max(1, limit) and no more |
| PinLimiter.FewerThanTwiceTheBudget | services/backend/src/modules/tenant/pin-rate-limit.ts:71-91 | In any interval as long as a window fewer than twice the budget get through |
| PinLimiter.BoundIsReachedExactly | services/backend/src/modules/tenant/pin-rate-limit.ts:71-91 | For every budget and window a trace reaches this bound, exactly unless the window is too short to hold a late guess |
| PinLimiter.RejectionNeverExtends | services/backend/src/modules/tenant/pin-rate-limit.ts:85-90 | A rejected attempt leaves the window where it is |
| PinLimiter.RetryAfterIsExact | services/backend/src/modules/tenant/pin-rate-limit.ts:85-90 | With no attempt in between the next one is admitted exactly from the end of the window on; Retry-After reaches it and is never a second too long |
| PinLimiter.BucketsAreIndependent | services/backend/src/modules/tenant/pin-rate-limit.ts:71-106 | A bucket sees only its own attempts and resets |
| PinLimiter.TraceIsTheBucket | services/backend/src/modules/tenant/pin-rate-limit.ts:71-91 | A bucket without resets is that of its trace of times |
| PinLimiter.BucketIdsAreDistinct | services/backend/src/modules/tenant/pin-rate-limit.ts:76 | Logins share a bucket exactly if they agree in contour, tenant and key, for tenant codes free of colons |
| PinLimiter.Limiter.Consume | services/backend/src/modules/tenant/pin-rate-limit.ts:71-91 | One attempt on the map, changing its own bucket only |
| PinLimiter.Limiter.Reset | services/backend/src/modules/tenant/pin-rate-limit.ts:100-106 | Forgets one bucket and no other |
| StreamGuard.FiresExactlyWhenDue | services/backend/src/modules/tenant/tenant-stream-guard.ts:104-114 | Scan, filter and take fire at the first reading that confirms an unhealthy tenant or is the third in a row that confirms nothing, and at no other |
| StreamGuard.ScanCountsTrailing | services/backend/src/modules/tenant/tenant-stream-guard.ts:104-110 | The state counts the unconfirmed readings at the end |
| StreamGuard.NextReadIsSoon | services/backend/src/modules/tenant/tenant-stream-guard.ts:81-91 | With ticks skipped during a read, the next one starts within a cadence of its end |
| StreamGuard.UnhealthyStreamsClose | services/backend/src/modules/tenant/tenant-stream-guard.ts:76-116 | A stream whose tenant stays unhealthy closes with the third later read at the latest, within three cadences and four timeouts |
| Categories.IsCategoryCycle | services/backend/src/modules/menu/menu.repository.ts:449-461 | The loop decides whether the first 32 categories on the way up include the id |
| Categories.WalkDecidesShortChains | services/backend/src/modules/menu/menu.repository.ts:448-461 | On chains of at most 32 the walk is true exactly when the category is the parent or one of its ancestors |
| Categories.MoveKeepsTreeExactly | services/backend/src/modules/menu/menu.service.ts:106-119 | Moving a category keeps a tree exactly when it is neither the new parent nor one of its ancestors |
| Categories.RequestsKeepTree | services/backend/src/modules/menu/menu.service.ts:94-119 | Every sequence of creates and moves under chains of at most 32 leaves a tree |
| Categories.AcceptedMoveBreaksExactly | services/backend/src/modules/menu/menu.service.ts:106-119 | An accepted move makes a cycle exactly when the category is an ancestor beyond the 32nd |
| Categories.LongLinesAreNotNoticed | services/backend/src/modules/menu/menu.repository.ts:449-461 | Moving the top of a line under its bottom is noticed exactly below 33 categories; otherwise it makes a cycle |
| Categories.OverlappingMovesMakeACycle | services/backend/src/modules/menu/menu.service.ts:106-119 | Two moves checked before either is written put two roots under each other |
| Categories.CategoryTable.CreateCategory | services/backend/src/modules/menu/menu.service.ts:94-104 | A category is created exactly under an existing parent or none |
| Categories.CategoryTable.MoveCategory | services/backend/src/modules/menu/menu.service.ts:106-119 | A category is moved exactly when the checks pass, and nothing else changes |
| Codes.PaddedReadsBack | services/backend/src/modules/menu/menu.service.ts:163 | Padding a number changes its length and not its value |
| Codes.MintedSkuIsFree | services/backend/src/modules/menu/menu.service.ts:155-164 | The minted SKU is free in the table that was read, whatever else its rows look like |
| Codes.LostAttemptMeansAnotherGotIt | services/backend/src/modules/menu/menu.service.ts:128-152 | An attempt fails only because somebody else inserted that very code between its read and its insert |
| Codes.MenuTable.ListAutoSkus | services/backend/src/modules/menu/menu.repository.ts:342-347 | Exactly the rows with the prefix |
| Codes.MenuTable.CreateMenuItem | services/backend/src/modules/menu/menu.service.ts:121-153 | A dish gets its own SKU or a minted one that was free at the insert; a taken slug ends the request, and a minted code is given up only after three lost attempts |
| OrderNumbers.NumbersAreConsecutive | services/backend/src/modules/orders/orders.repository.ts:126-153 | The k-th create of a branch and day gets the k-th number |
| OrderNumbers.NumbersAreDistinct | services/backend/src/modules/orders/orders.repository.ts:126-153 | No two creates of a run get the same number of a branch and day |
| OrderNumbers.NumbersCollideExactly | services/backend/src/modules/orders/orders.service.ts:499-507 | Two order numbers are one text exactly when the branches agree in their first four characters and day and count are the same |
| OrderNumbers.NamesakeBranchesCollide | services/backend/src/modules/orders/orders.service.ts:499-507 | The first orders of a day of two branches that share four characters get the same order number |
| OrderNumbers.SequenceTable.NextOrderSequence | services/backend/src/modules/orders/orders.repository.ts:133-153 | One atomic bump of the counter of the branch and the UTC day, and the value it returns |
| EventBus.SubscribeAgreesExactly | services/backend/src/modules/kitchen/kitchen-events.service.ts:115-127 | From a state in which the buses agree, a subscription keeps them agreeing exactly when its handler is not open on the branch; otherwise Redis calls it once too little |
| EventBus.LateEndAgreesExactly | services/backend/src/modules/kitchen/kitchen-events.service.ts:127-135 | Ending an ended subscription again keeps them agreeing exactly when its handler is not open on its branch |
| EventBus.EndingOneEndsBoth | services/backend/src/modules/kitchen/kitchen-events.service.ts:127-135 | From any agreeing state, subscribing an open handler again and ending that subscription ends both in the Redis bus and one in the other |
| EventBus.BusesAgreeExactly | services/backend/src/modules/kitchen/kitchen-events.service.ts:50-141 | All along a run both buses deliver the same to the same handlers in the same order exactly when no subscription and no late end meets an open handler of its branch |
| EventBus.BusesAgree | services/backend/src/modules/kitchen/kitchen-events.service.ts:50-141 | After such a run the deliveries are equal and a channel is held exactly while its branch has an open subscription |
| EventBus.FreshHandlersAreGuarded | services/backend/src/modules/kitchen/kitchen-events.service.ts:212-218 | Runs in which every subscription brings a new closure, as the stream does, are such runs |
| EventBus.EndingOne | services/backend/src/modules/kitchen/kitchen-events.service.ts:127-135 | Ending one open subscription takes its handler out of its branch |
| EventBus.RedisKitchenEventBus.Subscribe | services/backend/src/modules/kitchen/kitchen-events.service.ts:115-127 | Adds the handler, and the channel with the first one |
| EventBus.RedisKitchenEventBus.Unsubscribe | services/backend/src/modules/kitchen/kitchen-events.service.ts:127-135 | Removes the handler, and the channel with the last one; late and repeated calls included |
| EventBus.RedisKitchenEventBus.Deliver | services/backend/src/modules/kitchen/kitchen-events.service.ts:93-105 | A message reaches every handler of a subscribed branch, in order |

## Left out

- CustomerTheorems.DeletedNeverHoldsPoints: holds for runs without late entries since the burn; `CustomerTheorems.DeletedHoldsPointsExactly` says what the others do.
- CustomerTheorems.DeletedHoldsPointsExactly: the equivalence supposes that nothing was taken since the burn, because a deleted customer who spends such points again may hold none; the direction from points to a late entry needs no such condition.
- CustomerTheorems.DeleteThenRestore: the minutes in which a restore token outlives the freeze window are not modelled, because `unfreeze` does not look at the window again.
- CustomerTheorems.RestoreStaysOpen: supposes that nobody else was on the number at the deletion, which leaves out numbers still parked by an earlier owner past the window.
- Customers.NextKeepsInv: a cashback, refund or spend enters the ledger in one step, which `Ledger.RunsAreSerial` justifies; e-mail and deletion reason of a row are left out.
- Pricing.RoundsToNearestKopeck: decimals are exact reals, so the 20 significant digits of decimal.js are not modelled.
- OrderTheorems.TerminalIsFinal: excludes worker steps that find a completed order stop-listed; `OrderTheorems.CompletedIsFinalExactly` says what they do.
- OrderTheorems.OneDeliveryPerCourier: supposes that a courier's own requests do not overlap; without that it is false (`OrderTheorems.OverlappingClaimsBothWin`), and `OrderTheorems.OneEachExactly` and `OrderTheorems.DeletedOwnNoneExactly` give the exact conditions of its two halves.
- OrderTheorems.RunsKeepOwned: supposes that effective burns are of couriers who own nothing; `OrderTheorems.OwnedThroughoutExactly` shows that no less will do.
- OrdersService.OrderDesk.ProcessOrder: says whether the refund is asked for; the refund itself is `CustomersService.AccountStore.RefundOnCancel`.
- OrdersService.OrderDesk.PublishOrderChanged: reads the row and publishes in one step, so the order in which events of different reads reach the channel is not claimed; `OrderTheorems.EventsAreDetermined` does not depend on it.
- Payments.SettledStaysSettled: the provider's status of a payment is fixed once it is final, and a webhook is verified against it.
- Cooks.CookRowsAreWrittenOnShift: the eight hours are measured when the transaction checks the shift, as the code does, not when it commits.
- CooksService.ShiftDesk.SignRow: the status and version guard on the order in the same transaction is in `OrdersService.OrderDesk.UpdateOrderStatus`, not here.
- CourierAccountsService.CourierDesk.DeleteOwnAccount: whether the courier owns an order at the write is a parameter here; `OrdersService.OrderDesk.DeleteOwnAccount` computes it.
- CooksService.ShiftDesk.Login: a transaction that waits for a lock for ever is left in place, and deadlocks are aborts; lock queues are not modelled.
- Otp.CodesAreGuessedLittle: claimed for the in-memory store with one verification as one step; `RedisOtpStore.incrementAttempts` reads and writes apart.
- Revenue.RevenueRange: labels of the periods and instants beyond the range of JavaScript dates are left out; Europe/Moscow is a fixed UTC+3.
- EventBus.BusesAgree: Redis delivers at once and loses nothing; reconnects and undecodable messages are left out.
- Categories.RequestsKeepTree: a check and its write are one step.
- StreamGuard.UnhealthyStreamsClose: timers fire on time; the model counts the reads, their durations and skipped ticks.
- PostgreSQL aborts a transaction that hits a unique index; the model turns it into the retry or abort that the handler makes of it.
- Codes.MintedSkuIsFree: numbers are integers, so a suffix beyond the exact range of JavaScript numbers is not modelled; what `Number` makes of a text that is not all digits is a parameter.
- OrderNumbers.NumbersCollideExactly: states the years 1000 to 9999, in which the unpadded year has four digits.
- Codes.MenuTable.CreateMenuItem: which inserts the index on slugs refuses is a parameter.
- The sorting of the kitchen board and the slug of a dish: pure formats.
- `OrdersService.updateStatus`: its route answers 410, so it is not an actor.
- Soft deletion of orders and categories: nothing writes it.
- Courier positions, order lists, promotion feeds, top items and paging: reads without an invariant.
- HTTP controllers, DTO validation, JWT, bcrypt and timing equalisation, geocoding, image uploads, queues' own retries, and the Flutter clients: plumbing.
