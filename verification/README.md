# BoardBite POS: a verified model of its money, tables and coupons

BoardBite POS runs a board-game café: guests order at tables, staff collect money for a table or sell
over the counter, coupons take money off, and every figure on a screen is computed from the rows of an
append-only ledger. This project models the server services that carry money and state, and proves
what they keep true under every interleaving of requests.

## How it is built

- **Rows.** `Schema` holds the tables as a value `Db` and as the fields of a class `Database`. Every
  writing service is a method on `Database` whose contract ties the new state to a function of the old
  one; lemmas then prove what those functions guarantee.
- **Services.** `Billing`, `TableSessions`, `Payments`, `Orders`, `OrderLines`, `Options`, `Coupons`,
  `CouponNumbers`, `TableCoupons`, `CounterSales`, `DataReset`, `ResetOrder` and `Reporting` follow the
  source files of the same names. `Allocation`, `Base32`, `Csv` and `AuditChain` stand alone.
- **The machine.** `World` has one step per transaction or conditional update. What a request read
  before its transaction travels inside the step as a snapshot of any earlier state, so a run is an
  interleaving of requests and every interleaving is a run. A transaction either commits or leaves the
  state as it was; a retry is another step. This is the discipline of README.md:73 (one database
  connection) and server/src/services/payment.ts:51-56.
- **Laws.** `PaymentLaws`, `SaleLaws`, `MoneyLaws`, `SaleMoney`, `QuoteLaws`, `TableCouponLaws`, `OrderLaws`,
  `MenuLaws`, `TableLaws`, `ResetLaws` and `ReportLaws` say of each service when it accepts, what it then
  records and what it leaves alone, in terms of the rows.
- **Results.** `Invariants`, `SaleSteps` and `Steps` prove that each kind of step keeps one invariant
  (`Inv`) and undoes nothing (`Later`); `Theorems`, `OrderLife`, `MoneySteps`, `CouponLife`, `CouponRuns`,
  `LiveCoupons`, `SpelledKeys`, `CouponNumberRuns`, `CouponReport` and `Requests` draw the conclusions for
  all runs. `Scenarios` and `CancelledItems` hold concrete runs that end where the source promises they cannot.

Amounts are whole won and instants are integers. JavaScript computes amounts as doubles; the largest
product is `total * amount` in the proportional allocation, which stays exact below 2^53.

## What the proofs show about the code

Most of what the source promises holds as promised. These are the places where it does not, each with
the exact condition or a concrete state:

- **Automatic settlement reads outside its transaction** (server/src/services/tableSession.ts:326-377).
  Run without interruption it closes a session exactly when nothing is owed or unserved and something was
  billed or paid (`AutoSettleGuard`). With other steps in between it closes exactly when its reads say so,
  and then leaves nothing owed iff orders and payments have moved by the same amount since they were read,
  and nothing unserved iff no order has come to wait since the last read (`StaleSettlementExactly`). A run
  from the empty database ends with a table closed over an unpaid, unserved order
  (`SettlementClosesOverAnOrder`). A closing by staff rechecks and is safe (`CloseIsGuarded`).
- **Cancelling compares list lengths** (server/src/services/order.ts:455). For every accepted request the
  targeted lines and nothing else come off the bill iff not all of these hold: the order can still be
  cancelled, the request is as long as its list of items, and the lines it does not name are worth something
  (`CancelExactly`). Naming one of two items twice meets all three (`RepeatedIdCancelsAll`); distinct ids
  never do (`CancelDrop`).
- **Items cancelled one by one** leave the bill (server/src/services/billing.ts:36), but payment by item and
  coupons look at the order's status only (server/src/services/payment.ts:223-230,
  server/src/services/tableCoupon.ts:76-83). A payment by item takes money only for what is billed iff it names no
  cancelled item that has a price (`PaysForBilledExactly`), a run from the empty database settles a table by paying for
  the cancelled portion (`CancelledItemIsPaidFor`), and a coupon's free item may be a cancelled one
  (`CancelledItemStaysFree`).
- **A client key can spell a reversal key** (server/src/services/payment.ts:314-348). Client text and
  `void:<payment>` share one namespace behind the session prefix. In every reachable state a reversal that does
  not fail leaves its original unreversed iff a charge or discount sits under its key and nothing had reversed
  the original before; a coupon discount's redemption falls due either way (`ReversalTakesBackExactly`). Once
  that redemption is cancelled the session is out of agreement iff such a row was there and the discount was not
  zero (`SpelledKeyBreaksExactly`), and a run from the empty database gets there (`SpelledKeyLosesTheCoupon`).
- **Resetting coupons without a channel** (server/src/services/dataReset.ts:176-182) removes redemptions but keeps
  the coupon discounts in that channel's ledger: an owner agrees afterwards iff its channel was reset too or it had
  no net coupon discount (`CouponResetExactly`).
- **Audit verification exempts only the first record and purge records**
  (server/src/services/auditLog.ts:124). Once a purge record is in the log, a deletion whose cut falls between two
  ordinary records makes an untouched log fail verification, and no other deletion does (`DeleteKeepsContiguous`,
  `SecondPurgeIsReported`). The comment above the function promises that ordinary purges verify.
- **Closing windows include both ends** (server/src/services/closing.ts:69), so two closings in a row
  count the payments of the shared instant twice, and nothing else twice (`ClosingsOverlap`).

## Model

| member | source | states |
|---|---|---|
| Theorems.LedgerAlways | server/src/services/billing.ts:15-79 | in every reachable state each charge or discount has at most one reversal, of the same owner and amount, no reversal is reversed, and every bill figure is the plain sum over unreversed rows and never negative |
| Theorems.RowsNeverEdited | server/src/services/payment.ts:310-316 | the ledger is append-only: of two states of a run, a payment row id present in both names the identical row |
| Theorems.ItemsAlwaysCovered | server/src/services/billing.ts:88-124 | in every reachable state each order item has 0 <= paid quantity <= quantity |
| Theorems.OnlyCancellingOvershoots | server/src/services/payment.ts:124-163 | under any interleaving no step but cancelling or rejecting an order pushes an owner's remaining amount below zero |
| Theorems.NeverOverpaid | server/src/services/payment.ts:50-56 | a run without cancelled or rejected orders never collects more than was billed |
| Theorems.TablesAlwaysAgree | server/src/services/tableSession.ts:40-83 | in every reachable state a table is open iff it has exactly one live session and that one is active, settling iff exactly one and that one is paid up, available or disabled iff it has none |
| Theorems.ClosedForGood | server/src/services/tableSession.ts:233-240 | a closed session stays closed in every continuation of every run |
| Theorems.CloseIsGuarded | server/src/services/tableSession.ts:216-240 | however stale its snapshot, a closing without force ends a session only in a state with nothing owed, no active order and no pending call |
| Theorems.StaleSettlementExactly | server/src/services/tableSession.ts:326-377 | with its four reads taken in any states, the settlement ends a live session iff they tell it to close; it then leaves nothing owed iff orders and payments moved equally since they were read, and nothing unserved iff no order has come to wait since the last read |
| Theorems.StaleSettlementClosesOverAnOrder | server/src/services/tableSession.ts:326-377 | whatever the reads, if they tell it to close, an order placed before it commits is closed over, unserved and its whole value on top of what is left owed |
| Scenarios.SettlementClosesOverAnOrder | server/src/services/tableSession.ts:326-377 | a run from the empty database: ordered, paid, served, reads, a second order, commit; the table ends closed with 1000 won owed and one order unserved |
| Theorems.CancelledForGood | server/src/services/order.ts:285-293 | a cancelled order stays cancelled and every order keeps its owner, lines and prices, in every continuation of every run |
| Theorems.OrdersAlwaysHaveWork | server/src/services/order.ts:482-498 | in every reachable state an order still new, accepted or being prepared has an item that is not cancelled |
| Theorems.SalesAlwaysSettled | server/src/services/counterSale.ts:552-557 | while a sale is completed, what is due back is exactly what was lost to rejected or cancelled orders and items; once cancelled, every figure of its ledger is zero |
| Theorems.SaleNumbersUnique | server/src/services/counterSale.ts:351-353 | no two sales carry the same number in any reachable state |
| Theorems.UsedAlwaysRedeemedOnce | server/src/services/coupon.ts:328-341 | in every reachable state, resets included, a coupon is used iff it has a redemption, and it never has two |
| LiveCoupons.OneLiveRedemptionAlways | server/src/services/tableCoupon.ts:63-67 | in every reachable state of every run, spelled keys and partial resets included, a session or sale has at most one redemption that is not cancelled |
| CouponRuns.CouponsAlwaysAgree | server/src/services/tableCoupon.ts:190-232 | in every interleaving without spelled keys and partial coupon resets, the live redemptions of an owner with no redemption waiting to be cancelled add up to its net coupon discount |
| CouponRuns.CouponResetExactly | server/src/services/dataReset.ts:176-182 | after any reset that takes the coupons, an owner is in agreement iff its channel was taken too or it had no net coupon discount |
| SpelledKeys.ReversalTakesBackExactly | server/src/services/payment.ts:317-381 | in every reachable state, a reversal on however stale a ticket that does not fail leaves its original unreversed iff a charge or discount sits under its key and nothing had reversed it before; a coupon discount's redemption falls due either way |
| SpelledKeys.SpelledKeyBreaksExactly | server/src/services/payment.ts:344-381 | reversing a standing coupon discount and cancelling the redemption that falls due leaves the session in agreement iff no charge or discount sits under the reversal's key or the discount was zero |
| Scenarios.SpelledKeyLosesTheCoupon | server/src/services/payment.ts:47-49 | a run from the empty database that stores a charge under a spelled reversal key and ends with nothing due and the session out of agreement |
| CouponNumberRuns.NumbersNeverReissued | server/src/services/coupon.ts:104-125 | in every reachable state an issue is refused iff too few of 999 numbers are left, and gives out only numbers from 001 to 999 that no earlier state had in use, unless a reset took the coupons away |
| Requests.PaymentAnswersAgree | server/src/services/payment.ts:57-113 | look-ups before a transaction and after a unique violation, at any two moments of any interleaving, resets included, answer one key with one and the same row |
| Requests.CommittedReply | server/src/services/payment.ts:94-98 | the row a transaction inserts and replies with is what every look-up by its key names in every continuation |
| Requests.LoserFindsWinner | server/src/services/payment.ts:99-113 | a request that loses to its duplicate finds the winner when it looks again after the unique violation, whatever ran in between, unless a reset took the session away |
| Requests.CommittedOrder | server/src/services/order.ts:239-280 | the committed order is the one every look-up by its key names, and it stays to be found while its session exists |
| Requests.OrderAnswersAgree | server/src/services/order.ts:216-283 | one order per scoped key over the whole past of any run |
| Requests.SaleAnswersAgree | server/src/services/counterSale.ts:288-305 | a successful answer for a sale key carries the sale's request hash; until counter sales are reset every later look-up of any run names the same sale, and another body under the key is a conflict |
| Requests.CommittedSale | server/src/services/counterSale.ts:471-487 | a committed sale is found by every later look-up with its own body, and a conflict for any other, until counter sales are reset |
| Steps.RunsKeep | server/src/services/payment.ts:50-56 | every enabled sequence of steps, with any stale snapshots, keeps every invariant and undoes nothing earlier |
| Ledger.AtMostOneReversal | server/src/services/payment.ts:346-353 | in a well-formed ledger every reversal copies an original, no two share one, none is reversed itself |
| Ledger.SignedFold | server/src/services/billing.ts:47-70 | any signed fold whose weight a reversal shares with its original equals the sum over unreversed originals |
| Ledger.FilterLedger | server/src/services/dataReset.ts:122-125 | deleting rows together with their reversals leaves a well-formed ledger |
| Billing.ComputeBill | server/src/services/billing.ts:27-79 | the nested loops compute the bill of a table session |
| Billing.ComputeCounterSaleLedger | server/src/services/billing.ts:153-208 | the loops compute the ledger of a counter sale |
| Billing.ComputeItemPaymentStatus | server/src/services/billing.ts:92-124 | the status map has exactly the requested items, each with its net covered quantity |
| Billing.FoldsAreStanding | server/src/services/billing.ts:50-70 | charged, discount and coupon-discount amounts are plain sums over the owner's unreversed rows, never negative, though reversals find their axis by look-up |
| Billing.AxesPartition | server/src/services/billing.ts:178-206 | the two ledgers agree: each row moves exactly one axis, so both leave the same remaining amount, total less net paid |
| TableSessions.OpenTableTx | server/src/services/tableSession.ts:40-83 | claims an available table and inserts one active session, or changes nothing, a missing game time plan included |
| TableSessions.CloseTableTx | server/src/services/tableSession.ts:216-251 | the closing transaction and its refusals |
| TableSessions.MaybeAutoSettle | server/src/services/tableSession.ts:326-413 | the uninterrupted settlement and what it reports |
| TableSessions.SetTableEnabled | server/src/services/tableSession.ts:416-442 | accepts iff the table is available or disabled and, to disable it, has no live session; on success the table has the requested status, on refusal nothing changed |
| TableSessions.TableStatusExactly | server/src/services/tableSession.ts:344-401 | the pairwise row invariant amounts to the three-way status classification of a table |
| TableSessions.CarryOutKeepsFloor | server/src/services/tableSession.ts:344-401 | carrying out any settlement decision, however stale, keeps tables and sessions in step |
| TableSessions.CloseGuard | server/src/services/tableSession.ts:217-240 | an unforced closing commits iff the session is live and nothing is owed, active or pending; a forced one iff it is live |
| TableSessions.AutoSettleGuard | server/src/services/tableSession.ts:332-377 | run as one step, the settlement ends a live session iff something was billed or paid, nothing is owed and all is served |
| TableSessions.AutoSettleReports | server/src/services/tableSession.ts:344-411 | after one uninterrupted call a live session is pending service iff nothing is owed, else active |
| TableLaws.EndedTableIsFree | server/src/services/tableSession.ts:233-245 | in any interleaving, whichever step ends a live session leaves it closed and its table available under the lock it had, every other session and table as it was, and the table can be opened again at once unless a missing plan is asked for |
| TableLaws.OpenExactly | server/src/services/tableSession.ts:40-83 | a table is opened iff it is available and no missing plan is asked for; then it is open under its lock with one new active session, and nothing else moved |
| TableLaws.SettlesExactly | server/src/services/tableSession.ts:326-413 | the uninterrupted settlement leaves the session as it was if nothing is billed or paid, else active while something is owed, closed once all is paid and served, and paid up in between; no other session or table moves |
| TableLaws.SettledTable | server/src/services/tableSession.ts:344-401 | its own table is then open, settling or available to match, under the same lock |
| TableLaws.OnlyAdminsChangeSettings | server/src/services/tableSession.ts:416-442 | no step but enabling, disabling and locking disables a table, puts it back into use, locks or unlocks it or removes it, data resets included |
| TableLaws.AdminsChangeOneSetting | server/src/services/tableSession.ts:416-442 | those steps change the one table they name, and a table in use is never disabled |
| TableLaws.NothingUnserved | server/src/services/tableSession.ts:169-171 | no order counts as unserved iff each is served, rejected or cancelled |
| TableLaws.NothingPending | server/src/services/tableSession.ts:172 | no call counts as pending iff each is done; an acknowledged call still waits |
| TableLaws.OneCallWaits | server/src/routes/customer.routes.ts:175-187 | however often a session calls, one call waits, and no other session is affected |
| TableLaws.AnswerExactly | server/src/routes/serving.routes.ts:102-130 | answering moves the named call if it is in a status to answer from, and no other call |
| Payments.AmountBasedPayment | server/src/services/payment.ts:115-164 | the amount payment transaction, its refusals and its row |
| Payments.ItemBasedPayment | server/src/services/payment.ts:188-285 | the item payment transaction with its validation passes, pricing loop and refusals |
| Payments.CreateDiscount | server/src/services/payment.ts:410-446 | the discount transaction and its refusals |
| Payments.VoidPaymentTx | server/src/services/payment.ts:322-375 | the reversal transaction: replay, refusal or one reversing row |
| PaymentLaws.AmountWithin | server/src/services/payment.ts:120-163 | an accepted payment takes between one won and the amount owed as recomputed in its transaction; cash takes the smaller of tender and debt and its change is tender minus amount, never negative |
| PaymentLaws.AmountAccepted | server/src/services/payment.ts:124-147 | once payments are allowed and the key is new, acceptance holds iff something is owed and the tender or amount fits |
| PaymentLaws.ItemsWithin | server/src/services/payment.ts:232-283 | an accepted item payment stays within the debt, covers each item at most to its quantity, only of the session's own counted orders, and its change is never negative |
| PaymentLaws.DiscountWithin | server/src/services/payment.ts:429-446 | an accepted discount takes between one won and the amount owed |
| PaymentLaws.ReversalFollows | server/src/services/payment.ts:344-375 | a reversal begun on a stale read is inserted at most once per original, copies it, and extends the ledger legitimately |
| MoneyLaws.AmountExactly | server/src/services/payment.ts:115-164 | a payment by amount is accepted iff payments are allowed, the key is new, something is owed and the tender is positive or the amount fits; its row, amount and change are then fixed |
| MoneyLaws.DiscountExactly | server/src/services/payment.ts:410-455 | a discount is accepted iff payments are allowed, the key is new and it is at most what is owed; its row is fixed |
| MoneyLaws.ItemsPriced | server/src/services/payment.ts:235-267 | an accepted payment by item costs base price and options times the quantity asked for, summed over the request; each row is priced in proportion to what the bill charges for its line, a whole line exactly so |
| MoneyLaws.ItemsAccepted | server/src/services/payment.ts:193-267 | a payment by item is accepted iff payments are allowed, the key is new, the request names each item once and only unpaid quantities of the session's own counted orders, and its price is at most what is owed and, in cash, what was handed over |
| MoneyLaws.RefusalNames | server/src/services/payment.ts:170-186 | which refusal is named when payments are not allowed |
| MoneyLaws.ReversalStarts | server/src/services/payment.ts:317-344 | a reversal may start iff there is a reason and a session's charge or discount of that id that nothing has reversed; it is a void while the session goes on and a refund once it has ended |
| MoneyLaws.ReversalAccepts | server/src/services/payment.ts:346-375 | a started reversal is inserted iff its key is new, nothing has reversed the original since, and session and original still exist |
| MoneyLaws.ReversalRecords | server/src/services/payment.ts:356-375 | the inserted row carries the kind the ticket fixed, the key spelled from it, and no money handed over |
| MoneyLaws.ReversalUndoes | server/src/services/payment.ts:356-375 | an inserted reversal takes exactly its original off the charge or discount axis of its session, back onto what remains, and moves nobody else's bill |
| MoneyLaws.LedgerFigures | server/src/services/billing.ts:153-208 | a sale's gross is all its charges, refunded what was taken back of them, net what stands, and the remainder the orders less discount and net |
| MoneySteps.MoneyOnlyWhenOpen | server/src/services/payment.ts:170-186 | whatever the step and however stale its reads, a charge or discount is written only in a state where the session goes on, its table is not locked and payments are on; a sale also needs ordering on |
| CancelledItems.PaysForBilledExactly | server/src/services/payment.ts:223-250 | an accepted payment by item takes money only for what the bill charges iff it names no cancelled item that has a price |
| CancelledItems.CancelledItemIsPaidFor | server/src/services/payment.ts:223-250 | a run from the empty database in which a payment by item for a cancelled portion is accepted and nothing is owed although no payment covers the other portion |
| Orders.CreateOrderTx | server/src/services/order.ts:238-259 | inserts the order with its priced items unless its key is taken or its session row is gone, without looking at the session's status |
| Orders.ApplyTransition | server/src/services/order.ts:320-340 | succeeds iff the order is in the required status, and tells a missing order from a wrong status |
| Orders.CancelOrderTx | server/src/services/order.ts:435-513 | the cancelling transaction, its refusals, and its roll-back when something to be marked as sold out does not exist |
| Orders.CancelOneRow | server/src/services/order.ts:455-498 | a cancellation changes exactly one order row, in its items' marks and its status only |
| Orders.CancelAmount | server/src/services/order.ts:435-513 | for every accepted request, what comes off the owner's bill is the targeted lines plus, if the request counts as the whole order, the counted lines it does not name; no other bill moves |
| Orders.CancelExactly | server/src/services/order.ts:446-498 | for every accepted request, exactly the targeted lines come off iff not: still cancellable, as many ids as items, and unnamed counted lines worth something |
| Orders.CancelDrop | server/src/services/order.ts:435-513 | with distinct ids the bill of the order's owner drops by exactly the targeted lines that were counted, and no other bill moves |
| Orders.RepeatedIdCancelsAll | server/src/services/order.ts:446-455 | a concrete order where one id named twice takes an unnamed item off the bill |
| Orders.CancelIdempotent | server/src/services/order.ts:433-498 | the same cancellation again changes nothing |
| Orders.CancelHasWork | server/src/services/order.ts:482-498 | no cancellation, even with repeated ids or in any status, leaves an order to work on with nothing in it |
| OrderLaws.MovesExactly | server/src/services/order.ts:372-401 | a forward move takes the named order from its stage to the next, a rejection takes a new order out, taking back a serving puts it back to ready; in any other status and for any other order nothing changes |
| OrderLaws.ServedAndReverted | server/src/services/order.ts:390-401 | serving an order and taking that back leaves no trace |
| OrderLaws.MoveAmount | server/src/services/order.ts:372-401 | rejecting takes exactly the order's live items off its owner's bill, every other move leaves every bill alone |
| OrderLaws.CreateAccepts | server/src/services/order.ts:238-259 | a table order is refused only for an empty cart, a quantity out of range, a used key or a missing session |
| OrderLaws.CreateRecords | server/src/services/order.ts:238-259 | it starts as new, holds the priced lines one for one, and raises its session's bill, and no other, by their total |
| OrderLaws.CancelAccepts | server/src/services/order.ts:435-475 | a cancellation is accepted iff it names only items of the order and, when as long as the order, comes while it is new, accepted or being prepared, or cancelled before |
| OrderLaws.CancelRecords | server/src/services/order.ts:455-498 | the named items are marked, the order is cancelled iff it still could be and all of it was asked for or nothing live is left, no other row changes |
| OrderLife.OrdersOnlyMove | server/src/services/order.ts:285-293 | whatever the step, an order's status changes only along a documented move or with its sale's cancellation |
| OrderLife.ReadyForGood | server/src/services/order.ts:285-293 | in any interleaving a table's order once ready stays ready or served, a rejected or cancelled one stays so, and none falls back before the stage it had reached |
| OrderLines.ResolvesExactly | server/src/services/order.ts:150-209 | a cart is accepted iff it is not empty and every entry is on sale in the channel, in an allowed quantity, with acceptable options; each entry becomes one line at stored prices |
| OrderLines.ResolvedAreValid | server/src/services/order.ts:195-207 | resolved lines satisfy what quoting and ordering rely on |
| Options.ValidateItemOptions | server/src/services/order.ts:72-129 | the loops compute the verdict, first problem first |
| Options.AcceptsExactly | server/src/services/order.ts:59-71 | the validator accepts exactly the duplicate-free lists of live, not sold-out choices of the item with every live group's count in range, and returns them in order |
| Options.BlockedExactly | server/src/services/menuCatalog.ts:155-166 | nothing is reported iff every live group has as many orderable choices as its minimum |
| Options.UnblockedIffOrderable | server/src/services/menuCatalog.ts:155-166 | with valid ranges the fast check reports nothing iff some list of choices passes the full validator |
| Options.OrderableExactly | server/src/services/menuCatalog.ts:155-166 | whatever the ranges, some list of choices passes the validator iff no group is reported and no live group's maximum lies below what its minimum needs |
| MenuLaws.SellsExactly | server/src/services/order.ts:173-195 | an entry can be sold iff its menu row is active, undeleted, of this channel and not sold out, in 1 to 50 pieces, with choices that are each offered once and in number fit every live group |
| MenuLaws.ModeExactly | server/src/services/menuCatalog.ts:34-40 | what is cooked or shown in the kitchen goes to the kitchen, all else over the counter |
| MenuLaws.SharedStockMovesTogether | server/src/services/inventory.ts:41-45 | menu rows and choices linked to one undeleted stock item are sold out together, whatever is marked on each |
| MenuLaws.RefusesChoice | server/src/services/order.ts:81-102 | without repeats the first choice that is not offered decides: sold out if it is live in a live group of the item, else invalid |
| MenuLaws.RefusesGroup | server/src/services/order.ts:104-127 | with all choices offered the first live group out of range decides: unavailable iff too few were chosen and too few are on offer, else a wrong count |
| MenuLaws.UnavailableIsBlocked | server/src/services/menuCatalog.ts:155-166 | an item is answered to be unavailable only where the fast check reports a blocked group |
| MenuLaws.FirstEntryDecides | server/src/services/order.ts:173-209 | entries are looked at in order and the first that cannot be sold gives the answer |
| Coupons.IssueTx | server/src/services/coupon.ts:174-203 | issues all requested coupons or none |
| Coupons.WithdrawTx | server/src/services/coupon.ts:232-240 | withdraws exactly the unused ones of the named coupons and counts them |
| Coupons.IssueAddsNew | server/src/services/coupon.ts:186-200 | an issue adds unused coupons under distinct codes nobody holds and touches nothing else |
| CouponLife.IssueRecords | server/src/services/coupon.ts:174-203 | every new code is an unused coupon of the given benefit and last instant; every earlier coupon stays |
| CouponLife.WithdrawRecords | server/src/services/coupon.ts:232-240 | exactly the named unused coupons are withdrawn, nothing else moves |
| CouponLife.StepTurns | server/src/services/coupon.ts:328-341 | whatever the step, an unused coupon is used or withdrawn, only a reset makes a used one usable again, and nothing revives a withdrawn one |
| CouponLife.SpentForGood | server/src/services/coupon.ts:328-341 | in any interleaving without a reset of the coupons a withdrawn coupon stays withdrawn, and without any reset a used one stays used, even when its redemption is taken back |
| CouponLife.DropRecords | server/src/services/tableCoupon.ts:266-272 | taking a redemption back marks exactly the session's redemptions of the coupon, of any coupon if none is named |
| CouponNumbers.Allocate | server/src/services/coupon.ts:107-125 | the loop collects the declared codes or refuses |
| CouponNumbers.AllocateSmallestUnused | server/src/services/coupon.ts:107-125 | allocation fails iff fewer than count numbers are unused, and otherwise returns the codes of exactly the count smallest unused numbers in order |
| CouponNumbers.NewCodesAreNew | server/src/services/coupon.ts:104-125 | allocated codes are distinct, spell 001 to 999 and are unused |
| CouponNumbers.NormalizeExactly | server/src/services/coupon.ts:30-44 | a typed text names number n iff, trimmed, it is one to three digits worth n and n is at least 1 |
| CouponNumbers.NormalizeIdempotent | server/src/services/coupon.ts:34-44 | normalising a normalised code changes nothing |
| TableCoupons.ResolveTableCoupon | server/src/services/tableCoupon.ts:57-129 | the effect of a coupon on an open bill, or why it has none |
| TableCoupons.ApplyTableCouponTx | server/src/services/tableCoupon.ts:163-238 | uses the coupon up and writes discount and redemption together, or changes nothing |
| TableCoupons.CancelTableCouponRedemption | server/src/services/tableCoupon.ts:266-272 | cancels the session's live redemptions of the code named by the reversed row |
| TableCoupons.ResolvedIsSpread | server/src/services/tableCoupon.ts:83-206 | an accepted coupon takes between one won and what is owed, can always be spread, and its rows carry exactly the discount, cover no quantity and stay on the session's items |
| TableCouponLaws.ResolveTakes | server/src/services/tableCoupon.ts:57-129 | an accepted coupon takes its amount, or one base price of the item asked for or else of the first on the bill that is on its menus, but no more than is owed; the preview names that item |
| TableCouponLaws.ResolveAccepts | server/src/services/tableCoupon.ts:57-111 | a coupon is accepted iff it is redeemable, the bill carries no other, something is owed and the benefit is worth at least one won |
| TableCouponLaws.ApplyRecords | server/src/services/tableCoupon.ts:163-238 | the coupon is used, its redemption notes what was owed, and one discount row names it, put on the free item alone or as the proportional allocation gives |
| TableCouponLaws.ApplyAccepts | server/src/services/tableCoupon.ts:163-238 | a coupon is applied iff payments are allowed, it is acceptable, and neither it nor the client key was used before |
| CancelledItems.CancelledItemStaysFree | server/src/services/tableCoupon.ts:76-106 | a free-item coupon takes the price of a cancelled item like that of any other |
| CounterSales.DiscountLines | server/src/services/counterSale.ts:212-224 | fills the per-line discounts in place |
| CounterSales.QuoteCounterSale | server/src/services/counterSale.ts:182-249 | the quote or its refusal |
| CounterSales.QuoteIsExact | server/src/services/counterSale.ts:212-246 | each line's discount lies within the line, the discounts add up, subtotal is discount plus total, and nothing is owed below zero |
| CounterSales.QuoteNeverStuck | server/src/services/counterSale.ts:214-223 | with valid lines a discount can always be spread, so the allocation never refuses a quote |
| QuoteLaws.RedeemableExactly | server/src/services/coupon.ts:72-77 | a coupon is redeemable iff it is unused and its last instant lies ahead |
| QuoteLaws.LapsedForGood | server/src/services/coupon.ts:72-77 | a coupon that is not redeemable does not become so by the passing of time |
| QuoteLaws.QuoteTakes | server/src/services/counterSale.ts:137-246 | an accepted coupon takes its amount, or one base price of the line asked for or else of the first on its menus, but no more than the subtotal, from all lines in proportion or from that line alone |
| QuoteLaws.QuoteAccepts | server/src/services/counterSale.ts:137-224 | a coupon is accepted iff it is redeemable and worth at least one won on this cart |
| QuoteLaws.QuoteWithoutCoupon | server/src/services/counterSale.ts:182-249 | without a coupon nothing comes off any line |
| CounterSales.ConfirmCounterSaleTx | server/src/services/counterSale.ts:318-464 | the confirming transaction writes sale, orders, coupon use, discount and charge together, or nothing |
| CounterSales.CancelCounterSaleTx | server/src/services/counterSale.ts:680-735 | the cancelling transaction refunds, cancels orders and redemption, or changes nothing |
| SaleLaws.ConfirmSettles | server/src/services/counterSale.ts:318-464 | a confirmed sale is worth its subtotal, the ledger took exactly that, and no other owner moved |
| SaleLaws.ConfirmedSums | server/src/services/counterSale.ts:417-461 | the allocations of each new payment add up to its amount although zero rows are left out, and subtotal is discount plus charge |
| SaleLaws.ConfirmConserves | server/src/services/counterSale.ts:417-461 | per line, discount allocation plus charge allocation is the line total, and quantity is covered once, by the charge |
| SaleLaws.RefundsKeepLedger | server/src/services/counterSale.ts:701-723 | cancelling extends the ledger legitimately and leaves nothing of the sale unreversed |
| SaleLaws.CancelZeroes | server/src/services/counterSale.ts:680-735 | after a cancellation order amount, discounts, net charge and remaining of the sale are zero and no other balance moved |
| SaleLaws.CancelTwice | server/src/services/counterSale.ts:685-690 | a repeated cancellation adds no row |
| SaleMoney.ConfirmAccepts | server/src/services/counterSale.ts:318-349 | a sale is confirmed iff both switches are on, the quote holds and is the one expected, what is left can be settled, and neither the key nor the coupon was used before |
| SaleMoney.CashRefused | server/src/services/counterSale.ts:336-349 | with all else in order cash is refused iff less than the price was handed over |
| SaleMoney.ConfirmTakes | server/src/services/counterSale.ts:417-461 | a discount row is written iff a coupon was given and a charge row iff something is left to pay; the charge takes that by the chosen method, cash with tender and change, and each row carries its lines' money, the charge alone their quantities |
| SaleMoney.ConfirmListsSale | server/src/services/counterSale.ts:351-363 | the sale is listed under the number after the highest, with key and body, and the floor stays as it was |
| SaleMoney.ConfirmOrders | server/src/services/counterSale.ts:365-397 | the lines the kitchen makes become one new order, the lines handed out one served order, in cart order and at their prices |
| SaleMoney.ConfirmRedeems | server/src/services/counterSale.ts:399-415 | the coupon is used by this sale at the price before it, and no other coupon or redemption moves |
| SaleMoney.CancelAccepts | server/src/services/counterSale.ts:680-699 | a sale is cancelled iff there is a reason and it is a completed sale |
| SaleMoney.CancelPaysBack | server/src/services/counterSale.ts:701-723 | a cancellation pays back every charge and discount still open, in full and by its method, and nothing else |
| SaleMoney.CancelMarks | server/src/services/counterSale.ts:692-735 | sale, orders and redemption of the sale are marked cancelled, otherwise as they were, and nobody else's |
| SaleSteps.ConfirmStep | server/src/services/counterSale.ts:318-464 | confirming keeps every invariant |
| SaleSteps.CancelStep | server/src/services/counterSale.ts:692-735 | cancelling a sale keeps every invariant |
| DataReset.ExpandScopes | server/src/services/dataReset.ts:46-55 | the recursive visit returns the least dependency-closed superset of the selection |
| DataReset.ResetData | server/src/services/dataReset.ts:131-200 | refuses an empty selection, otherwise resets the least closure of it |
| DataReset.RestoredKeeps | server/src/services/dataReset.ts:106-118 | after one channel's redemptions go, exactly the coupons with a surviving redemption are still used |
| DataReset.ResetStep | server/src/services/dataReset.ts:146-200 | any reset keeps every invariant |
| DataReset.ResetRemaining | server/src/services/dataReset.ts:150-170 | a reset clears the bills of the channels it takes and leaves every other bill as it was |
| ResetLaws.ClosedExactly | server/src/services/dataReset.ts:46-55 | which selections are closed: payments need both channels, revenue needs payments, the menu needs both channels and the coupons |
| ResetLaws.PaymentGoes | server/src/services/dataReset.ts:121-127 | a payment goes iff the channel of its owner is reset |
| ResetLaws.OrderGoes | server/src/services/dataReset.ts:121-127 | an order goes iff the channel of its owner is reset |
| ResetLaws.RedemptionGoes | server/src/services/dataReset.ts:106-125 | a redemption goes iff its owner's channel or the coupons are reset |
| ResetLaws.FloorGoesExactly | server/src/services/dataReset.ts:146-170 | sessions and calls go with the tables and sales with the sales; settings and the id counter stay |
| ResetLaws.TablesVacated | server/src/services/dataReset.ts:150-160 | no table goes; one in use is available afterwards under its lock, and a table can then be opened iff it is not disabled |
| ResetLaws.CouponsRestored | server/src/services/dataReset.ts:103-118 | coupons go with their own scope only; otherwise exactly the used ones whose redemption goes are unused again |
| ResetOrder.LedgerDeletionSafe | server/src/services/dataReset.ts:121-127 | each of a channel's deletions, in its place, leaves no survivor that points at a deleted row, reversals included |
| ResetOrder.ResetKeepsReferences | server/src/services/dataReset.ts:146-200 | for every dependency-closed selection every single deletion, in the state it runs in, leaves no dangling reference, and the result is sound |
| Reporting.ComputeRevenueSummary | server/src/services/reporting.ts:83-140 | the loop's totals are sums over the window with originals looked up in the whole ledger, and the method map records each method's net amount |
| Reporting.FiguresAgree | server/src/services/reporting.ts:104-140 | net revenue is the same by rows, by methods and by channels, and every discount is manual or coupon |
| Reporting.ReportIsSumOfOwners | server/src/services/reporting.ts:83-140 | over all time revenue is the sum of every owner's net charge and total discount the sum of every owner's discount |
| Reporting.WindowsAdd | server/src/services/reporting.ts:84-102 | figures of two adjoining windows add up to the figure of the whole, also when a refund and its original fall apart |
| Reporting.ClosingsOverlap | server/src/services/closing.ts:53-69 | two closings in a row count exactly the payments of the shared instant twice |
| Reporting.FirstClosingCoversAll | server/src/services/closing.ts:53-63 | the first closing leaves out no payment before its end |
| ReportLaws.ClosingStartExactly | server/src/services/closing.ts:53-63 | a closing starts at the latest closing, else at the earliest payment, else with the day |
| ReportLaws.MethodIsStanding | server/src/services/reporting.ts:104-140 | over all time a method's figure is what stands of its charges |
| ReportLaws.ChannelIsStanding | server/src/services/reporting.ts:104-140 | over all time tables and counter each earn what stands of their own charges |
| ReportLaws.CouponIsStanding | server/src/services/reporting.ts:104-140 | over all time the coupon discount is what stands of coupon discounts |
| ReportLaws.ManualIsStanding | server/src/services/reporting.ts:104-140 | over all time the manual discount is what stands of all other discounts |
| ReportLaws.CashIsStanding | server/src/services/closing.ts:107-110 | over all time the expected cash is what stands of the charges by cash methods |
| ReportLaws.VoidsAndRefunds | server/src/services/closing.ts:90-106 | voids and refunds together are all reversals, discounts taken back included |
| CouponReport.ComputeCouponFigures | server/src/services/reporting.ts:209-217 | the loop adds up amount and item coupon discounts of the redemptions that are not cancelled |
| CouponReport.EachRedemptionOnce | server/src/services/reporting.ts:209-217 | a live redemption counts in full in one of the two figures, by what its coupon is for, a cancelled one in neither |
| CouponReport.CouponFiguresAgree | server/src/services/reporting.ts:204-217 | in every reachable state of a run without spelled keys and partial coupon resets and with no redemption waiting, the discounts read from redemptions add up to the coupon discount read from the ledger |
| Reporting.CashIsCashRows | server/src/services/closing.ts:107-110 | expected cash from the per-method figures is the net of the cash rows |
| Reporting.ComputeClosingTotals | server/src/services/closing.ts:90-110 | the void, refund and expected cash totals of a closing |
| Allocation.AllocateProportional | server/src/services/discountAllocation.ts:25-58 | the in-place cyclic loop computes the declared shares within one pass and never leaves by the emergency break |
| Allocation.AllocateExact | server/src/services/discountAllocation.ts:41-57 | the shares add up to the total |
| Allocation.AllocateBounds | server/src/services/discountAllocation.ts:41-57 | each share is its floor share or one more, between zero and its line |
| Allocation.AllocateRefusals | server/src/services/discountAllocation.ts:26-39 | refusal holds iff the total is negative, or exceeds what the lines amount to |
| Allocation.LeftoverBelowFractional | server/src/services/discountAllocation.ts:46-55 | the remainder is smaller than the number of lines with a fractional share |
| Allocation.EarlierLinesFirst | server/src/services/discountAllocation.ts:47-52 | an extra won never goes to a line while an earlier positive line goes without |
| Allocation.SplitEvenly | server/src/services/splitEvenly.ts:6-23 | the in-place loop computes the declared shares, or refuses bad input |
| Allocation.EvenSplitExact | server/src/services/splitEvenly.ts:1-5 | an even split adds up to the total, shares differ by at most one won, larger ones first |
| Allocation.EqualLinesSplitEvenly | server/src/services/discountAllocation.ts:41-57 | on equal lines the proportional allocation is the even split |
| Base32.Encode | server/src/auth/totp.ts:13-29 | with a 32-bit accumulator that is never masked, the loop emits the encoding of the whole bit string |
| Base32.Decode | server/src/auth/totp.ts:31-48 | the same for decoding, with invalid characters refused |
| Base32.RoundTrip | server/src/auth/totp.ts:13-48 | decoding undoes encoding for every byte string, with or without padding, and the encoding has ceil(8n/5) characters (section 6 of RFC 4648) |
| Base32.PublishedVectors | server/src/auth/totp.ts:11-29 | three test vectors of section 10 of RFC 4648 |
| Csv.ToCsv | server/src/services/csv.ts:47-69 | the loop prints header and rows |
| Csv.RoundTrip | server/src/services/csv.ts:47-69 | a reader written from section 2 of RFC 4180 gets back exactly the grid of shown cells, whatever they contain |
| Csv.OptionalBreakRoundTrip | server/src/services/csv.ts:63-68 | a reader that takes a last line break as optional agrees iff the last of two or more records is not a lone empty cell |
| Csv.CellsReadBack | server/src/services/csv.ts:11-68 | every cell of a printed file, read back, is the number or raw text it was, or the free text unchanged or behind one apostrophe, never a formula |
| Csv.NumberReadsBack | server/src/services/csv.ts:50-56 | a number cell reads back as that number, sign included |
| Csv.TextExactly | server/src/services/csv.ts:11-61 | free text gets an apostrophe iff it starts with a formula trigger, and quotes iff it holds a special character |
| AuditChain.AuditLog.RecordEntry | server/src/services/auditLog.ts:46-89 | appends one record chained on the newest row |
| AuditChain.AuditLog.VerifyChain | server/src/services/auditLog.ts:118-145 | the index loop names the first faulty record |
| AuditChain.AuditLog.Purge | server/src/services/auditLog.ts:157-174 | records the purge, then deletes older ordinary records |
| AuditChain.AppendRecords | server/src/services/auditLog.ts:46-89 | the new record holds what was recorded under a new id, chained on the newest record; earlier ones are untouched |
| AuditChain.DeleteExactly | server/src/services/auditLog.ts:157-174 | exactly the purge records and what is not older than the cutoff stay, in their order |
| AuditChain.PurgeIsRecorded | server/src/services/auditLog.ts:157-174 | the purge's own record stays, behind whatever else does |
| AuditChain.RunsAreValid | server/src/services/auditLog.ts:42-89 | any interleaving of appends and deletions keeps every surviving record bound to the one it was chained on |
| AuditChain.VerifyExactly | server/src/services/auditLog.ts:118-145 | verification passes iff every surviving ordinary record but the first still directly follows the record it was chained on |
| AuditChain.AppendsVerify | server/src/services/auditLog.ts:46-89 | any run of appends verifies |
| AuditChain.DeleteKeepsContiguous | server/src/services/auditLog.ts:169-171 | a deletion keeps an intact chain intact iff its cut does not fall between two adjacent ordinary records behind a purge record |
| AuditChain.PurgeExactly | server/src/services/auditLog.ts:157-174 | a purge keeps an intact chain intact under exactly that condition, its own record included |
| AuditChain.SafePurges | server/src/services/auditLog.ts:105-117 | a first purge at any cutoff verifies, and so does a later one that removes every ordinary record |
| AuditChain.SecondPurgeIsReported | server/src/services/auditLog.ts:105-124 | a concrete untouched log that fails verification after its second purge |
| AuditChain.EditIsReported | server/src/services/auditLog.ts:129-142 | changing a hashed field without recomputing the hash is always reported |
| AuditChain.RehashedEdit | server/src/services/auditLog.ts:124-142 | an edit that recomputes the record's own hash is reported iff an ordinary record follows |

## Left out

- CouponRuns.CouponsAlwaysAgree: assumes no client key that spells a reversal key and no reset of coupons without both channels; `SpelledKeyBreaksExactly` and `CouponResetExactly` say exactly what such steps do.
- CouponReport.CouponFiguresAgree: the same two assumptions.
- Requests.SaleAnswersAgree: holds until the next reset of counter sales, which forgets all sale keys; a sale key carries no sale id and may be used again after it.
- AuditChain.RunsAreValid: the clock moves strictly forward between appends, digests are free of collisions, and rows with equal timestamps are not modelled.
- Csv.RoundTrip: number cells are integers.
- Options.BlockedExactly: group names are replaced by the groups themselves.
- CounterSales.ConfirmCounterSaleTx: the expected quote is compared as a value where the source compares hashes; request hashes are texts compared for equality.
- CounterSales.QuoteCounterSale: takes lines already resolved by `OrderLines`; sorting of option ids before hashing is left out.
- TableSessions.OpenTableTx: join codes, guest counts and the game time row itself are left out.
- TableSessions.SetTableEnabled: its look at live sessions and its conditional update are one step; in `World` the conditional update alone decides.
- Payments.ItemBasedPayment: faulty items are looked for in the order of the request, the source takes the order the database returns; with two different faults another one may be named.
- Orders.CreateOrderTx: comparing the total shown to the guest before the transaction is left out (it can only refuse more).
- Orders.CancelOrderTx: which ingredients become sold out, reasons and notes are left out.
- Reporting.ComputeRevenueSummary: order counts and revenue per menu item and per table are left out; coupon figures are in `CouponReport`.
- ResetOrder.ResetKeepsReferences: works on rows reduced to ids and foreign keys; the rows' other columns are in `DataReset`.
- DataReset.ResetData: the backup before a reset and deletions that touch no modelled row are left out there.
- World: the fail-fast reads before a transaction that only refuse more.
- Coupon batches: each coupon carries its batch's benefit and expiry; batch keys and batch listings are left out.
- Shared ingredients: setting and linking sold-out flags (server/src/services/inventory.ts:164-361) would add only single-row facts; the rule that reads them is in `Options`.
- Menu editing and display order (server/src/services/menuCatalog.ts:170-450): single-row updates.
- Counter sale views, pick-up marking beyond the status step, and open-sale listings (server/src/services/counterSale.ts:516-675).
- One-time passwords (server/src/auth/totp.ts:50-117), passwords, sessions and login backoff: foreign cryptography and single-branch checks.
- Express routes, request schemas, realtime events, backups, audit metadata and the React client: input and output.
