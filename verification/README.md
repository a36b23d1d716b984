# Verified model of the card shop

The shop sells its own stock and the listings of affiliates. An order reserves stock and loyalty points,
is paid by bank transfer or through Mercado Pago, and is split into one seller order per seller. This
project models the accounting protocols that share that life cycle and proves what they keep:

- **Stock** (`Stock`, `StockLaws`, `StockTables`): counters, reservations, the three release loops and the
  three ways of consuming a reservation.
- **Loyalty** (`Loyalty`, `LoyaltyLaws`, `LoyaltyTables`): points held, redeemed, earned and given back.
- **Ledger** (`Ledger`, `LedgerLaws`, `LedgerTables`): signed entries in four buckets, written once per
  dedupe key, and payouts.
- **Seller orders** (`SellerOrders`, `SellerOrderLaws`, `ChildOutcomes`, `Detours`, `ParentStatus`,
  `SellerOrderService`): transitions, issues, cancellation requests, refunds, and the status they give their
  parent.
- **Orders** (`Checkout`, `CheckoutLaws`, `CheckoutLoops`, `Pricing`, `Orders`, `OrderInvariant`, `OrderLaws`,
  `OrderSteps`, `OrderRuns`, `Redelivery`, `StockLeaks`, `UncheckedSteps`, `OrderService`): the whole shop as a
  state machine, its invariant, and what holds in every run.
- **Outcomes** (`ProviderEvents`, `OrderCreation`, `OrderOutcomes`, `ChildOutcomes`, `RefundOutcomes`): what
  each transaction does, said of rows, counters, points, children and ledger before and after it and not of
  the function that computes it.
- **Around it**: provider notifications (`WebhookWorker`), money as text and currency conversion (`Decimal`),
  retired-image cleanup (`ImageCleanup`, `ImageCleanupWorker`), filter counts (`Facets`), support chat
  (`SupportChat`).

A transaction is one step. Its specification is a function from a state to a new state or an error; an
error changes nothing. Code that updates rows is a class whose methods run the source's loops and are
proved equal to the specification, including the rollback when a transaction throws, and promise its outcome.
Laws and run theorems are about the specification functions.

The central invariant (`OrderInvariant.Inv`) places every order in one of four stages. *Open*: rows active,
children unpaid, points held. *Released*: given up. *Taken*: rows consumed, children paid, points settled.
*Leaked*: refunded in full by the back office while its rows were still active. The unchecked stock loops
are safe because of it.

A run may take any step of the source except three shapes that the code accepts and that break the
invariant (`OrderInvariant.Admissible`). Each has a lemma saying that the code meets the invariant exactly
otherwise, and a lemma with a failing case:

- an affiliate's stock edit below what is reserved (`StockLaws.AffiliateEditKeepsInvIff`,
  `StockLaws.AffiliateEditCanOversell`);
- a step of a child that is not yet paid (`UncheckedSteps.ChildStepKeepsInvIff`,
  `UncheckedSteps.UnpaidChildMovesParent`);
- a resolution that reopens or completes a child refunded with its parent
  (`UncheckedSteps.ChildStepKeepsInvIff`, `SellerOrderLaws.ReopenedIsDebitedTwice`).

Issues and cancellation requests may be resolved in any order and on closed children. What that can cost is
a separate property, coherence of a child with its open detours: `UncheckedSteps.ChildStepKeepsOrderlyIff`
has its exact condition for every decision, `UncheckedSteps.RunStaysOrderly` keeps it over whole runs, and
`Detours.OutOfOrderResolutionStrands` is a failing case.

Behaviour of the code worth knowing, each proved:

- An approval delivered again after the payment window closed sends an order in fulfilment back to payment
  review; no other event acts twice (`Redelivery.ProviderEventIdempotentIff`, `Redelivery.RedeliveryCanDemote`).
  Accepting the late payment restores it (`Redelivery.FulfilmentUndoesDemotion`).
- A late payment accepted for an expired order takes stock and points and ends *cancelled*
  (`OrderRuns.LateFulfilmentStatus`).
- A full refund recorded for a provider payment before its stock was taken leaves the stock reserved until
  the provider's own refund event arrives (`StockLeaks.FullRefundLeaksIff`, `StockLeaks.LeakPersistsIff`).
  A bank transfer cannot get there (`StockLeaks.TransferNeverLeaks`).
- A child refunded with its parent while disputed can be reopened or completed through its issue, and the
  next whole-order refund debits its seller a second time (`SellerOrderLaws.ReopenedIsDebitedTwice`).
- A whole-order refund debits sellers who were never credited (`SellerOrderLaws.ParentRefundLeavesDebtIff`).
- A child cancelled by the back office before payment can make its parent read *paid*
  (`UncheckedSteps.UnpaidChildMovesParent`), and so can one completed beside one cancelled child
  (`ParentStatus.CompletedAndCancelledReadsPaid`).
- The 24-hour limit on the image cleanup's retry delay is never reached (`ImageCleanup.DelayBounds`).

## Model

| member | source | states |
|---|---|---|
| `OrderRuns.RunIsSafe` | src/modules/orders/orders.ts:382-467 | in every run of admissible transactions, failed ones rolled back, every state satisfies the shop invariant and is later than each state before it: identities kept, no row active again, consumed rows unchanged, ledger only appended to |
| `OrderSteps.StepKeepsInv` | src/modules/orders/orders.ts:566-842 | any admissible transaction (creation, cancellations, expiry, receipts, reviews, provider events, late fulfilment, refunds, child steps with issues and requests resolved in any order, payouts, stock steps) leads from a valid state to a valid, later one |
| `OrderRuns.StatusTellsStock` | src/modules/backoffice/infrastructure/prisma-admin-cms-transaction-store.ts:896-1010 | pending payment or payment review: all rows active; expired: all released; cancelled: none active; any status after payment: all consumed; and an order's rows always agree with each other |
| `OrderRuns.OncePerOrder` | src/modules/orders/orders.ts:825-842 | at most one sale credit per seller order, at most one transaction per order and kind, and neither a credit nor earned or redeemed points for an order whose stock is not all consumed |
| `OrderRuns.CountersMatchHistory` | prisma/seed-demo.ts:489-507 | both stock counters equal their recomputation from history, 0 ≤ reserved ≤ on hand, and promised plus delivered units never exceed the units that entered the shop |
| `OrderRuns.ChildBalance` | src/modules/affiliates/affiliate-marketplace-service.ts:73-130 | a seller order's entries over all buckets sum exactly to its credit minus the debits of its refunds minus a whole-order refund |
| `OrderRuns.RefundsWithinChild` | src/modules/affiliates/affiliate-marketplace-service.ts:244-256 | in every valid state the refunds of a child stay within its total, and once they cover its goods and shipping the seller was debited at least the net and at most net + n − 1 |
| `OrderRuns.PayoutsMatchBooks` | src/modules/affiliates/index.ts:509-521 | withheld equals requested plus processing payouts, paid equals paid payouts, and nothing withheld belongs to a seller order |
| `OrderRuns.PointsMatchHistory` | src/modules/loyalty/loyalty.ts:121-206 | balance and reserved points match the log and the held orders, each balanceAfter is its prefix sum, a redemption exists exactly for redeemed or restored orders, and an order nets earned − redeemed only while settled |
| `OrderRuns.RetryReturnsFirst` | src/modules/orders/orders.ts:576-582 | the same user and key at any later time: the first order and no change for the same body, an error for another body |
| `OrderRuns.DuplicateProductNeverCommits` | src/modules/orders/orders.ts:612-617 | a basket with one product on two lines never becomes an order |
| `OrderRuns.ChildStepReconciles` | src/modules/affiliates/affiliate-marketplace-service.ts:132-151 | after every child step the order status is the one the consistency report expects |
| `OrderRuns.LateFulfilmentStatus` | src/modules/backoffice/infrastructure/prisma-admin-cms-transaction-store.ts:984-1003 | accepting a late payment consumes every row; an order still open ends paid, an order given up before ends cancelled, a taken one returns to the status of its children |
| `OrderLaws.GiveUpKeepsInv` | src/modules/orders/orders.ts:737-750 | giving up an open order never fails and releases rows, points and children together |
| `OrderLaws.AcceptKeepsInv` | src/modules/orders/orders.ts:437-446 | once the rows are consumed, accreditation keeps the invariant and ends in the status the children call for |
| `OrderLaws.EachKeeps` | src/modules/orders/orders.ts:825-839 | the loops over the children keep every seller order valid, append only entries of that order, and only accreditation writes credits |
| `OrderLaws.OpenRowsConsumed` | src/modules/backoffice/infrastructure/prisma-admin-cms-transaction-store.ts:1407-1415 | transfer approval, provider approval and late fulfilment of an open order deduct the same stock and none of them fails |
| `OrderLaws.OpenPointsSettle` | src/modules/loyalty/loyalty.ts:145-182 | settling the points of an open order never fails its balance check |
| `OrderLaws.ReviewKeepsInv` | src/modules/orders/orders.ts:382-388 | moving an order to payment review keeps the invariant in every stage |
| `OrderLaws.FullRefundKeepsInv` | src/modules/backoffice/infrastructure/prisma-admin-cms-transaction-store.ts:1012-1023 | the back office's full refund keeps the invariant and leaves the stock as it was |
| `OrderLaws.ProviderRefundKeepsInv` | src/modules/orders/orders.ts:455-464 | a provider refund never fails, releases what is reserved, closes the children and ends in refund recorded |
| `OrderSteps.ProviderOk` | src/modules/orders/orders.ts:390-467 | a provider event for a known payment always commits and keeps the invariant |
| `OrderSteps.ChildKeepsInv` | src/modules/affiliates/affiliate-marketplace-service.ts:153-333 | an admissible step of a child, in whatever status, keeps the shop valid and leaves the parent in the expected status |
| `OrderSteps.MovingChildIsTaken` | src/modules/affiliates/affiliate-marketplace-service.ts:36-71 | a paid child moves only in an order whose stock was taken |
| `OrderSteps.CreateKeepsInv` | src/modules/orders/orders.ts:583-631 | a created order starts open: rows active, points held, children unpaid, everything else untouched |
| `ProviderEvents.PaymentColumnIff` | src/modules/orders/orders.ts:369-380 | each value of the payment column is an exact condition on the amount, currency, reference, collector, dispute, refund, approval, rejection and terminal fields of the event |
| `OrderOutcomes.ReviewOutcome` | src/modules/backoffice/infrastructure/prisma-admin-cms-transaction-store.ts:935-970 | a receipt can be decided exactly while it is pending, its order unpaid and the version current; approval then consumes every row, lowers both counters by it, settles the points, pays the children, credits each affiliate once and ends paid and approved; rejection releases rows and points, cancels the children, moves no money and ends cancelled and rejected; the chosen receipt carries the decision and none stays pending |
| `OrderOutcomes.ProviderOutcome` | src/modules/orders/orders.ts:369-467 | what every kind of event does to the order, its stock, points, children and ledger: an approval in time takes the money; a late one, a dispute, a partial refund or a mismatch only asks for review; a failure gives an unpaid order up; a full refund closes it; a rejection writes the payment column and nothing else |
| `OrderOutcomes.UnpaidOrderOutcome` | src/modules/orders/orders.ts:412-464 | an event makes an unpaid order paid exactly when it is an approval in time with every row reserved, and expired exactly when it is a failure; rows are consumed in the one case and released in the other, and the stock moves only then or when the order ends refunded |
| `OrderOutcomes.CustomerCancelOutcome` | src/modules/orders/orders.ts:737-750 | a buyer may cancel exactly while payment is pending or under review; the order ends cancelled with rows, points and children released and no other column changed |
| `OrderOutcomes.AdminCancelOutcome` | src/modules/backoffice/infrastructure/prisma-admin-cms-transaction-store.ts:896-913 | the same for an administrator who saw the current version |
| `OrderOutcomes.ExpireOutcome` | src/modules/inventory/application/expire-reservations.ts:20-29 | an unpaid order expires exactly from the end of its window on, and is given up |
| `OrderOutcomes.UploadOutcome` | src/modules/orders/orders.ts:762-776 | a receipt is filed exactly for an unpaid bank transfer; it is pending, its order under review, and nothing else moves |
| `OrderOutcomes.LateOpenOutcome` | src/modules/backoffice/infrastructure/prisma-admin-cms-transaction-store.ts:984-1010 | a late payment is accepted exactly when it awaits a decision in the current version, and with rows still reserved it is taken like any other |
| `OrderOutcomes.LateReleasedOutcome` | src/modules/backoffice/infrastructure/prisma-admin-cms-transaction-store.ts:984-1010 | with released rows it also needs free stock for every product and points that can still be spent; both are then taken, no seller is credited and the order reads cancelled |
| `OrderOutcomes.FullRefundOutcome` | src/modules/backoffice/infrastructure/prisma-admin-cms-transaction-store.ts:1012-1028 | a full refund is accepted exactly for an approved or reviewed payment without refunds on record in the current version; open children are closed, points given back, and counters and rows stay |
| `OrderOutcomes.Refusals` | src/modules/backoffice/infrastructure/prisma-admin-cms-transaction-store.ts:896-1023 | in a valid shop the only refusals of a cancellation, an expiry, a review and a full refund are the named ones, decided by the order's row; no stock loop and no balance check ever fails |
| `OrderCreation.CreateOutcome` | src/modules/orders/orders.ts:583-631 | the new order carries the quoted total, the charge in pesos, its window and nothing paid; it has one active row an item, the stock reserved product by product, the redeemed points held and one unpaid child a seller |
| `OrderCreation.CreateSucceedsIff` | src/modules/orders/orders.ts:583-617 | a priced basket becomes an order exactly when no product is listed twice and a provider payment has a rate that makes it a positive amount |
| `Redelivery.ProviderEventIdempotentIff` | src/modules/payments/mercado-pago-webhook-worker.ts:31-51 | the same event applied again at any later time, as after a crash between the commit and the mark, changes nothing exactly unless it approves an order in fulfilment whose payment window closed in between; then it demotes the order row and touches nothing else |
| `Redelivery.RedeliveriesActOnce` | src/modules/orders/orders.ts:427-428 | however often one event is delivered in a row, every later state is the one its first delivery left, but for that demotion |
| `Redelivery.RedeliveryCanDemote` | src/modules/orders/orders.ts:427-428 | a shipped order: its approval changes nothing at time 5 and sends it to payment review at time 10 |
| `Redelivery.LateApprovalDemotesIff` | src/modules/orders/orders.ts:427-428 | an approval of a taken order touches nothing but its row, and sends it to payment review exactly when it is late or cancelled and the status is not one of four exempt ones |
| `Redelivery.FulfilmentUndoesDemotion` | src/modules/backoffice/infrastructure/prisma-admin-cms-transaction-store.ts:984-1003 | accepting the late payment then takes no stock and restores the status of the children |
| `Redelivery.ProviderMovesStockIff` | src/modules/orders/orders.ts:366-464 | an event moves stock exactly when amount, currency, reference and collector are the expected ones, it is not disputed, and it approves a pending order in time with valid rows, fails a pending one for good, or refunds the whole amount of one with rows still reserved; each case is read off the fields of the event |
| `Redelivery.EchoIsExpected` | src/modules/payments/mercado-pago.ts:89-99 | the amount sent to the provider and echoed as text is the expected amount |
| `StockLeaks.FullRefundLeaksIff` | src/modules/backoffice/infrastructure/prisma-admin-cms-transaction-store.ts:1012-1024 | an accepted full refund leaves rows reserved exactly when the first child was still unpaid, and then the order is a provider payment |
| `StockLeaks.LeakPersistsIff` | src/modules/backoffice/infrastructure/prisma-admin-cms-transaction-store.ts:896-902 | in any run from then on the rows stay reserved exactly as long as no refund event of the provider for that order arrives |
| `StockLeaks.TransferNeverLeaks` | src/modules/backoffice/infrastructure/prisma-admin-cms-transaction-store.ts:1012-1018 | in no run does a refunded bank transfer keep stock reserved: while any of its rows is reserved its full refund is refused |
| `UncheckedSteps.UnpaidChildMovesParent` | src/modules/affiliates/affiliate-marketplace-service.ts:138-146 | a step of an unpaid child moves the parent before payment: action required, cancelled for an only child, paid for one of several; the stock stays reserved |
| `UncheckedSteps.ChildStepKeepsInvIff` | src/modules/affiliates/affiliate-marketplace-service.ts:153-333 | any child step with any decision, on a child in any status, keeps the invariant exactly when the child is already paid and, if it was refunded with its parent, is neither reopened nor completed |
| `UncheckedSteps.ChildStepKeepsOrderlyIff` | src/modules/affiliates/affiliate-marketplace-service.ts:287-333 | a step of a paid child leaves every child coherent with its open detours exactly when the status it returns to fits what is still open |
| `UncheckedSteps.RunStaysOrderly` | src/modules/affiliates/affiliate-marketplace-service.ts:224-333 | in a run whose resolutions keep to that condition no child is ever suspended with nothing open or moving with something open |
| `OrderService.OrderService.SubmitOrder` | src/modules/orders/orders.ts:576-634 | the creating transaction equals its specification and changes nothing when it throws; under a new key a success leaves the order, rows, points and children of the quoted basket |
| `OrderService.OrderService.SettleSellerOrders` | src/modules/orders/orders.ts:825-842 | the accreditation loop and the reconciliation after it equal the fold over the children |
| `OrderService.OrderService.CloseUnpaidSellerOrders` | src/modules/affiliates/affiliate-marketplace-service.ts:335-342 | the loop closes exactly the pending children and writes no entry |
| `OrderService.OrderService.CloseAndReverseSellerOrders` | src/modules/affiliates/affiliate-marketplace-service.ts:344-358 | the loop reverses and closes every child that is not closed yet |
| `OrderService.OrderService.CancelByCustomer` | src/modules/orders/orders.ts:737-750 | customer cancellation gives the order up and writes cancelled, or changes nothing when it is refused |
| `OrderService.OrderService.CancelByAdmin` | src/modules/backoffice/infrastructure/prisma-admin-cms-transaction-store.ts:896-913 | back-office cancellation with the checked release loop gives the order up and writes cancelled, or changes nothing |
| `OrderService.OrderService.ExpireOrder` | src/modules/inventory/application/expire-reservations.ts:20-29 | expiry gives one order up and writes expired, or changes nothing |
| `OrderService.OrderService.ExpireReservations` | src/modules/inventory/application/expire-reservations.ts:17-33 | the sweep expires exactly the orders past their window, with all their rows released, and keeps every other row |
| `OrderService.OrderService.UploadTransferReceipt` | src/modules/orders/orders.ts:755-776 | files a pending receipt and puts the order under review, or changes nothing |
| `OrderService.OrderService.ReviewBankTransfer` | src/modules/backoffice/infrastructure/prisma-admin-cms-transaction-store.ts:935-978 | an accepted approval takes the money and an accepted rejection gives the order up, with the receipts decided accordingly; a failure anywhere restores every table |
| `OrderService.OrderService.DecideReceipts` | src/modules/backoffice/infrastructure/prisma-admin-cms-transaction-store.ts:950-970 | the chosen receipt gets the decision and the other pending ones are rejected |
| `OrderService.OrderService.ApplyMercadoProviderState` | src/modules/orders/orders.ts:390-467 | every branch of an event does what its fields call for: stock, points, children, ledger and both statuses are stated kind by kind; a failure restores every table |
| `OrderService.OrderService.FulfillLatePayment` | src/modules/backoffice/infrastructure/prisma-admin-cms-transaction-store.ts:984-1010 | late fulfilment takes the money of an order still reserved, takes stock and points of a released one a second time, or changes nothing |
| `OrderService.OrderService.RecordRefundOfOrder` | src/modules/backoffice/infrastructure/prisma-admin-cms-transaction-store.ts:1012-1028 | the full refund closes the children, gives the points back and leaves the stock, or changes nothing |
| `SellerOrderService.SellerOrderService.CheckTransition` | src/modules/affiliates/affiliate-marketplace-service.ts:167-191 | the refusals of a transition, decided from the list of allowed actions |
| `SellerOrderService.SellerOrderService.TransitionSellerOrder` | src/modules/affiliates/affiliate-marketplace-service.ts:153-209 | an accepted transition writes status, version and deadline; completing the child moves exactly what is pending for it into available, every other transition leaves the ledger alone, and the parent gets the expected status; a refusal changes nothing |
| `SellerOrderService.SellerOrderService.RequestSellerCancellation` | src/modules/affiliates/affiliate-marketplace-service.ts:211-222 | a request suspends the child and remembers its status and deadline, or changes nothing |
| `SellerOrderService.SellerOrderService.CreateBuyerIssue` | src/modules/affiliates/affiliate-marketplace-service.ts:224-234 | an issue suspends the child and remembers its status and deadline, or changes nothing |
| `SellerOrderService.SellerOrderService.RecordAffiliateRefund` | src/modules/affiliates/affiliate-marketplace-service.ts:238-272 | record, reversal, restock by the lines given, and a payment that reads refunded exactly when the amounts on record over all children, and a full refund if any, reach the total; once per key |
| `SellerOrderService.SellerOrderService.RefundSellerOrder` | src/modules/affiliates/affiliate-marketplace-service.ts:274-285 | a refund that closes the child as refunded, with its record, debit, restock and the payment status the records call for, or no change |
| `SellerOrderService.SellerOrderService.ResolveAffiliateIssue` | src/modules/affiliates/affiliate-marketplace-service.ts:287-313 | the four decisions on an issue: completing and partial refunds leave nothing pending for the seller, refunds are recorded and debited, continuing restores what was interrupted; or no change |
| `SellerOrderService.SellerOrderService.ResolveSellerCancellation` | src/modules/affiliates/affiliate-marketplace-service.ts:315-333 | a rejected request restores what it interrupted, an approved one cancels or refunds the child; or no change |
| `ChildOutcomes.TransitionAcceptedIff` | src/modules/affiliates/affiliate-marketplace-service.ts:167-191 | a transition is accepted exactly in the current version along an edge of fulfilment for the delivery method that the actor may take; a suspended seller may still deliver |
| `ChildOutcomes.OfferedTransition` | src/modules/affiliates/affiliate-marketplace-service.ts:38-71 | a transition is in an actor's list of actions exactly when it is accepted from him in the current version |
| `ChildOutcomes.TransitionRefusal` | src/modules/affiliates/affiliate-marketplace-service.ts:164-191 | a stale version is refused first, then each actor is refused in the way of his kind |
| `ChildOutcomes.OfferedIff` | src/modules/affiliates/affiliate-marketplace-service.ts:38-71 | for which orders a cancellation request, an issue and a refund are offered, and when the offer of the first two is then accepted |
| `ChildOutcomes.TransitionOutcome` | src/modules/affiliates/affiliate-marketplace-service.ts:192-207 | completing an order empties what is pending for it into available without changing the total; every other transition leaves the ledger as it was; delivery starts a deadline of at least a day |
| `ChildOutcomes.DetourOutcome` | src/modules/affiliates/affiliate-marketplace-service.ts:211-234 | when a cancellation request and an issue are accepted, and that each suspends the order and remembers the status and deadline it interrupts |
| `ChildOutcomes.RecordOutcome` | src/modules/affiliates/affiliate-marketplace-service.ts:238-272 | a refund is accepted exactly when its parts add up, fit the order and with earlier refunds stay within its total; its record gives back the goods' share of the commission rounded down, and the seller is debited the rest |
| `ChildOutcomes.RefundOncePerKey` | src/modules/affiliates/affiliate-marketplace-service.ts:240-243 | a refund asked for again under its key, whatever the amount, writes nothing |
| `ChildOutcomes.RefundRefusal` | src/modules/affiliates/affiliate-marketplace-service.ts:239-256 | a refund is refused for its amount, for exceeding the total with the earlier ones, or for its parts, in that order |
| `ChildOutcomes.RefundOrderOutcome` | src/modules/affiliates/affiliate-marketplace-service.ts:274-285 | when an administrator may refund a child, and that it closes as refunded with one record and that debit |
| `ChildOutcomes.IssueOutcome` | src/modules/affiliates/affiliate-marketplace-service.ts:287-313 | when a decision on an issue is accepted and what each does to row, records and ledger; after completion or a partial refund nothing stays pending |
| `ChildOutcomes.CancellationOutcome` | src/modules/affiliates/affiliate-marketplace-service.ts:315-333 | when a decision on a request is accepted, and that rejection restores while approval cancels or refunds |
| `RefundOutcomes.ChildOutcome` | src/modules/affiliates/affiliate-marketplace-service.ts:132-333 | every accepted step of a child in a valid shop: what becomes of the child, its seller's buckets, its order's status and payment, and the stock |
| `RefundOutcomes.ChildStepOutcome` | src/modules/affiliates/affiliate-marketplace-service.ts:258-271 | a step touches its child, its order's status and, only with a new record, payment and stock: the payment reads refunded exactly when the records over all children reach the total, and each product rises by the units restocked |
| `RefundOutcomes.RefundedExactlyWhenWhole` | src/modules/affiliates/affiliate-marketplace-service.ts:268-271 | after a refund on an undiscounted order the payment reads refunded exactly when every child was refunded in full, and partially refunded otherwise |
| `StockLaws.GuardsNeverFire` | src/modules/backoffice/infrastructure/prisma-admin-cms-transaction-store.ts:1398-1415 | in a valid state every check of the back office's release and consume loops holds at every row |
| `StockLaws.ReleaseLoopsAgree` | src/modules/orders/orders.ts:814-820 | the checked and the unchecked release have one effect and never fail |
| `StockLaws.ConsumeLoopsAgree` | src/modules/orders/orders.ts:441-444 | the three ways of consuming active rows have one effect and never fail |
| `StockLaws.PassKeepsInv` | src/modules/inventory/application/expire-reservations.ts:35-41 | release, consumption and late fulfilment keep the counters equal to their recomputation |
| `StockLaws.PlaceOrderKeepsInv` | src/modules/orders/orders.ts:612-617 | reserving a basket keeps the counters equal to their recomputation and within stock |
| `StockLaws.AdjustKeepsInv` | src/modules/backoffice/infrastructure/prisma-admin-cms-transaction-store.ts:869-882 | a stock adjustment keeps the invariant |
| `StockLaws.AffiliateEditKeepsInvIff` | src/modules/affiliates/index.ts:214-219 | the affiliate's stock edit keeps the invariant exactly when the new stock covers what is reserved |
| `StockLaws.AffiliateEditCanOversell` | src/modules/affiliates/index.ts:214-219 | an accepted edit to zero with one unit reserved breaks the invariant |
| `StockLaws.RestockKeepsInv` | src/modules/affiliates/affiliate-marketplace-service.ts:258-266 | a restock keeps the invariant |
| `StockLaws.AddProductKeepsInv` | src/modules/affiliates/index.ts:178 | a new product starts with matching counters |
| `StockLaws.EditOutcome` | src/modules/backoffice/infrastructure/prisma-admin-cms-transaction-store.ts:869-882 | when an adjustment and an affiliate's edit are accepted, and the stock on hand and log they leave |
| `StockLaws.AddOutcome` | src/modules/affiliates/index.ts:178 | a new product starts with its stock, nothing reserved and a matching history, and disturbs no other |
| `StockLaws.RestockOutcome` | src/modules/affiliates/affiliate-marketplace-service.ts:258-266 | a restock raises each product by exactly the units of its lines and logs each line |
| `StockLaws.LateGuardsSuffice` | src/modules/backoffice/infrastructure/prisma-admin-cms-transaction-store.ts:991-998 | the checks of late fulfilment never leave a product with more reserved than on hand |
| `StockLaws.LateFulfilmentIff` | src/modules/backoffice/infrastructure/prisma-admin-cms-transaction-store.ts:991-999 | late fulfilment of released rows succeeds exactly when free stock covers them product by product |
| `StockTables.StockTables.ReleaseReservations` | src/modules/orders/orders.ts:814-820 | the unchecked release loop equals one pass over the rows |
| `StockTables.StockTables.ReleaseReservationsChecked` | src/modules/backoffice/infrastructure/prisma-admin-cms-transaction-store.ts:1398-1405 | the checked release loop succeeds exactly when every check holds, and then equals the same pass |
| `StockTables.StockTables.ConsumeReservationsChecked` | src/modules/backoffice/infrastructure/prisma-admin-cms-transaction-store.ts:1407-1415 | the checked consume loop, with its error when no row is active |
| `StockTables.StockTables.ConsumeReservations` | src/modules/orders/orders.ts:441-444 | the unchecked consume loop of a provider approval |
| `StockTables.StockTables.FulfillLate` | src/modules/backoffice/infrastructure/prisma-admin-cms-transaction-store.ts:990-999 | the late fulfilment loop over active and released rows |
| `StockTables.StockTables.ReserveEach` | src/modules/orders/orders.ts:612-617 | the compare-and-set loop succeeds exactly when the basket's products are distinct |
| `StockTables.StockTables.ReserveLines` | src/modules/orders/orders.ts:612-617 | a basket is reserved exactly when its products are distinct and each is available |
| `StockTables.VersionUnchangedIff` | src/modules/orders/orders.ts:614 | the version check of a line passes exactly when no earlier line had the same product |
| `StockTables.StockTables.RestockLines` | src/modules/affiliates/affiliate-marketplace-service.ts:258-266 | the restock loop adds the quantities and logs an adjustment for each |
| `StockTables.StockTables.SyncSeedInventory` | prisma/seed-demo.ts:489-507 | the seed's recomputation sets both counters from history, and on a valid state changes nothing |
| `LedgerLaws.ReversalExact` | src/modules/affiliates/affiliate-marketplace-service.ts:113-130 | for any starting ledger with fresh keys the waterfall debits exactly the requested amount and never takes pending or reserved below zero |
| `LedgerLaws.ReversalFromPendingIff` | src/modules/affiliates/affiliate-marketplace-service.ts:113-130 | a reversal is one pending entry without debt exactly when pending covers it |
| `LedgerLaws.ReleaseExact` | src/modules/affiliates/affiliate-marketplace-service.ts:103-111 | a release is a cancelling pair that empties pending into available |
| `LedgerLaws.UpsertAllFresh` | src/modules/affiliates/affiliate-marketplace-service.ts:83-87 | fresh keys are all appended in order, so an upsert never swallows them |
| `LedgerLaws.RequestPayoutFacts` | src/modules/affiliates/index.ts:509-521 | a payout request succeeds exactly when the amount is positive and available, conserves every total and never takes available below zero |
| `LedgerLaws.DecidePayoutFacts` | src/modules/affiliates/index.ts:758-782 | a payout decision succeeds exactly in the expected version and status, conserves every total and never lowers available |
| `LedgerLaws.RequestPayoutMoves` | src/modules/affiliates/index.ts:509-521 | a request moves its amount from available to withheld for that affiliate and nothing else |
| `LedgerLaws.DecidePayoutMoves` | src/modules/affiliates/index.ts:758-782 | processing moves nothing, paying moves the amount from withheld to paid out, rejecting back to available, each for that affiliate alone |
| `LedgerLaws.NothingWithheldForSeller` | src/modules/affiliates/affiliate-marketplace-service.ts:116-124 | no reserved entry carries a seller order, so a reversal cannot eat a payout reservation |
| `LedgerLaws.SaleEntriesKeepInv` | src/modules/affiliates/affiliate-marketplace-service.ts:73-88 | sale entries leave the payout accounting alone |
| `LedgerTables.LedgerTables.ReleaseAffiliateEarnings` | src/modules/affiliates/affiliate-marketplace-service.ts:103-111 | the release equals its specification |
| `LedgerTables.LedgerTables.CoverFromBuckets` | src/modules/affiliates/affiliate-marketplace-service.ts:115-124 | the loop over the buckets, with its early exit, equals the closed form of the waterfall |
| `LedgerTables.LedgerTables.ReverseAffiliateLiability` | src/modules/affiliates/affiliate-marketplace-service.ts:113-130 | the whole reversal equals the closed form |
| `SellerOrderLaws.RefundIdentity` | src/modules/affiliates/affiliate-marketplace-service.ts:244-256 | every accepted refund splits into commission given back and seller debit within bounds, and a full refund debits exactly the net |
| `SellerOrderLaws.DebitsRoundUp` | src/modules/affiliates/affiliate-marketplace-service.ts:253-256 | for any refunds on record the commission given back is at most the share of the refunded goods and short of it by less than one cent a refund |
| `SellerOrderLaws.SplitRefundBounds` | src/modules/affiliates/affiliate-marketplace-service.ts:244-256 | an order whose n refund records cover its goods and its shipping was debited at least the net and at most net + n − 1 |
| `SellerOrderLaws.SplitRefundBoundIsTight` | src/modules/affiliates/affiliate-marketplace-service.ts:253-256 | the upper bound is reached by recording two refunds of one cent |
| `SellerOrderLaws.FirstRefundTouchesPendingOnly` | src/modules/affiliates/affiliate-marketplace-service.ts:248-267 | the first refund of a credited, unreleased order is one pending entry and creates no debt |
| `SellerOrderLaws.ParentRefundLeavesDebtIff` | src/modules/affiliates/affiliate-marketplace-service.ts:344-351 | a whole-order refund leaves the seller owing exactly when he was never credited or had been refunded |
| `SellerOrderLaws.ReopenedIsDebitedTwice` | src/modules/affiliates/affiliate-marketplace-service.ts:344-351 | a child refunded with its parent whose issue is then continued or completed is debited its net a second time by the next whole-order refund |
| `SellerOrderLaws.TransitionMovesForward` | src/modules/affiliates/affiliate-marketplace-service.ts:153-198 | an accepted transition strictly raises the rank, bumps the version, fits the delivery method and sets the deadline only on delivery |
| `SellerOrderLaws.TransitionsTerminate` | src/modules/affiliates/affiliate-marketplace-service.ts:22-34 | at most five plain transitions succeed in a row and a pickup order never ships |
| `SellerOrderLaws.TransitionKeepsInv` | src/modules/affiliates/affiliate-marketplace-service.ts:206 | a transition keeps the exact balance; its release key is fresh because versions grow |
| `SellerOrderLaws.RefundKeepsInv` | src/modules/affiliates/affiliate-marketplace-service.ts:238-272 | a refund with an unspent key lowers the balance by exactly its debit and spends the key |
| `SellerOrderLaws.ResolveIssueKeepsInv` | src/modules/affiliates/affiliate-marketplace-service.ts:287-313 | each decision on an issue keeps the exact balance and uses fresh keys |
| `SellerOrderLaws.ResolveCancellationKeepsInv` | src/modules/affiliates/affiliate-marketplace-service.ts:315-333 | each decision on a cancellation request keeps the exact balance and uses fresh keys |
| `SellerOrderLaws.AccreditKeepsInv` | src/modules/orders/orders.ts:827-833 | accreditation credits the net once, into pending |
| `SellerOrderLaws.RefundWithParentKeepsInv` | src/modules/affiliates/affiliate-marketplace-service.ts:344-358 | a whole-order refund debits the net once |
| `SellerOrderLaws.OthersKeepInv` | src/modules/affiliates/affiliate-marketplace-service.ts:90-96 | entries of other seller orders and of payouts do not concern this one |
| `SellerOrders.AllowedActions` | src/modules/affiliates/affiliate-marketplace-service.ts:38-71 | an action is in the list exactly when the actor may take it |
| `Detours.DetoursRestore` | src/modules/affiliates/affiliate-marketplace-service.ts:224-234 | issues continued and requests rejected, nested in any way and closed in reverse order, restore status, deadline and every other column; only the version grows |
| `Detours.ContinueKeepsOrderlyIff` | src/modules/affiliates/affiliate-marketplace-service.ts:294-297 | continuing an open issue, on an open or closed order, is coherent exactly when the order was not refunded with its parent and the status it returns to fits the request still open, if any |
| `Detours.RejectKeepsOrderlyIff` | src/modules/affiliates/affiliate-marketplace-service.ts:320-323 | rejecting an open request, likewise, by the issue still open |
| `Detours.ResolveIssueKeepsOrderlyIff` | src/modules/affiliates/affiliate-marketplace-service.ts:287-313 | each of the four decisions on an issue, on an order in any status: the exact condition for it to stay coherent |
| `Detours.ResolveCancellationKeepsOrderlyIff` | src/modules/affiliates/affiliate-marketplace-service.ts:315-333 | approving a cancellation request always leaves the order coherent, rejecting it exactly when the status it returns to fits the issue still open, if any, and the order was not refunded with its parent |
| `Detours.StatusNamesTheDetour` | src/modules/affiliates/affiliate-marketplace-service.ts:287-333 | while an order is not closed the detour that may be left is the one its status names |
| `Detours.OutOfOrderResolutionStrands` | src/modules/affiliates/affiliate-marketplace-service.ts:287-323 | resolving the outer detour first leaves an order suspended with no open request |
| `Detours.ContinueReopensRefunded` | src/modules/affiliates/affiliate-marketplace-service.ts:294-297 | continuing the issue of an order refunded with its parent reopens it |
| `ParentStatus.DefinitionsAgree` | src/cli/reconcile-affiliates.ts:19-31 | the two definitions of the parent status agree on every list |
| `ParentStatus.OrderIrrelevant` | src/modules/affiliates/affiliate-marketplace-service.ts:132-146 | only which statuses occur matters |
| `ParentStatus.StatusMeaning` | src/modules/affiliates/affiliate-marketplace-service.ts:139-146 | each parent status as an exact condition on how many children are in which kind of status |
| `ParentStatus.CompletedAndCancelledReadsPaid` | src/modules/affiliates/affiliate-marketplace-service.ts:146 | one completed and one cancelled child read as paid |
| `LoyaltyLaws.QuoteAcceptsIff` | src/modules/loyalty/loyalty.ts:92-111 | a redemption is accepted exactly when the program is on, the minimum is met, the points are spendable and their value is within the cap |
| `LoyaltyLaws.QuoteBounds` | src/modules/loyalty/loyalty.ts:92-112 | the discount is at most the configured percentage of the subtotal and the points to earn stay within the limit |
| `LoyaltyLaws.PlaceOrderKeepsInv` | src/modules/loyalty/loyalty.ts:121-130 | holding points keeps the account equal to its history |
| `LoyaltyLaws.ReleaseKeepsInv` | src/modules/loyalty/loyalty.ts:132-143 | releasing points never fails and only returns them |
| `LoyaltyLaws.SettleSucceedsIff` | src/modules/loyalty/loyalty.ts:153-160 | settling fails exactly for a released redemption that free points no longer cover |
| `LoyaltyLaws.SettleKeepsInv` | src/modules/loyalty/loyalty.ts:145-182 | settling an open order settles it; in any later phase it changes nothing |
| `LoyaltyLaws.ReverseKeepsInv` | src/modules/loyalty/loyalty.ts:184-206 | reversing a settled order gives everything back once; otherwise it changes nothing |
| `LoyaltyLaws.ReverseOutcome` | src/modules/loyalty/loyalty.ts:183-206 | reversing changes the balance alone: by what the order redeemed minus what it earned if it was settled, by nothing otherwise |
| `LoyaltyLaws.NetOfOrder` | src/modules/loyalty/loyalty.ts:145-206 | an order's transactions sum to earned − redeemed while settled and to zero otherwise |
| `LoyaltyLaws.RedeemRecordedIff` | src/modules/loyalty/loyalty.ts:153-172 | a redemption is on record exactly for redeemed or restored orders |
| `LoyaltyLaws.RunNet` | src/modules/loyalty/loyalty.ts:132-206 | the same after any sequence of release, settle and reverse |
| `LoyaltyTables.LoyaltyTables.ReservePoints` | src/modules/loyalty/loyalty.ts:121-130 | points are held exactly when the user can spend them; then what can be spent falls by exactly that much, for that user only |
| `LoyaltyTables.LoyaltyTables.SettleOrder` | src/modules/loyalty/loyalty.ts:145-182 | the step-by-step settlement equals its specification |
| `LoyaltyTables.LoyaltyTables.ReverseOrder` | src/modules/loyalty/loyalty.ts:184-206 | the step-by-step reversal equals its specification |
| `CheckoutLoops.CalculateCheckout` | src/modules/orders/orders.ts:150-198 | the three loops and the quote, first error first: line k is item k at price times quantity, the subtotal is their sum over the request, and each group has the sum over its seller's items, the rate of his first item and the rest as net |
| `CheckoutLoops.PriceBasket` | src/modules/orders/orders.ts:153-164 | prices each item at price times quantity and accumulates their sum, or stops at the first bad item |
| `CheckoutLoops.GroupBySeller` | src/modules/orders/orders.ts:167-172 | the insertion-ordered table of sellers equals the filter by seller |
| `CheckoutLoops.DeliverGroups` | src/modules/orders/orders.ts:174-191 | fills shipping, commission and net of each group, or stops at the first error |
| `CheckoutLaws.BasketPricedIff` | src/modules/orders/orders.ts:153-160 | a basket is priced exactly when every item may be ordered by this buyer now |
| `CheckoutLaws.FirstBadItemDecides` | src/modules/orders/orders.ts:153-160 | the first item that may not be ordered decides the error |
| `CheckoutLaws.GroupsPartition` | src/modules/orders/orders.ts:167-172 | sellers are distinct and each line is in its seller's group as often as in the basket and in no other |
| `CheckoutLaws.GroupsConserve` | src/modules/orders/orders.ts:167-172 | the groups' subtotals add up to the basket |
| `CheckoutLaws.CommissionIsCeiling` | src/modules/orders/orders.ts:189 | the commission is the exact ceiling of subtotal × bps / 10000 and at most the subtotal |
| `CheckoutLaws.QuoteConserves` | src/modules/orders/orders.ts:189-197 | net plus commission equals subtotal plus shipping, the discount is capped by the store's own products, and the total covers affiliates and shipping |
| `Pricing.QuotePrices` | src/modules/orders/orders.ts:150-197 | in every accepted quote each line is its item at price times quantity and the subtotal their sum over the request; each seller has one group with the sum over his items, delivered at his own rate or point, charged the rate of his first item (his own or the program's) rounded up; and the total is subtotal plus shipping minus discount |
| `Pricing.BasketRefusal` | src/modules/orders/orders.ts:153-160 | a basket is refused with the reason of its first item that has one: unpublished, not listed, own, changed or out of stock |
| `Pricing.QuoteRewards` | src/modules/loyalty/loyalty.ts:92-114 | the discount is the value of the points asked for, and each full step of what the store's own items then cost earns the points of a step |
| `Decimal.RateRoundTrip` | src/modules/payments/exchange-rate.ts:84-103 | every stored rate prints to a text that parses back to it |
| `Decimal.CanonicalRate` | src/modules/payments/exchange-rate.ts:84-103 | every accepted text has a canonical form with the same rate |
| `Decimal.AmountRoundTrip` | src/modules/payments/mercado-pago.ts:89-99 | every non-negative amount survives the provider text |
| `Decimal.ConversionIsNearest` | src/modules/payments/exchange-rate.ts:93-97 | the result is the one cent amount within half a cent, ties up |
| `Decimal.ConversionMonotone` | src/modules/payments/exchange-rate.ts:93-97 | more dollars or a higher rate never yield fewer pesos |
| `Decimal.TextMeans` | src/modules/payments/exchange-rate.ts:84-91 | digits before the point count whole units and n digits after it 10^-n units each; more places than allowed, or a zero rate, are refused |
| `ImageCleanup.RunIsSafe` | src/modules/media/application/retired-product-image-cleanup.ts:45-83 | with crashes, failing calls and references between any two steps: a referenced file is in exactly one place, a retained one is back in storage, a completed one is gone with its row |
| `ImageCleanup.PassFinishes` | src/modules/media/application/retired-product-image-cleanup.ts:35-38 | wherever an earlier run stopped, one undisturbed pass ends the job the right way |
| `ImageCleanup.TakenUpIff` | src/modules/media/infrastructure/prisma-retired-image-cleanup-repository.ts:34-45 | an unfinished job is taken up exactly when due, a quarter of an hour after an abandoned claim, or at once when its rows are gone |
| `ImageCleanup.RescheduleKept` | src/modules/media/infrastructure/prisma-retired-image-cleanup-repository.ts:60-71 | a job rescheduled while the worker is at its file keeps its status and time unless the file is found needed |
| `ImageCleanup.DelayBounds` | src/modules/media/application/retired-product-image-cleanup.ts:76 | the delay is 2^attempts minutes capped at 1024 minutes, so the 24-hour limit is never reached |
| `ImageCleanupWorker.CleanupRetiredProductImages.ClaimNext` | src/modules/media/infrastructure/prisma-retired-image-cleanup-repository.ts:34-54 | claims the claimable job that was available first, or finds none |
| `ImageCleanupWorker.CleanupRetiredProductImages.DetachRows` | src/modules/media/infrastructure/prisma-retired-image-cleanup-repository.ts:60-71 | detaches rows unless a reference appeared |
| `ImageCleanupWorker.CleanupRetiredProductImages.RestoreAndRetain` | src/modules/media/application/retired-product-image-cleanup.ts:55-60 | a file found referenced ends retained with its bytes back in storage, or throws in a state from which a later run can resume |
| `ImageCleanupWorker.CleanupRetiredProductImages.PurgeAndComplete` | src/modules/media/application/retired-product-image-cleanup.ts:71-73 | a detached file ends completed with no bytes and no row, or throws in a state from which a later run can resume |
| `ImageCleanupWorker.CleanupRetiredProductImages.Handle` | src/modules/media/application/retired-product-image-cleanup.ts:54-79 | a claimed candidate ends retained, completed or put off by its delay, always safe, even when the call that puts it off throws |
| `ImageCleanupWorker.CleanupRetiredProductImages.Quarantine` | src/modules/media/infrastructure/local-retired-image-quarantine.ts:26-34 | moves bytes to quarantine unless both copies exist |
| `ImageCleanupWorker.CleanupRetiredProductImages.Restore` | src/modules/media/infrastructure/local-retired-image-quarantine.ts:36-44 | moves bytes back unless both copies exist |
| `ImageCleanupWorker.CleanupRetiredProductImages.WorkOn` | src/modules/media/application/retired-product-image-cleanup.ts:55-73 | one candidate ends retained or completed in a safe state, or throws in a safe state |
| `ImageCleanupWorker.CleanupRetiredProductImages.Execute` | src/modules/media/application/retired-product-image-cleanup.ts:45-83 | each file is claimed at most once a run and counted once by how it ended; the run stops early only when nothing is claimable |
| `WebhookWorker.DeliveryIsSound` | src/modules/payments/mercado-pago-webhook-worker.ts:31-54 | in any history of attempts, crashes and new notifications an event is marked processed only after its transaction committed, stays processed, and gives up only from the tenth attempt |
| `WebhookWorker.OpenEventsComeBack` | src/modules/payments/mercado-pago-webhook-worker.ts:26-33 | an open event is due and can be claimed once its delay and a lock left by a crash have run out |
| `WebhookWorker.BackoffBounds` | src/modules/payments/mercado-pago-webhook-worker.ts:50 | delays double from five seconds and stay at fifteen minutes exactly from the ninth attempt on |
| `WebhookWorker.ClaimHolds` | src/modules/payments/mercado-pago-webhook-worker.ts:32 | a claim keeps others away for exactly a minute |
| `WebhookWorker.FailureOutcome` | src/modules/payments/mercado-pago-webhook-worker.ts:47-52 | a failed attempt frees the event and gives it up exactly from the tenth on, otherwise puts it off by five seconds to fifteen minutes |
| `WebhookWorker.NotifyRevives` | src/modules/orders/orders.ts:805 | a notification seen again makes its event due and claimable at once exactly unless it was processed |
| `WebhookWorker.OneAttemptEach` | src/modules/payments/mercado-pago-webhook-worker.ts:31-54 | a run attempts each claimable event of its batch exactly once and leaves the others alone |
| `WebhookWorker.HandledOutcome` | src/modules/payments/mercado-pago-webhook-worker.ts:32-53 | an attempt marks its event processed exactly when it resolves to a known payment, and then the event was applied to the shop; otherwise the shop is unchanged and the event waits or is given up at the tenth attempt |
| `WebhookWorker.MercadoPagoWebhookWorker.DueEvents` | src/modules/payments/mercado-pago-webhook-worker.ts:26-30 | up to twenty due events, oldest first, none skipped for a younger one |
| `WebhookWorker.MercadoPagoWebhookWorker.Process` | src/modules/payments/mercado-pago-webhook-worker.ts:32-53 | claims one event that is still open and free, runs its order transaction and records success or failure |
| `WebhookWorker.MercadoPagoWebhookWorker.RunOnce` | src/modules/payments/mercado-pago-webhook-worker.ts:22-58 | a run handles its batch in order and keeps the shop valid; every event that is due and free is attempted unless twenty at least as old fill the batch; while another run is under way it does nothing |
| `Facets.FacetPredictsIff` | src/modules/catalog/infrastructure/prisma-catalog-repository.ts:172-247 | a facet count equals the number of products selected by that option alone exactly when no product in scope stores it with extra spaces |
| `Facets.FacetPredicts` | src/modules/catalog/infrastructure/prisma-catalog-repository.ts:311-341 | with trimmed stored values every count predicts filtering |
| `Facets.UntrimmedMisleads` | src/modules/catalog/infrastructure/prisma-catalog-repository.ts:71-81 | a value stored with a trailing space is counted for an option that selects nothing |
| `Facets.AvailabilityPredicts` | src/modules/catalog/infrastructure/prisma-catalog-repository.ts:319-327 | both availability pairs add up to the total and predict the switches |
| `Facets.CountOptions` | src/modules/catalog/infrastructure/prisma-catalog-repository.ts:71-81 | the counting loop counts each trimmed non-empty value |
| `Facets.CountAvailability` | src/modules/catalog/infrastructure/prisma-catalog-repository.ts:319-327 | the availability loop equals its specification |
| `Facets.PriceRange` | src/modules/catalog/infrastructure/prisma-catalog-repository.ts:315-317 | the range is attained, bounds every price and is missing exactly for no product |
| `Facets.GetFilters` | src/modules/catalog/infrastructure/prisma-catalog-repository.ts:274-343 | every option of every facet carries its count, and with trimmed values the number filtering by it would give |
| `Facets.FoundIff` | src/modules/catalog/infrastructure/prisma-catalog-repository.ts:172-247 | a query finds a product exactly when it meets every selection, lies within the price bounds, fits the stock and grading switches and matches the text |
| `SupportChat.RunKeepsInv` | src/modules/support/support.ts:334-538 | whatever the clock does, message times strictly increase and read positions never go back or past the last message |
| `SupportChat.CreateKeepsInv` | src/modules/support/support.ts:334-384 | a new conversation leaves nothing unread for its author |
| `SupportChat.SendKeepsInv` | src/modules/support/support.ts:439-468 | a message is later than every other of its conversation and leaves nothing unread for its sender |
| `SupportChat.MarkReadKeepsInv` | src/modules/support/support.ts:500-527 | marking all read puts the position at the last message and leaves nothing unread; naming a message leaves exactly the unread ones after it |
| `SupportChat.CreateRetryAddsNothing` | src/modules/support/support.ts:335-351 | a repeated start with the same client identifier, however late, answers with the first message and opens nothing |
| `SupportChat.SendRetryAddsNothing` | src/modules/support/support.ts:422-435 | a retry with the same client identifier, however late, answers with the first message and adds nothing |
| `SupportChat.NewMessageOutcome` | src/modules/support/support.ts:411-468 | a new message is accepted exactly in a visible conversation that is not closed; its time is the clock or just after the last message, and it reopens or advances the conversation by the sender's side |
| `SupportChat.NewConversationOutcome` | src/modules/support/support.ts:353-384 | a start is accepted exactly for an active user and opens a conversation its author has read |
| `SupportChat.ReusedIdentifier` | src/modules/support/support.ts:422-435 | an identifier sent before is answered with the first message exactly for the same message of the same author, and refused otherwise |
| `SupportChat.ReusedStart` | src/modules/support/support.ts:335-351 | a start under an identifier sent before is answered with the first message exactly for the same start by the same author, and refused otherwise |
| `SupportChat.UnreadRises` | src/modules/support/support.ts:71-94 | a new message raises the unread count of everyone on the other side by one, leaves the sender's colleagues' alone and clears the sender's own |
| `SupportChat.ReadAcceptedIff` | src/modules/support/support.ts:500-527 | reading is accepted exactly in a visible conversation up to one of its own messages, and a position never moves back |
| `SupportChat.StatusOutcome` | src/modules/support/support.ts:544-569 | whoever sees a conversation may set its status; that decides whether messages are accepted from then on and moves no unread count |
| `SupportChat.SupportDesk.CreateConversation` | src/modules/support/support.ts:327-397 | keeps times and positions in order, answers with a message of this author and content, leaves nothing unread for the author of a new conversation, and changes nothing otherwise |
| `SupportChat.SupportDesk.SendMessage` | src/modules/support/support.ts:411-483 | keeps times and positions in order; a new message is later than every other of its conversation and leaves its sender nothing unread; a repeated or refused one changes nothing |
| `SupportChat.SupportDesk.MarkConversationRead` | src/modules/support/support.ts:492-538 | never moves a position back or past the last message, and leaves nothing unread when no message is named |
| `SupportChat.SupportDesk.UnreadCount` | src/modules/support/support.ts:71-94 | the count of messages of the other side after the read position |

## Left out

- Product deletion, which also removes reservation rows: a run never deletes a product.
- Manual ledger adjustments and the `--apply` repairs of the reconcile command.
- The text form of dedupe keys: a key is a value with the same components, so distinct components never collide.
- The clock is read once per transaction and once per worker run; the code reads it several times, so two readings within one transaction may differ.
- Timestamps that only record when something happened: released, consumed and completed are flags.
- Compare-and-set updates that repeat a check of the same serial transaction, and the unique keys of the database beyond those the model states.
- In late fulfilment a missing inventory row is reported as out of stock.
- Order items: a restock is given as products and quantities, as the refund resolved them.
- Provider payment attempts, provider identifiers and the lookup that resolves an event to its order: an event carries the order's index.
- The Mercado Pago checkout session, email verification, transfer settings and the shape of the idempotency key.
- Notifications and audit rows, which do not feed back into any modelled state.
- The parent order's own transitions, which the code refuses for every order with seller orders.
- The note of an admin decision, the carrier and the tracking code.
- Facets: sorting of options by label and the database form of the filter; the free-text search is an arbitrary predicate, and trimming knows four space characters.
- Provinces are compared as already lower-cased names.
- Image cleanup: references from news covers, two cleanup processes at once, and references that appear after the stored-file row is gone.
- Support chat: notifications, previews, paging and the realtime hub; messages are identified by their position in the log.
- Webhook worker: the notification payload; what fetching the resource yields is an arbitrary provider state or an error.
- JavaScript numbers beyond 2^53 in points and counters: quantities are unbounded integers.
