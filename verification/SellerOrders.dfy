/**
 Seller orders (the children of an order): transitions, issues, cancellation requests and
 refunds, with the ledger entries each of them writes.
 */
module SellerOrders {
  import opened Wrappers
  import L = Ledger

  datatype Status =
    | PendingPayment | Paid | Preparing | ReadyForPickup | PickedUp | Shipped
    | Completed | CancellationRequested | Cancelled | Disputed | Refunded

  datatype Fulfillment = Pickup | Shipment

  datatype Action =
    | StartPreparing | MakeReady | MarkShipped | MarkPickedUp | ConfirmReceipt
    | RequestCancel | OpenIssue | Complete | Cancel | Refund

  datatype Issue = Issue(open: bool, previousStatus: Status, previousAutoCompleteAt: Option<int>)

  datatype RequestStatus = Requested | Approved | Rejected

  datatype CancelRequest = CancelRequest(status: RequestStatus, previousStatus: Status, previousAutoCompleteAt: Option<int>, version: nat)

  datatype RefundRecord = RefundRecord(tag: L.RefundTag, amount: int, subtotal: int, shipping: int, commissionReversed: int, sellerDebit: int)

  /** `parentRefunded` stands for the history row a refund of the whole order writes. */
  datatype SellerOrder = SellerOrder(
    affiliate: Option<L.AffiliateId>, status: Status, version: nat,
    subtotal: int, shipping: int, commission: int, net: int,
    fulfillment: Fulfillment, autoCompleteAt: Option<int>,
    issues: seq<Issue>, requests: seq<CancelRequest>, refunds: seq<RefundRecord>, parentRefunded: bool)

  /** A seller order together with the ledger its operations append to. */
  datatype Sale = Sale(order: SellerOrder, entries: seq<L.Entry>)

  datatype Error =
    | NotFound | Changed | NotAffiliate | InvalidTransition | NotConfirmable | UseRefundFlow
    | NotCancellable | IssueAlreadyOpen | OrderClosed | NotRefundable | RefundDataRequired
    | RefundAmountInvalid | RefundExceedsOrder | RefundBreakdownInvalid

  const DAY_MS := 24 * 60 * 60 * 1000

  predicate Closed(s: Status) { s in {Completed, Cancelled, Refunded} }

  // ---------- Who may do what ----------

  predicate May(o: SellerOrder, actor: L.Actor, suspended: bool, action: Action) {
    match actor
    case Affiliate =>
      && o.affiliate.Some?
      && (suspended ==> o.status in {Paid, Preparing, ReadyForPickup})
      && (match action
          case StartPreparing => o.status == Paid
          case MakeReady => o.status == Preparing && o.fulfillment == Pickup
          case MarkShipped => o.status == Preparing && o.fulfillment == Shipment
          case MarkPickedUp => o.status == ReadyForPickup
          case RequestCancel => !Closed(o.status) && o.status !in {CancellationRequested, Disputed}
          case _ => false)
    case Buyer =>
      (match action
       case ConfirmReceipt => o.status in {Shipped, PickedUp}
       case OpenIssue => o.affiliate.Some? && !Closed(o.status) && o.status != CancellationRequested
       case _ => false)
    case Admin =>
      (match action
       case StartPreparing => o.status == Paid
       case MakeReady => o.status == Preparing && o.fulfillment == Pickup
       case MarkShipped => o.status == Preparing && o.fulfillment == Shipment
       case MarkPickedUp => o.status == ReadyForPickup
       case Complete => o.status in {Shipped, PickedUp}
       case Cancel => o.status == PendingPayment
       case Refund => o.status !in {PendingPayment, Cancelled, Refunded}
       case _ => false)
    case System =>
      action == Complete && o.status in {Shipped, PickedUp}
  }

  /** The list of actions, pushed one by one; a suspended affiliate acts only on paid orders not delivered yet. */
  method AllowedActions(o: SellerOrder, actor: L.Actor, suspended: bool) returns (result: seq<Action>)
    ensures forall a :: a in result <==> May(o, actor, suspended && o.affiliate.Some?, a)
  {
    result := [];
    if actor == L.Affiliate && suspended && o.affiliate.Some? && o.status !in {Paid, Preparing, ReadyForPickup} {
      return;
    }
    if actor == L.Affiliate && o.affiliate.Some? {
      if o.status == Paid { result := result + [StartPreparing]; }
      if o.status == Preparing { result := result + [if o.fulfillment == Pickup then MakeReady else MarkShipped]; }
      if o.status == ReadyForPickup { result := result + [MarkPickedUp]; }
      if !Closed(o.status) && o.status != CancellationRequested && o.status != Disputed { result := result + [RequestCancel]; }
      return;
    }
    if actor == L.Buyer {
      if o.status == Shipped || o.status == PickedUp { result := result + [ConfirmReceipt]; }
      if o.affiliate.Some? && !Closed(o.status) && o.status != CancellationRequested { result := result + [OpenIssue]; }
      return;
    }
    if actor == L.Admin {
      if o.status == Paid { result := result + [StartPreparing]; }
      if o.status == Preparing { result := result + [if o.fulfillment == Pickup then MakeReady else MarkShipped]; }
      if o.status == ReadyForPickup { result := result + [MarkPickedUp]; }
      if o.status == Shipped || o.status == PickedUp { result := result + [Complete]; }
      if o.status == PendingPayment { result := result + [Cancel]; }
      if o.status != PendingPayment && o.status != Cancelled && o.status != Refunded { result := result + [Refund]; }
      return;
    }
    if actor == L.System {
      if o.status == Shipped || o.status == PickedUp { result := result + [Complete]; }
    }
  }

  // ---------- Plain transitions ----------

  function ActionFor(next: Status): Option<Action> {
    match next
    case Preparing => Some(StartPreparing)
    case ReadyForPickup => Some(MakeReady)
    case PickedUp => Some(MarkPickedUp)
    case Shipped => Some(MarkShipped)
    case Completed => Some(Complete)
    case Cancelled => Some(Cancel)
    case _ => None
  }

  function TransitionError(o: SellerOrder, next: Status, actor: L.Actor, suspended: bool): Option<Error> {
    match actor
    case Affiliate =>
      if o.affiliate.None? then Some(NotAffiliate)
      else if next in {Preparing, ReadyForPickup, PickedUp, Shipped} && May(o, actor, suspended, ActionFor(next).value) then None
      else Some(InvalidTransition)
    case Buyer => if next == Completed && May(o, actor, suspended, ConfirmReceipt) then None else Some(NotConfirmable)
    case System => if next == Completed && May(o, actor, suspended, Complete) then None else Some(InvalidTransition)
    case Admin =>
      if next == Refunded then Some(UseRefundFlow)
      else if next == Cancelled && o.status != PendingPayment then Some(UseRefundFlow)
      else if ActionFor(next).Some? && May(o, actor, suspended, ActionFor(next).value) then None
      else Some(InvalidTransition)
  }

  function ReleaseIfAffiliate(s: Sale, id: L.SellerOrderId, tag: L.ReleaseTag): Sale {
    if s.order.affiliate.None? then s else s.(entries := L.Release(s.entries, id, s.order.affiliate.value, tag))
  }

  function Transition(s: Sale, id: L.SellerOrderId, expectedVersion: nat, next: Status, actor: L.Actor,
                      suspended: bool, now: int, autoCompleteDays: int): Result<Sale, Error> {
    var o := s.order;
    if o.version != expectedVersion then Failure(Changed) else
    match TransitionError(o, next, actor, suspended)
    case Some(e) => Failure(e)
    case None =>
      var auto := if next in {Shipped, PickedUp} then Some(now + Max(1, autoCompleteDays) * DAY_MS) else None;
      var moved := s.(order := o.(status := next, version := o.version + 1, autoCompleteAt := auto));
      Success(if next == Completed && actor != L.Affiliate then ReleaseIfAffiliate(moved, id, L.ByActor(actor, expectedVersion)) else moved)
  }

  // ---------- Issues and cancellation requests ----------

  predicate HasOpenIssue(o: SellerOrder) { exists i <- o.issues :: i.open }

  predicate HasOpenRequest(o: SellerOrder) { exists r <- o.requests :: r.status == Requested }

  function RequestCancellation(o: SellerOrder, affiliate: L.AffiliateId, expectedVersion: nat): Result<SellerOrder, Error> {
    if o.affiliate != Some(affiliate) then Failure(NotFound)
    else if o.version != expectedVersion then Failure(Changed)
    else if HasOpenRequest(o) || Closed(o.status) || o.status == PendingPayment then Failure(NotCancellable)
    else Success(o.(status := CancellationRequested, version := o.version + 1, autoCompleteAt := None,
                    requests := o.requests + [CancelRequest(Requested, o.status, o.autoCompleteAt, 1)]))
  }

  /** The code accepts an issue in any open status, including one not yet paid. */
  function CreateIssue(o: SellerOrder): Result<SellerOrder, Error> {
    if o.affiliate.None? then Failure(NotFound)
    else if HasOpenIssue(o) then Failure(IssueAlreadyOpen)
    else if Closed(o.status) then Failure(OrderClosed)
    else Success(o.(status := Disputed, version := o.version + 1, autoCompleteAt := None,
                    issues := o.issues + [Issue(true, o.status, o.autoCompleteAt)]))
  }

  // ---------- Refunds ----------

  datatype RefundArgs = RefundArgs(amount: int, subtotal: Option<int>, shipping: Option<int>)

  function RefundSubtotal(o: SellerOrder, a: RefundArgs): int {
    if a.subtotal.Some? then a.subtotal.value else Min(a.amount, o.subtotal)
  }

  function RefundShipping(o: SellerOrder, a: RefundArgs): int {
    if a.shipping.Some? then a.shipping.value else Max(a.amount - RefundSubtotal(o, a), 0)
  }

  function CommissionReversed(o: SellerOrder, subtotal: int): int {
    if o.subtotal > 0 then Min(subtotal, o.subtotal) * o.commission / o.subtotal else 0
  }

  function RefundedAmount(refunds: seq<RefundRecord>): int {
    if refunds == [] then 0 else RefundedAmount(refunds[..|refunds| - 1]) + refunds[|refunds| - 1].amount
  }

  function Debits(refunds: seq<RefundRecord>): int {
    if refunds == [] then 0 else Debits(refunds[..|refunds| - 1]) + refunds[|refunds| - 1].sellerDebit
  }

  predicate HasRefund(o: SellerOrder, tag: L.RefundTag) { exists r <- o.refunds :: r.tag == tag }

  function ReverseIfAffiliate(s: Sale, id: L.SellerOrderId, debit: int, tag: L.RefundTag): Sale {
    if s.order.affiliate.None? || debit <= 0 then s
    else s.(entries := L.ReverseLiability(s.entries, id, s.order.affiliate.value, debit, tag))
  }

  function RecordOf(o: SellerOrder, a: RefundArgs, tag: L.RefundTag): RefundRecord {
    var subtotal := RefundSubtotal(o, a);
    var reversed := CommissionReversed(o, subtotal);
    RefundRecord(tag, a.amount, subtotal, RefundShipping(o, a), reversed, Max(a.amount - reversed, 0))
  }

  function RefundError(o: SellerOrder, a: RefundArgs): Option<Error> {
    var subtotal := RefundSubtotal(o, a);
    var shipping := RefundShipping(o, a);
    if RefundedAmount(o.refunds) + a.amount > o.subtotal + o.shipping then Some(RefundExceedsOrder)
    else if subtotal < 0 || subtotal > o.subtotal || shipping < 0 || shipping > o.shipping || subtotal + shipping != a.amount
    then Some(RefundBreakdownInvalid)
    else None
  }

  /** `recordAffiliateRefund`, without the restock and payment updates the order makes beside it. */
  function RecordRefund(s: Sale, id: L.SellerOrderId, a: RefundArgs, tag: L.RefundTag): Result<Sale, Error> {
    var o := s.order;
    if a.amount <= 0 then Failure(RefundAmountInvalid)
    else if HasRefund(o, tag) then Success(s)
    else match RefundError(o, a)
    case Some(e) => Failure(e)
    case None =>
      var r := RecordOf(o, a, tag);
      Success(ReverseIfAffiliate(s.(order := o.(refunds := o.refunds + [r])), id, r.sellerDebit, tag))
  }

  function CloseAs(o: SellerOrder, status: Status): SellerOrder {
    o.(status := status, autoCompleteAt := None, version := o.version + 1)
  }

  function RefundOrder(s: Sale, id: L.SellerOrderId, expectedVersion: nat, a: RefundArgs, paymentPending: bool): Result<Sale, Error> {
    var o := s.order;
    if o.version != expectedVersion then Failure(Changed)
    else if paymentPending || o.status in {PendingPayment, Cancelled, Refunded} then Failure(NotRefundable)
    else match RecordRefund(s, id, a, L.SellerOrderRefund(o.version))
    case Failure(e) => Failure(e)
    case Success(t) => Success(t.(order := CloseAs(t.order, Refunded)))
  }

  datatype Decision = Continue | CompleteIt | PartialRefund | FullRefund

  function CloseIssue(o: SellerOrder, k: nat): SellerOrder
    requires k < |o.issues|
  {
    o.(issues := o.issues[k := o.issues[k].(open := false)])
  }

  function ResolveIssue(s: Sale, id: L.SellerOrderId, k: nat, expectedVersion: nat, decision: Decision, refund: Option<RefundArgs>): Result<Sale, Error> {
    var o := s.order;
    if k >= |o.issues| then Failure(NotFound)
    else if !o.issues[k].open || o.version != expectedVersion then Failure(Changed)
    else if decision in {PartialRefund, FullRefund} && refund.None? then Failure(RefundDataRequired)
    else match decision
    case Continue =>
      Success(s.(order := CloseIssue(o.(status := o.issues[k].previousStatus, autoCompleteAt := o.issues[k].previousAutoCompleteAt,
                                        version := o.version + 1), k)))
    case CompleteIt =>
      Success(ReleaseIfAffiliate(s.(order := CloseIssue(CloseAs(o, Completed), k)), id, L.ByIssue(k)))
    case PartialRefund =>
      (match RecordRefund(s, id, refund.value, L.IssueRefund(k, false))
       case Failure(e) => Failure(e)
       case Success(t) => Success(ReleaseIfAffiliate(t.(order := CloseIssue(CloseAs(t.order, Completed), k)), id, L.ByIssue(k))))
    case FullRefund =>
      (match RecordRefund(s, id, refund.value, L.IssueRefund(k, true))
       case Failure(e) => Failure(e)
       case Success(t) => Success(t.(order := CloseIssue(CloseAs(t.order, Refunded), k))))
  }

  function CloseRequest(o: SellerOrder, k: nat, status: RequestStatus): SellerOrder
    requires k < |o.requests|
  {
    o.(requests := o.requests[k := o.requests[k].(status := status, version := o.requests[k].version + 1)])
  }

  function ResolveCancellation(s: Sale, id: L.SellerOrderId, k: nat, expectedVersion: nat, approve: bool,
                               refund: Option<RefundArgs>, paymentAccredited: bool): Result<Sale, Error> {
    var o := s.order;
    if k >= |o.requests| then Failure(NotFound)
    else if o.requests[k].status != Requested || o.requests[k].version != expectedVersion then Failure(Changed)
    else if approve && paymentAccredited && refund.None? then Failure(RefundDataRequired)
    else if !approve then
      Success(s.(order := CloseRequest(o.(status := o.requests[k].previousStatus, autoCompleteAt := o.requests[k].previousAutoCompleteAt,
                                          version := o.version + 1), k, Rejected)))
    else if refund.None? then
      Success(s.(order := CloseRequest(CloseAs(o, Cancelled), k, Approved)))
    else match RecordRefund(s, id, refund.value, L.CancellationRefund(k))
    case Failure(e) => Failure(e)
    case Success(t) => Success(t.(order := CloseRequest(CloseAs(t.order, Refunded), k, Approved)))
  }

  // ---------- What the parent order does to its children ----------

  /** Payment accreditation: a pending child becomes paid and its net is credited once. */
  function Accredit(s: Sale, id: L.SellerOrderId): Sale {
    if s.order.status != PendingPayment then s else
    var paid := s.(order := s.order.(status := Paid, version := s.order.version + 1));
    if s.order.affiliate.None? || L.HasSale(s.entries, id) then paid
    else paid.(entries := s.entries + [L.SaleEntry(id, s.order.affiliate.value, s.order.net)])
  }

  function CloseUnpaid(o: SellerOrder): SellerOrder {
    if o.status == PendingPayment then o.(status := Cancelled, version := o.version + 1) else o
  }

  /** A refund of the whole order debits the child's full net, whatever was credited or refunded before. */
  function RefundWithParent(s: Sale, id: L.SellerOrderId): Sale {
    if s.order.status in {Cancelled, Refunded} then s else
    var reversed := ReverseIfAffiliate(s, id, s.order.net, L.ParentRefund(id.order));
    reversed.(order := CloseAs(s.order, Refunded).(parentRefunded := true))
  }

  // ---------- The invariant of one seller order ----------

  predicate Fits(s: Status, f: Fulfillment) {
    && (s == Shipped ==> f == Shipment)
    && (s in {ReadyForPickup, PickedUp} ==> f == Pickup)
  }

  ghost predicate AmountsOk(o: SellerOrder) {
    && 0 <= o.commission <= o.subtotal && 0 <= o.shipping
    && o.net == o.subtotal + o.shipping - o.commission
  }

  ghost predicate StatusesFit(o: SellerOrder) {
    && Fits(o.status, o.fulfillment)
    && (forall i <- o.issues :: Fits(i.previousStatus, o.fulfillment))
    && (forall r <- o.requests :: Fits(r.previousStatus, o.fulfillment))
  }

  /** A refund tag that no later operation of this order can use again. */
  ghost predicate Spent(o: SellerOrder, tag: L.RefundTag) {
    match tag
    case IssueRefund(k, _) => k < |o.issues| && !o.issues[k].open
    case CancellationRefund(k) => k < |o.requests| && o.requests[k].status != Requested
    case SellerOrderRefund(v) => v < o.version
    case ParentRefund(_) => o.parentRefunded
  }

  /** A ledger key that no later operation of this order can write again. */
  ghost predicate KeyUsed(o: SellerOrder, key: L.Key) {
    match key
    case SaleKey(_) => true
    case ReleaseKey(_, ByActor(_, v), _) => v < o.version
    case ReleaseKey(_, ByIssue(k), _) => k < |o.issues| && !o.issues[k].open
    case ReversalKey(_, tag, _) => Spent(o, tag)
    case DebtKey(_, tag) => Spent(o, tag)
    case PayoutKey(_, _) => false
  }

  ghost predicate EntryOf(o: SellerOrder, id: L.SellerOrderId, e: L.Entry) {
    && o.affiliate == Some(e.affiliate)
    && !e.key.PayoutKey? && e.key.seller == id
    && KeyUsed(o, e.key)
    && (e.key.SaleKey? ==> e.bucket == L.Pending && e.amount == o.net)
  }

  ghost predicate KeysOk(o: SellerOrder, id: L.SellerOrderId, entries: seq<L.Entry>) {
    && (forall e <- entries :: e.seller == Some(id) ==> EntryOf(o, id, e))
    && (forall r <- o.refunds :: Spent(o, r.tag) && !r.tag.ParentRefund? && r.sellerDebit >= 0)
  }

  function Owed(o: SellerOrder, id: L.SellerOrderId, entries: seq<L.Entry>): int {
    (if L.HasSale(entries, id) then o.net else 0) - Debits(o.refunds) - (if o.parentRefunded then o.net else 0)
  }

  /** The order's entries over all buckets sum exactly to what it is owed, and Pending is never negative. */
  ghost predicate BalanceOk(o: SellerOrder, id: L.SellerOrderId, entries: seq<L.Entry>) {
    o.affiliate.Some? ==>
      && L.Sum(entries, L.Where(o.affiliate.value, None, Some(id))) == Owed(o, id, entries)
      && L.BalanceOf(entries, o.affiliate.value, L.Pending, id) >= 0
  }

  /** A refund record has the parts and the rounding of this order. */
  ghost predicate RecordOk(o: SellerOrder, r: RefundRecord) {
    && 0 <= r.subtotal <= o.subtotal && 0 <= r.shipping <= o.shipping && 0 < r.amount == r.subtotal + r.shipping
    && r.commissionReversed == CommissionReversed(o, r.subtotal) && r.sellerDebit == r.amount - r.commissionReversed
  }

  /** Refunds never exceed the order. */
  ghost predicate RefundsOk(o: SellerOrder) {
    (forall r <- o.refunds :: RecordOk(o, r)) && RefundedAmount(o.refunds) <= o.subtotal + o.shipping
  }

  ghost predicate Inv(o: SellerOrder, id: L.SellerOrderId, entries: seq<L.Entry>) {
    AmountsOk(o) && StatusesFit(o) && KeysOk(o, id, entries) && BalanceOk(o, id, entries)
  }
}
