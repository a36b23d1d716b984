/**
 The life of an order: every transaction that touches it, as a function from one state of the shop
 to the next.  A transaction that throws changes nothing, so a `Failure` carries no state.
 */
module Orders {
  import opened Wrappers
  import opened ParentStatus
  import C = Checkout
  import CL = CheckoutLaws
  import D = Decimal
  import Le = Ledger
  import Lo = Loyalty
  import S = SellerOrders
  import St = Stock

  datatype PaymentStatus =
    | Pending | UnderReview | Approved | PartiallyRefunded | Rejected | Failed | Refunded | Disputed | RequiresReview

  datatype Method = BankTransfer | MercadoPago

  datatype Review = ReviewPending | ReviewApproved | ReviewRejected

  /** `fullRefund` stands for the refund record of the whole payment. */
  datatype Order = Order(
    user: Lo.UserId, number: string, key: string, hash: string,
    status: OrderStatus, version: nat, expiresAt: Option<int>,
    payMethod: Method, payment: PaymentStatus, total: int, providerAmount: Option<int>, fullRefund: bool,
    receipts: seq<Review>, children: seq<S.SellerOrder>)

  /** Reservation rows and loyalty columns of order `i` are entry `i` of their tables. */
  datatype Shop = Shop(stock: St.Stock, loyalty: Lo.Loyalty, books: Le.Books, orders: seq<Order>)
  {
    predicate Shape() {
      |stock.reservations| == |orders| == |loyalty.orders|
    }
  }

  datatype Error =
    | CheckoutFailed(checkout: C.Error) | StockFailed(stock: St.Error) | LoyaltyFailed(loyalty: Lo.Error)
    | SellerOrderFailed(seller: S.Error) | LedgerFailed(ledger: Le.Error)
    | IdempotencyKeyReused | ExchangeQuoteExpired | InvalidPaymentAmount | NotFound | NotCancellable | OrderChanged
    | NotReceiptEligible | NotReviewable | NotLateFulfillable | NotRefundable | NotExpired | NoPayment

  const MINUTE_MS := 60 * 1000

  predicate IsPaymentPending(s: OrderStatus) { s in {PendingPayment, PaymentReview} }

  function WithStatus(o: Order, status: OrderStatus): Order {
    o.(status := status, version := o.version + 1)
  }

  // ---------- Order creation ----------

  datatype Placement = Placement(number: string, key: string, hash: string, payMethod: Method, rateMicros: Option<nat>, now: int)

  /** The unique key on (user, idempotency key). */
  function Previous(orders: seq<Order>, user: Lo.UserId, key: string): (r: Option<nat>)
    ensures r.Some? ==> r.value < |orders| && orders[r.value].user == user && orders[r.value].key == key
    ensures r.None? ==> forall o <- orders :: !(o.user == user && o.key == key)
  {
    if orders == [] then None else
      var n := |orders| - 1;
      var earlier := Previous(orders[..n], user, key);
      if earlier.Some? then earlier else if orders[n].user == user && orders[n].key == key then Some(n) else None
  }

  /** Mercado Pago orders are charged in pesos at a quoted rate that must not have expired. */
  function ProviderAmount(p: Placement, total: int): Result<Option<int>, Error> {
    match p.payMethod
    case BankTransfer => Success(None)
    case MercadoPago =>
      if p.rateMicros.None? then Failure(ExchangeQuoteExpired) else
      match D.UsdMinorToArsMinor(total, p.rateMicros.value)
      case Failure(_) => Failure(InvalidPaymentAmount)
      case Success(amount) => if amount <= 0 then Failure(InvalidPaymentAmount) else Success(Some(amount))
  }

  function Window(m: Method): int {
    match m
    case BankTransfer => 24 * 60 * MINUTE_MS
    case MercadoPago => 30 * MINUTE_MS
  }

  function NewOrder(p: Placement, q: C.Quote, user: Lo.UserId, providerAmount: Option<int>): Order {
    Order(user, p.number, p.key, p.hash, PendingPayment, 1, Some(p.now + Window(p.payMethod)),
          p.payMethod, Pending, q.total, providerAmount, false, [], C.Children(q))
  }

  /** Points are held first, then stock line by line; the children come with the order. */
  function Record(s: Shop, q: C.Quote, user: Lo.UserId, p: Placement, amount: Option<int>): Result<Shop, Error>
    requires q.loyalty.pointsToEarn >= 0
  {
    match Lo.PlaceOrder(s.loyalty, user, q.loyalty.pointsRedeemed, q.loyalty.pointsToEarn)
    case Failure(e) => Failure(LoyaltyFailed(e))
    case Success(loyalty) =>
      match St.PlaceOrder(s.stock, C.StockLines(q), p.now + Window(p.payMethod))
      case Failure(e) => Failure(StockFailed(e))
      case Success(stock) => Success(Shop(stock, loyalty, s.books, s.orders + [NewOrder(p, q, user, amount)]))
  }

  function CreateOrder(s: Shop, c: C.Catalog, r: C.Request, p: Placement): Result<Shop, Error> {
    match C.Calculate(c, s.stock.inventory, Lo.AccountOf(s.loyalty, r.user), r)
    case Failure(e) => Failure(CheckoutFailed(e))
    case Success(q) =>
      CL.QuoteChildren(c, s.stock.inventory, Lo.AccountOf(s.loyalty, r.user), r);
      match ProviderAmount(p, q.total)
      case Failure(e) => Failure(e)
      case Success(amount) => Record(s, q, r.user, p, amount)
  }

  /** The new state and the index of the order the buyer is answered with. */
  function Place(s: Shop, c: C.Catalog, r: C.Request, p: Placement): Result<(Shop, nat), Error> {
    match Previous(s.orders, r.user, p.key)
    case Some(i) => if s.orders[i].hash == p.hash then Success((s, i)) else Failure(IdempotencyKeyReused)
    case None =>
      match CreateOrder(s, c, r, p)
      case Failure(e) => Failure(e)
      case Success(t) => Success((t, |s.orders|))
  }

  // ---------- What an order does to its children ----------

  function Statuses(children: seq<S.SellerOrder>): (ss: seq<S.Status>)
    ensures |ss| == |children|
    ensures forall k | 0 <= k < |children| :: ss[k] == children[k].status
  {
    seq(|children|, k requires 0 <= k < |children| => children[k].status)
  }

  function Reconcile(o: Order): Order {
    match Next(Statuses(o.children))
    case None => o
    case Some(next) => if next == o.status then o else WithStatus(o, next)
  }

  datatype ParentOp = Accredit | Close | RefundAll

  function Affect(op: ParentOp, s: S.Sale, id: Le.SellerOrderId): S.Sale {
    match op
    case Accredit => S.Accredit(s, id)
    case Close => s.(order := S.CloseUnpaid(s.order))
    case RefundAll => S.RefundWithParent(s, id)
  }

  datatype Family = Family(children: seq<S.SellerOrder>, entries: seq<Le.Entry>)

  function Once(op: ParentOp, i: nat, f: Family, k: nat): (g: Family)
    requires k < |f.children|
    ensures |g.children| == |f.children|
  {
    var t := Affect(op, S.Sale(f.children[k], f.entries), Le.SellerOrderId(i, k));
    Family(f.children[k := t.order], t.entries)
  }

  /** The first `n` children of order `i`, one after the other. */
  function Each(op: ParentOp, i: nat, f: Family, n: nat): (g: Family)
    requires n <= |f.children|
    ensures |g.children| == |f.children|
  {
    if n == 0 then f else Once(op, i, Each(op, i, f, n - 1), n - 1)
  }

  function All(op: ParentOp, i: nat, children: seq<S.SellerOrder>, entries: seq<Le.Entry>): Family {
    Each(op, i, Family(children, entries), |children|)
  }

  // ---------- Giving an unpaid order up ----------

  /** Two of the four callers release with checked updates, two without. */
  ghost function ReleaseStock(s: St.Stock, i: nat, checked: bool): Result<St.Stock, St.Error>
    requires i < |s.reservations|
  {
    if checked then St.ReleaseOrderGuarded(s, i) else St.ReleaseOrder(s, i)
  }

  /** Closes the pending children of `o` (the new row of order `i`) and gives stock and points back. */
  ghost function GiveUp(s: Shop, i: nat, o: Order, checked: bool): Result<Shop, Error>
    requires s.Shape() && i < |s.orders|
  {
    match ReleaseStock(s.stock, i, checked)
    case Failure(e) => Failure(StockFailed(e))
    case Success(stock) =>
      match Lo.Release(s.loyalty, i)
      case Failure(e) => Failure(LoyaltyFailed(e))
      case Success(loyalty) =>
        var f := All(Close, i, o.children, s.books.entries);
        Success(Shop(stock, loyalty, s.books.(entries := f.entries), s.orders[i := o.(children := f.children)]))
  }

  ghost function CustomerCancel(s: Shop, i: nat): Result<Shop, Error>
    requires s.Shape()
  {
    if i >= |s.orders| then Failure(NotFound)
    else if !IsPaymentPending(s.orders[i].status) then Failure(NotCancellable)
    else GiveUp(s, i, WithStatus(s.orders[i], Cancelled), false)
  }

  ghost function AdminCancel(s: Shop, i: nat, expectedVersion: nat): Result<Shop, Error>
    requires s.Shape()
  {
    if i >= |s.orders| then Failure(NotFound)
    else if !IsPaymentPending(s.orders[i].status) then Failure(NotCancellable)
    else if s.orders[i].version != expectedVersion then Failure(OrderChanged)
    else GiveUp(s, i, WithStatus(s.orders[i], Cancelled), true)
  }

  /** The expiry of one order; the sweep runs it for each order past its window. */
  ghost function Expire(s: Shop, i: nat, now: int): Result<Shop, Error>
    requires s.Shape()
  {
    if i >= |s.orders| then Failure(NotFound) else
    var o := s.orders[i];
    if !IsPaymentPending(o.status) || o.expiresAt.None? || o.expiresAt.value > now then Failure(NotExpired)
    else GiveUp(s, i, WithStatus(o, Expired), false)
  }

  // ---------- Bank transfers ----------

  function UploadReceipt(s: Shop, i: nat): Result<Shop, Error> {
    if i >= |s.orders| || s.orders[i].payMethod != BankTransfer then Failure(NotFound) else
    var o := s.orders[i];
    if !IsPaymentPending(o.status) then Failure(NotReceiptEligible) else
    var filed := o.(payment := UnderReview, receipts := o.receipts + [ReviewPending]);
    Success(s.(orders := s.orders[i := if o.status == PaymentReview then filed else WithStatus(filed, PaymentReview)]))
  }

  function Decided(receipts: seq<Review>, receipt: nat, review: Review): (rs: seq<Review>)
    ensures |rs| == |receipts|
  {
    seq(|receipts|, k requires 0 <= k < |receipts| =>
      if k == receipt then review else if receipts[k] == ReviewPending then ReviewRejected else receipts[k])
  }

  /** The money arrived and `stock` says what became of the rows: points settle, children are accredited. */
  ghost function Accept(s: Shop, i: nat, o: Order, stock: St.Stock): Result<Shop, Error>
    requires s.Shape() && i < |s.orders|
  {
    match Lo.Settle(s.loyalty, i)
    case Failure(e) => Failure(LoyaltyFailed(e))
    case Success(loyalty) =>
      var f := All(Accredit, i, o.children, s.books.entries);
      Success(Shop(stock, loyalty, s.books.(entries := f.entries), s.orders[i := Reconcile(o.(children := f.children))]))
  }

  ghost function ReviewTransfer(s: Shop, i: nat, receipt: nat, expectedVersion: nat, approve: bool): Result<Shop, Error>
    requires s.Shape()
  {
    if i >= |s.orders| || s.orders[i].payMethod != BankTransfer then Failure(NotFound) else
    var o := s.orders[i];
    if receipt >= |o.receipts| then Failure(NotFound)
    else if o.receipts[receipt] != ReviewPending || !IsPaymentPending(o.status) then Failure(NotReviewable)
    else if approve then
      match St.ConsumeOrderGuarded(s.stock, i)
      case Failure(e) => Failure(StockFailed(e))
      case Success(stock) =>
        if o.version != expectedVersion then Failure(OrderChanged)
        else Accept(s, i, WithStatus(o, Paid).(payment := Approved, receipts := Decided(o.receipts, receipt, ReviewApproved)), stock)
    else if o.version != expectedVersion then Failure(OrderChanged)
    else GiveUp(s, i, WithStatus(o, Cancelled).(payment := Rejected, receipts := Decided(o.receipts, receipt, ReviewRejected)), true)
  }

  // ---------- Provider events ----------

  datatype ProviderState = ProviderState(
    reference: string, amount: int, currency: string, collector: Option<string>, status: string,
    approved: bool, rejected: bool, terminal: bool, refunded: int, disputed: bool, expectedCurrency: string)

  const OPEN_PROVIDER_STATUSES := {"created", "processing", "action_required", "pending", "in_process", "authorized"}

  function StatusForProvider(st: ProviderState, expected: int, reference: string, collector: Option<string>): PaymentStatus {
    if st.amount < 0 || st.amount != expected || st.currency != st.expectedCurrency
       || (collector.Some? && st.collector != collector) || st.reference != reference then RequiresReview
    else if st.disputed then Disputed
    else if st.refunded >= expected && expected > 0 then Refunded
    else if st.refunded > 0 then PartiallyRefunded
    else if st.approved then Approved
    else if st.rejected then Rejected
    else if st.terminal then Failed
    else if st.status in OPEN_PROVIDER_STATUSES then Pending
    else RequiresReview
  }

  function MoveToPaymentReview(o: Order): Order {
    if o.status in {Paid, Completed, RefundRecorded, PaymentRequiresReview} then o else WithStatus(o, PaymentRequiresReview)
  }

  function ExpectedAmount(o: Order): int {
    if o.providerAmount.Some? then o.providerAmount.value else o.total
  }

  ghost function ProviderApproved(s: Shop, i: nat, o: Order, now: int): Result<Shop, Error>
    requires s.Shape() && i < |s.orders|
  {
    if o.status in {Expired, Cancelled} || o.expiresAt.None? || o.expiresAt.value <= now then
      Success(s.(orders := s.orders[i := MoveToPaymentReview(o)]))
    else if !IsPaymentPending(o.status) then Success(s.(orders := s.orders[i := o]))
    else if !St.ValidForApproval(s.stock.reservations[i], now) then Success(s.(orders := s.orders[i := MoveToPaymentReview(o)]))
    else match St.ConsumeOnApproval(s.stock, i)
    case Failure(e) => Failure(StockFailed(e))
    case Success(stock) => Accept(s, i, WithStatus(o, Paid), stock)
  }

  ghost function ProviderRefunded(s: Shop, i: nat, o: Order): Result<Shop, Error>
    requires s.Shape() && i < |s.orders|
  {
    match St.ReleaseOrder(s.stock, i)
    case Failure(e) => Failure(StockFailed(e))
    case Success(stock) =>
      match Lo.Release(s.loyalty, i)
      case Failure(e) => Failure(LoyaltyFailed(e))
      case Success(released) =>
        var recorded := if o.status != RefundRecorded then WithStatus(o, RefundRecorded) else o;
        var f := All(RefundAll, i, o.children, s.books.entries);
        Success(Shop(stock, Lo.Reverse(released, i), s.books.(entries := f.entries), s.orders[i := recorded.(children := f.children)]))
  }

  /** What a payment status means for order `i`, whose new row `o` already carries it. */
  ghost function ApplyStatus(s: Shop, i: nat, o: Order, terminal: bool, now: int): Result<Shop, Error>
    requires s.Shape() && i < |s.orders|
  {
    match o.payment
    case RequiresReview => Success(s.(orders := s.orders[i := MoveToPaymentReview(o)]))
    case Disputed => Success(s.(orders := s.orders[i := MoveToPaymentReview(o)]))
    case PartiallyRefunded => Success(s.(orders := s.orders[i := MoveToPaymentReview(o)]))
    case Approved => ProviderApproved(s, i, o, now)
    case Failed => if terminal && IsPaymentPending(o.status) then GiveUp(s, i, WithStatus(o, Expired), false)
                   else Success(s.(orders := s.orders[i := o]))
    case Refunded => ProviderRefunded(s, i, o)
    case _ => Success(s.(orders := s.orders[i := o]))
  }

  /** `applyMercadoProviderState` for the order the event resolves to. */
  ghost function Provider(s: Shop, i: nat, st: ProviderState, collector: Option<string>, now: int): Result<Shop, Error>
    requires s.Shape()
  {
    if i >= |s.orders| || s.orders[i].payMethod != MercadoPago then Failure(NoPayment) else
    var mapped := StatusForProvider(st, ExpectedAmount(s.orders[i]), s.orders[i].number, collector);
    ApplyStatus(s, i, s.orders[i].(payment := mapped), st.terminal, now)
  }

  // ---------- Late payments and full refunds ----------

  ghost function FulfillLate(s: Shop, i: nat, expectedVersion: nat): Result<Shop, Error>
    requires s.Shape()
  {
    if i >= |s.orders| then Failure(NotFound) else
    var o := s.orders[i];
    if o.status != PaymentRequiresReview || o.payment != Approved then Failure(NotLateFulfillable)
    else match St.FulfillLateOrder(s.stock, i)
    case Failure(e) => Failure(StockFailed(e))
    case Success(stock) =>
      if o.version != expectedVersion then Failure(OrderChanged)
      else Accept(s, i, WithStatus(o, Paid), stock)
  }

  predicate HasRefunds(o: Order) {
    o.fullRefund || exists c <- o.children :: c.refunds != []
  }

  /** The back office's full refund does not look at the stock reservations. */
  function RecordFullRefund(s: Shop, i: nat, expectedVersion: nat): Result<Shop, Error>
    requires s.Shape()
  {
    if i >= |s.orders| then Failure(NotFound) else
    var o := s.orders[i];
    if o.payment !in {Approved, RequiresReview} || HasRefunds(o) then Failure(NotRefundable)
    else if o.version != expectedVersion then Failure(OrderChanged)
    else
      var f := All(RefundAll, i, o.children, s.books.entries);
      Success(s.(loyalty := Lo.Reverse(s.loyalty, i), books := s.books.(entries := f.entries),
                 orders := s.orders[i := WithStatus(o, RefundRecorded).(payment := Refunded, fullRefund := true, children := f.children)]))
  }

  // ---------- Steps of one child ----------

  datatype ChildOp =
    | Transition(version: nat, next: S.Status, actor: Le.Actor, suspended: bool, now: int, days: int)
    | RequestCancellation(affiliate: Le.AffiliateId, version: nat)
    | OpenIssue
    | Refund(version: nat, refund: S.RefundArgs)
    | ResolveIssue(issue: nat, version: nat, decision: S.Decision, issueRefund: Option<S.RefundArgs>)
    | ResolveCancellation(request: nat, version: nat, approve: bool, cancelRefund: Option<S.RefundArgs>)

  function OnOrder(s: S.Sale, r: Result<S.SellerOrder, S.Error>): Result<S.Sale, S.Error> {
    match r
    case Failure(e) => Failure(e)
    case Success(o) => Success(s.(order := o))
  }

  function ChildSale(s: S.Sale, id: Le.SellerOrderId, op: ChildOp, payment: PaymentStatus): Result<S.Sale, S.Error> {
    match op
    case Transition(v, next, actor, suspended, now, days) => S.Transition(s, id, v, next, actor, suspended, now, days)
    case RequestCancellation(a, v) => OnOrder(s, S.RequestCancellation(s.order, a, v))
    case OpenIssue => OnOrder(s, S.CreateIssue(s.order))
    case Refund(v, refund) => S.RefundOrder(s, id, v, refund, payment == Pending)
    case ResolveIssue(k, v, decision, refund) => S.ResolveIssue(s, id, k, v, decision, refund)
    case ResolveCancellation(k, v, approve, refund) =>
      S.ResolveCancellation(s, id, k, v, approve, refund, payment in {Approved, PartiallyRefunded})
  }

  function RefundedTotal(children: seq<S.SellerOrder>): int {
    if children == [] then 0 else RefundedTotal(children[..|children| - 1]) + S.RefundedAmount(children[|children| - 1].refunds)
  }

  function PaymentAfterRefund(o: Order): PaymentStatus {
    if RefundedTotal(o.children) + (if o.fullRefund then o.total else 0) >= o.total then Refunded else PartiallyRefunded
  }

  function WithChild(o: Order, j: nat, c: S.SellerOrder): (n: Order)
    requires j < |o.children|
    ensures |n.children| == |o.children|
  {
    o.(children := o.children[j := c])
  }

  function Repaid(o: Order, recorded: bool): Order {
    if recorded then o.(payment := PaymentAfterRefund(o)) else o
  }

  /** A step of child `j`; a refund it records may put goods back into stock and moves the payment status. */
  function Child(s: Shop, i: nat, j: nat, op: ChildOp, restock: seq<St.Line>): Result<Shop, Error> {
    if i >= |s.orders| || j >= |s.orders[i].children| then Failure(NotFound) else
    var o := s.orders[i];
    match ChildSale(S.Sale(o.children[j], s.books.entries), Le.SellerOrderId(i, j), op, o.payment)
    case Failure(e) => Failure(SellerOrderFailed(e))
    case Success(t) =>
      var recorded := |t.order.refunds| > |o.children[j].refunds|;
      match St.Restock(s.stock, if recorded then restock else [])
      case Failure(e) => Failure(StockFailed(e))
      case Success(stock) =>
        Success(s.(stock := stock, books := s.books.(entries := t.entries),
                   orders := s.orders[i := Reconcile(Repaid(WithChild(o, j, t.order), recorded))]))
  }

  // ---------- All steps ----------

  datatype Action =
    | APlace(catalog: C.Catalog, request: C.Request, placement: Placement)
    | ACustomerCancel(order: nat)
    | AAdminCancel(order: nat, expectedVersion: nat)
    | AExpire(order: nat, now: int)
    | AUploadReceipt(order: nat)
    | AReviewTransfer(order: nat, receipt: nat, expectedVersion: nat, approve: bool)
    | AProvider(order: nat, state: ProviderState, collector: Option<string>, now: int)
    | AFulfillLate(order: nat, expectedVersion: nat)
    | ARecordFullRefund(order: nat, expectedVersion: nat)
    | AChild(order: nat, child: nat, op: ChildOp, restock: seq<St.Line>)
    | ARequestPayout(affiliate: Le.AffiliateId, amount: int)
    | ADecidePayout(payout: nat, expectedVersion: nat, decision: Le.Decision)
    | AAdjustStock(product: St.ProductId, delta: int, unique: bool)
    | AAffiliateEdit(product: St.ProductId, stock: nat, unique: bool)
    | AAddProduct(product: St.ProductId, stock: nat, logged: bool)

  function WithStock(s: Shop, r: Result<St.Stock, St.Error>): Result<Shop, Error> {
    match r
    case Failure(e) => Failure(StockFailed(e))
    case Success(stock) => Success(s.(stock := stock))
  }

  function WithBooks(s: Shop, r: Result<Le.Books, Le.Error>): Result<Shop, Error> {
    match r
    case Failure(e) => Failure(LedgerFailed(e))
    case Success(books) => Success(s.(books := books))
  }

  ghost function Attempt(s: Shop, a: Action): Result<Shop, Error>
    requires s.Shape()
  {
    match a
    case APlace(c, r, p) => (match Place(s, c, r, p) case Failure(e) => Failure(e) case Success(t) => Success(t.0))
    case ACustomerCancel(i) => CustomerCancel(s, i)
    case AAdminCancel(i, v) => AdminCancel(s, i, v)
    case AExpire(i, now) => Expire(s, i, now)
    case AUploadReceipt(i) => UploadReceipt(s, i)
    case AReviewTransfer(i, receipt, v, approve) => ReviewTransfer(s, i, receipt, v, approve)
    case AProvider(i, st, collector, now) => Provider(s, i, st, collector, now)
    case AFulfillLate(i, v) => FulfillLate(s, i, v)
    case ARecordFullRefund(i, v) => RecordFullRefund(s, i, v)
    case AChild(i, j, op, restock) => Child(s, i, j, op, restock)
    case ARequestPayout(a, amount) => WithBooks(s, Le.RequestPayout(s.books, a, amount))
    case ADecidePayout(id, v, decision) => WithBooks(s, Le.DecidePayout(s.books, id, v, decision))
    case AAdjustStock(p, delta, unique) => WithStock(s, St.Adjust(s.stock, p, delta, unique))
    case AAffiliateEdit(p, stock, unique) => WithStock(s, St.AffiliateEdit(s.stock, p, stock, unique))
    case AAddProduct(p, stock, logged) => WithStock(s, St.AddProduct(s.stock, p, stock, logged))
  }

  /** A failed transaction is rolled back. */
  ghost function Step(s: Shop, a: Action): Shop
    requires s.Shape()
  {
    match Attempt(s, a)
    case Success(t) => t
    case Failure(_) => s
  }
}
