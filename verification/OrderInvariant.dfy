/** What holds of the shop between any two transactions. */
module OrderInvariant {
  import opened ParentStatus
  import opened Orders
  import De = Detours
  import Le = Ledger
  import Lo = Loyalty
  import S = SellerOrders
  import St = Stock

  /**
   Where an order stands.  `Open`: nothing happened to its stock or points.  `Leaked`: refunded in full
   by the back office while its rows were still reserved.  `Released`: given up.  `Taken`: its stock is gone.
   */
  datatype Stage = Open | Leaked | Released | Taken

  ghost predicate ChildrenPending(o: Order) { forall c <- o.children :: c.status == S.PendingPayment }

  ghost predicate ChildrenClosed(o: Order) { forall c <- o.children :: c.status in {S.Cancelled, S.Refunded} }

  /** No issue and no cancellation request was ever opened for a child that is never paid. */
  ghost predicate NoDetours(o: Order) { forall c <- o.children :: c.issues == [] && c.requests == [] }

  ghost predicate NoChildPending(o: Order) { forall c <- o.children :: c.status != S.PendingPayment }

  ghost predicate NoCredit(entries: seq<Le.Entry>, i: nat) {
    forall e <- entries :: e.key.SaleKey? ==> e.key.seller.order != i
  }

  ghost predicate StatusFits(status: OrderStatus, stage: Stage) {
    match stage
    case Open => status in {PendingPayment, PaymentReview, PaymentRequiresReview}
    case Leaked => status == RefundRecorded
    case Released => status in {Expired, Cancelled, PaymentRequiresReview, RefundRecorded}
    case Taken => status !in {PendingPayment, PaymentReview, Expired}
  }

  ghost predicate RowsFit(rows: seq<St.Reservation>, stage: Stage) {
    match stage
    case Open => St.All(rows, St.Active)
    case Leaked => St.All(rows, St.Active)
    case Released => St.All(rows, St.Released)
    case Taken => St.All(rows, St.Consumed)
  }

  ghost predicate ChildrenFit(o: Order, stage: Stage) {
    match stage
    case Open => ChildrenPending(o) && NoDetours(o)
    case Taken => NoChildPending(o) && (o.status == RefundRecorded ==> ChildrenClosed(o))
    case _ => ChildrenClosed(o) && NoDetours(o)
  }

  /** Only a provider payment can be refunded before the stock is taken: a transfer is not approved until then. */
  ghost predicate PaymentFits(o: Order, stage: Stage) {
    match stage
    case Open => o.payMethod == BankTransfer ==> o.payment in {Pending, UnderReview}
    case Leaked => o.fullRefund && o.payMethod == MercadoPago
    case _ => true
  }

  /** Points settle only when the stock is taken. */
  ghost predicate PointsFit(l: Lo.Loyalty, i: nat, stage: Stage)
    requires i < |l.orders|
  {
    var p := l.orders[i];
    match stage
    case Taken => Lo.PhaseOf(l, i) != Lo.Open || p.redeemed + p.earned == 0
    case Released => Lo.PhaseOf(l, i) == Lo.Open && p.status in {Lo.NoPoints, Lo.Redemption.Released}
    case _ => Lo.PhaseOf(l, i) == Lo.Open && p.status in {Lo.NoPoints, Lo.Held}
  }

  ghost predicate InStage(s: Shop, i: nat, stage: Stage)
    requires s.Shape() && i < |s.orders|
  {
    && StatusFits(s.orders[i].status, stage)
    && RowsFit(s.stock.reservations[i], stage)
    && ChildrenFit(s.orders[i], stage)
    && PointsFit(s.loyalty, i, stage)
    && (stage != Taken ==> NoCredit(s.books.entries, i))
    && PaymentFits(s.orders[i], stage)
  }

  ghost predicate ChildOk(c: S.SellerOrder, id: Le.SellerOrderId, entries: seq<Le.Entry>) {
    S.Inv(c, id, entries) && S.RefundsOk(c) && De.Sound(c)
  }

  ghost predicate FamilyOk(i: nat, children: seq<S.SellerOrder>, entries: seq<Le.Entry>) {
    forall j | 0 <= j < |children| :: ChildOk(children[j], Le.SellerOrderId(i, j), entries)
  }

  ghost predicate OrderOk(s: Shop, i: nat)
    requires s.Shape() && i < |s.orders|
  {
    var o := s.orders[i];
    && s.stock.reservations[i] != [] && o.children != []
    && s.loyalty.orders[i].user == o.user
    && FamilyOk(i, o.children, s.books.entries)
    && exists stage :: InStage(s, i, stage)
  }

  /** Every sale entry belongs to a child that exists. */
  ghost predicate Homed(entries: seq<Le.Entry>, orders: seq<Order>) {
    forall e <- entries :: !e.key.PayoutKey? ==>
      e.key.seller.order < |orders| && e.key.seller.index < |orders[e.key.seller.order].children|
  }

  ghost predicate LedgerOk(s: Shop) {
    Le.Inv(s.books) && Le.UniqueKeys(s.books.entries) && Homed(s.books.entries, s.orders)
  }

  ghost predicate KeysUnique(orders: seq<Order>) {
    forall j, k | 0 <= j < k < |orders| :: !(orders[j].user == orders[k].user && orders[j].key == orders[k].key)
  }

  ghost predicate Inv(s: Shop) {
    && s.Shape()
    && St.Inv(s.stock)
    && Lo.Inv(s.loyalty)
    && LedgerOk(s)
    && KeysUnique(s.orders)
    && forall i | 0 <= i < |s.orders| :: OrderOk(s, i)
  }

  /** A resolution that reopens or completes the child. */
  predicate Revives(op: ChildOp) {
    match op
    case ResolveIssue(_, _, decision, _) => decision != S.FullRefund
    case ResolveCancellation(_, _, approve, _) => !approve
    case _ => false
  }

  predicate ChildAdmissible(c: S.SellerOrder, op: ChildOp) {
    c.status != S.PendingPayment && !(c.parentRefunded && Revives(op))
  }

  /**
   The steps a run may take.  Three shapes of step are left out because the code lets them break the
   invariant, each exactly when it does: a stock edit below what is reserved, a step of a child that is
   not yet paid, and a resolution that reopens or completes a child refunded with its parent.
   */
  ghost predicate Admissible(s: Shop, a: Action) {
    match a
    case AAffiliateEdit(p, stock, _) => p in s.stock.inventory ==> stock >= s.stock.inventory[p].reserved
    case AChild(i, j, op, _) => i < |s.orders| && j < |s.orders[i].children| ==> ChildAdmissible(s.orders[i].children[j], op)
    case _ => true
  }
}
