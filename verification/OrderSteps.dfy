/** The remaining transactions, and the step theorem: any admissible step leads to a valid, later state. */
module OrderSteps {
  import opened Wrappers
  import opened ParentStatus
  import opened Orders
  import opened OrderInvariant
  import opened OrderLaws
  import C = Checkout
  import CL = CheckoutLaws
  import De = Detours
  import Le = Ledger
  import LeL = LedgerLaws
  import Lo = Loyalty
  import LoL = LoyaltyLaws
  import S = SellerOrders
  import SL = SellerOrderLaws
  import St = Stock
  import StL = StockLaws

  // ---------- Steps of one child ----------

  /** A cancelled or refunded child without detours takes no further step. */
  lemma ClosedChildStops(s: S.Sale, id: Le.SellerOrderId, op: ChildOp, payment: PaymentStatus)
    requires s.order.status in {S.Cancelled, S.Refunded} && s.order.issues == [] && s.order.requests == []
    ensures ChildSale(s, id, op, payment).Failure?
  {
  }

  lemma ChildSaleKeepsInv(s: S.Sale, id: Le.SellerOrderId, op: ChildOp, payment: PaymentStatus)
    requires S.Inv(s.order, id, s.entries) && SL.Owned(s.entries)
    requires ChildSale(s, id, op, payment).Success?
    ensures SL.Step(s, ChildSale(s, id, op, payment).value, id)
  {
    match op
    case Transition(v, next, actor, suspended, now, days) => SL.TransitionKeepsInv(s, id, v, next, actor, suspended, now, days);
    case RequestCancellation(a, v) => SL.RequestKeepsInv(s.order, id, s.entries, a, v);
    case OpenIssue => SL.IssueKeepsInv(s.order, id, s.entries);
    case Refund(v, refund) => SL.RefundOrderKeepsInv(s, id, v, refund, payment == Pending);
    case ResolveIssue(k, v, decision, refund) => SL.ResolveIssueKeepsInv(s, id, k, v, decision, refund);
    case ResolveCancellation(k, v, approve, refund) =>
      SL.ResolveCancellationKeepsInv(s, id, k, v, approve, refund, payment in {Approved, PartiallyRefunded});
  }

  lemma ChildSaleKeepsRefunds(s: S.Sale, id: Le.SellerOrderId, op: ChildOp, payment: PaymentStatus)
    requires S.AmountsOk(s.order) && S.RefundsOk(s.order) && ChildSale(s, id, op, payment).Success?
    ensures S.RefundsOk(ChildSale(s, id, op, payment).value.order)
  {
    var n := ChildSale(s, id, op, payment).value.order;
    if op.Refund? {
      SL.RecordKeepsRefunds(s, id, op.refund, Le.SellerOrderRefund(s.order.version));
      SL.SameRefunds(S.RecordRefund(s, id, op.refund, Le.SellerOrderRefund(s.order.version)).value.order, n);
    } else if op.ResolveIssue? && op.decision in {S.PartialRefund, S.FullRefund} {
      var tag := Le.IssueRefund(op.issue, op.decision == S.FullRefund);
      SL.RecordKeepsRefunds(s, id, op.issueRefund.value, tag);
      SL.SameRefunds(S.RecordRefund(s, id, op.issueRefund.value, tag).value.order, n);
    } else if op.ResolveCancellation? && op.approve && op.cancelRefund.Some? {
      SL.RecordKeepsRefunds(s, id, op.cancelRefund.value, Le.CancellationRefund(op.request));
      SL.SameRefunds(S.RecordRefund(s, id, op.cancelRefund.value, Le.CancellationRefund(op.request)).value.order, n);
    } else {
      SL.SameRefunds(s.order, n);
    }
  }

  /** A step of a paid child keeps it sound exactly when it is admissible. */
  lemma ChildSaleKeepsSoundIff(s: S.Sale, id: Le.SellerOrderId, op: ChildOp, payment: PaymentStatus)
    requires De.Sound(s.order) && s.order.status != S.PendingPayment
    requires ChildSale(s, id, op, payment).Success?
    ensures De.Sound(ChildSale(s, id, op, payment).value.order) <==> ChildAdmissible(s.order, op)
    ensures ChildSale(s, id, op, payment).value.order.status != S.PendingPayment
  {
    match op
    case Transition(v, next, actor, suspended, now, days) => De.TransitionKeepsSound(s, id, v, next, actor, suspended, now, days);
    case RequestCancellation(a, v) => De.RequestKeepsSound(s.order, a, v);
    case OpenIssue => De.IssueKeepsSound(s.order);
    case Refund(v, refund) => De.RefundKeepsSound(s, id, v, refund, payment == Pending);
    case ResolveIssue(k, v, decision, refund) => De.ResolveIssueKeepsSoundIff(s, id, k, v, decision, refund);
    case ResolveCancellation(k, v, approve, refund) =>
      De.ResolveCancellationKeepsSoundIff(s, id, k, v, approve, refund, payment in {Approved, PartiallyRefunded});
  }

  /** A paid child moves only in an order whose stock was taken. */
  lemma MovingChildIsTaken(s: Shop, i: nat, j: nat, op: ChildOp)
    requires Inv(s) && i < |s.orders| && j < |s.orders[i].children| && s.orders[i].children[j].status != S.PendingPayment
    requires ChildSale(S.Sale(s.orders[i].children[j], s.books.entries), Le.SellerOrderId(i, j), op, s.orders[i].payment).Success?
    ensures InStage(s, i, Taken)
  {
    var c := s.orders[i].children[j];
    assert OrderOk(s, i);
    var stage :| InStage(s, i, stage);
    assert c in s.orders[i].children;
    if stage != Taken {
      ClosedChildStops(S.Sale(c, s.books.entries), Le.SellerOrderId(i, j), op, s.orders[i].payment);
    }
  }

  /** The shop after child `j` moved, with the stock and payment status its refund may have changed. */
  function AfterChild(s: Shop, i: nat, j: nat, moved: S.Sale, stock: St.Stock, payment: PaymentStatus): Shop
    requires i < |s.orders| && j < |s.orders[i].children|
  {
    var o := s.orders[i];
    s.(stock := stock, books := s.books.(entries := moved.entries),
       orders := s.orders[i := Reconcile(o.(children := o.children[j := moved.order], payment := payment))])
  }

  lemma AfterChildKeepsInv(s: Shop, i: nat, j: nat, moved: S.Sale, stock: St.Stock, payment: PaymentStatus)
    requires Inv(s) && i < |s.orders| && j < |s.orders[i].children| && InStage(s, i, Taken)
    requires SL.Step(S.Sale(s.orders[i].children[j], s.books.entries), moved, Le.SellerOrderId(i, j))
    requires De.Sound(moved.order) && S.RefundsOk(moved.order) && moved.order.status != S.PendingPayment
    requires St.Inv(stock) && stock.reservations == s.stock.reservations
    ensures var t := AfterChild(s, i, j, moved, stock, payment);
            Turn(s, t, i) && Inv(t) && InStage(t, i, Taken) && Next(Statuses(t.orders[i].children)) == Some(t.orders[i].status)
  {
    var o := s.orders[i];
    assert OrderOk(s, i);
    OwnedByInv(s.books);
    FamilyStep(i, Family(o.children, s.books.entries), j, moved);
    RowsMoveRefl(s.stock.reservations[i]);
    ReconciledStatus(o.(children := o.children[j := moved.order], payment := payment));
    var t := AfterChild(s, i, j, moved, stock, payment);
    assert InStage(t, i, Taken);
    StageMakesOk(t, i, Taken);
    TurnKeepsInv(s, t, i);
  }

  lemma RowsMoveRefl(rows: seq<St.Reservation>)
    ensures RowsMove(rows, rows)
  {
  }

  /** A child step keeps the shop valid and leaves the order in the status its children call for. */
  lemma ChildKeepsInv(s: Shop, i: nat, j: nat, op: ChildOp, restock: seq<St.Line>)
    requires Inv(s) && Child(s, i, j, op, restock).Success? && ChildAdmissible(s.orders[i].children[j], op)
    ensures var t := Child(s, i, j, op, restock).value;
            Turn(s, t, i) && Inv(t) && InStage(t, i, Taken) && Expected(Statuses(t.orders[i].children)) == Some(t.orders[i].status)
  {
    var o := s.orders[i];
    var id := Le.SellerOrderId(i, j);
    var sale := S.Sale(o.children[j], s.books.entries);
    assert OrderOk(s, i) && ChildOk(o.children[j], id, s.books.entries);
    OwnedByInv(s.books);
    MovingChildIsTaken(s, i, j, op);
    ChildSaleKeepsInv(sale, id, op, o.payment);
    ChildSaleKeepsSoundIff(sale, id, op, o.payment);
    ChildSaleKeepsRefunds(sale, id, op, o.payment);
    var moved := ChildSale(sale, id, op, o.payment).value;
    var recorded := |moved.order.refunds| > |o.children[j].refunds|;
    StL.RestockKeepsInv(s.stock, if recorded then restock else []);
    var t := Child(s, i, j, op, restock).value;
    assert t == AfterChild(s, i, j, moved, t.stock, if recorded then PaymentAfterRefund(o.(children := o.children[j := moved.order])) else o.payment);
    AfterChildKeepsInv(s, i, j, moved, t.stock, if recorded then PaymentAfterRefund(o.(children := o.children[j := moved.order])) else o.payment);
    DefinitionsAgree(Statuses(t.orders[i].children));
  }

  // ---------- Order creation ----------

  lemma UntouchedChildOk(c: S.SellerOrder, id: Le.SellerOrderId, entries: seq<Le.Entry>)
    requires S.AmountsOk(c) && S.Fits(c.status, c.fulfillment) && c.issues == [] && c.requests == [] && c.refunds == [] && !c.parentRefunded
    requires forall e <- entries :: e.seller != Some(id)
    ensures ChildOk(c, id, entries)
  {
    if c.affiliate.Some? {
      LeL.SumNone(entries, Le.Where(c.affiliate.value, None, Some(id)));
      LeL.SumNone(entries, Le.Where(c.affiliate.value, Some(Le.Pending), Some(id)));
    }
  }

  lemma NoEntriesFor(s: Shop, i: nat)
    requires Inv(s) && i >= |s.orders|
    ensures NoCredit(s.books.entries, i)
    ensures forall e <- s.books.entries :: e.seller.Some? ==> e.seller.value.order != i
  {
    forall e | e in s.books.entries
      ensures (e.key.SaleKey? ==> e.key.seller.order != i) && (e.seller.Some? ==> e.seller.value.order != i)
    {
      assert Le.EntryOk(e, s.books.payouts);
    }
  }

  lemma NewFamilyOk(s: Shop, q: C.Quote)
    requires Inv(s) && forall k | 0 <= k < |q.groups| :: S.AmountsOk(C.Child(q.groups[k]))
    ensures FamilyOk(|s.orders|, C.Children(q), s.books.entries)
  {
    NoEntriesFor(s, |s.orders|);
    forall k | 0 <= k < |q.groups| ensures ChildOk(C.Children(q)[k], Le.SellerOrderId(|s.orders|, k), s.books.entries) {
      UntouchedChildOk(C.Children(q)[k], Le.SellerOrderId(|s.orders|, k), s.books.entries);
    }
  }

  lemma NewRowsActive(lines: seq<St.Line>, expiresAt: int)
    ensures St.All(St.RowsFor(lines, expiresAt), St.Active)
  {
  }

  /** The state after an order was appended: everything before it is as it was. */
  ghost predicate Appended(s: Shop, t: Shop, o: Order) {
    && s.Shape() && t.Shape() && t.orders == s.orders + [o] && t.books == s.books
    && (forall j | 0 <= j < |s.orders| :: t.stock.reservations[j] == s.stock.reservations[j] && t.loyalty.orders[j] == s.loyalty.orders[j])
    && t.loyalty.log == s.loyalty.log
  }

  lemma EarlierOrderOk(s: Shop, t: Shop, o: Order, j: nat)
    requires Inv(s) && Appended(s, t, o) && j < |s.orders|
    ensures OrderOk(t, j)
  {
    assert OrderOk(s, j);
    var stage :| InStage(s, j, stage);
    assert t.orders[j] == s.orders[j];
    assert Lo.PhaseOf(t.loyalty, j) == Lo.PhaseOf(s.loyalty, j);
    assert InStage(t, j, stage);
  }

  lemma AppendedKeepsInv(s: Shop, t: Shop, o: Order)
    requires Inv(s) && Appended(s, t, o) && St.Inv(t.stock) && Lo.Inv(t.loyalty) && OrderOk(t, |s.orders|)
    requires forall x <- s.orders :: !(x.user == o.user && x.key == o.key)
    ensures Inv(t)
  {
    forall j | 0 <= j < |t.orders| ensures OrderOk(t, j) {
      if j < |s.orders| { EarlierOrderOk(s, t, o, j); }
    }
    assert LedgerOk(t);
    forall j, k | 0 <= j < k < |t.orders| ensures !(t.orders[j].user == t.orders[k].user && t.orders[j].key == t.orders[k].key) {
      assert t.orders[j] == s.orders[j] && s.orders[j] in s.orders;
      if k < |s.orders| { assert !(s.orders[j].user == s.orders[k].user && s.orders[j].key == s.orders[k].key); }
    }
  }

  lemma CreatedStock(s: St.Stock, lines: seq<St.Line>, expiresAt: int)
    requires St.Inv(s) && St.PlaceOrder(s, lines, expiresAt).Success? && forall l <- lines :: l.quantity >= 1
    ensures var t := St.PlaceOrder(s, lines, expiresAt).value;
            && St.Inv(t) && t.reservations == s.reservations + [St.RowsFor(lines, expiresAt)]
            && St.All(St.RowsFor(lines, expiresAt), St.Active)
  {
    StL.PlaceOrderKeepsInv(s, lines, expiresAt);
    NewRowsActive(lines, expiresAt);
  }

  /** A new order starts open, with its rows active, its points held and its children unpaid. */
  lemma NewOrderKeepsInv(s: Shop, stock: St.Stock, loyalty: Lo.Loyalty, o: Order, rows: seq<St.Reservation>)
    requires Inv(s) && St.Inv(stock) && Lo.Inv(loyalty)
    requires stock.reservations == s.stock.reservations + [rows] && rows != [] && St.All(rows, St.Active)
    requires |loyalty.orders| == |s.orders| + 1 && loyalty.orders[..|s.orders|] == s.loyalty.orders && loyalty.log == s.loyalty.log
    requires loyalty.orders[|s.orders|].user == o.user && PointsFit(loyalty, |s.orders|, Open)
    requires forall x <- s.orders :: !(x.user == o.user && x.key == o.key)
    requires o.status == PendingPayment && o.children != [] && ChildrenPending(o) && NoDetours(o) && o.payment == Pending && FamilyOk(|s.orders|, o.children, s.books.entries)
    ensures var t := Shop(stock, loyalty, s.books, s.orders + [o]); Appended(s, t, o) && Inv(t) && InStage(t, |s.orders|, Open)
  {
    var t := Shop(stock, loyalty, s.books, s.orders + [o]);
    forall j | 0 <= j < |s.orders| ensures t.loyalty.orders[j] == s.loyalty.orders[j] {
      assert t.loyalty.orders[..|s.orders|][j] == s.loyalty.orders[j];
    }
    NoEntriesFor(s, |s.orders|);
    assert InStage(t, |s.orders|, Open);
    StageMakesOk(t, |s.orders|, Open);
    AppendedKeepsInv(s, t, o);
  }

  lemma CreatedPoints(l: Lo.Loyalty, user: Lo.UserId, points: nat, earned: nat)
    requires Lo.Inv(l) && Lo.PlaceOrder(l, user, points, earned).Success?
    ensures var m := Lo.PlaceOrder(l, user, points, earned).value;
            && Lo.Inv(m) && |m.orders| == |l.orders| + 1 && m.orders[..|l.orders|] == l.orders && m.log == l.log
            && m.orders[|l.orders|].user == user && PointsFit(m, |l.orders|, Open)
  {
    LoL.PlaceOrderKeepsInv(l, user, points, earned);
  }

  lemma RecordKeepsInv(s: Shop, q: C.Quote, user: Lo.UserId, p: Placement, amount: Option<int>)
    requires Inv(s) && Previous(s.orders, user, p.key).None?
    requires q.groups != [] && q.lines != [] && q.loyalty.pointsToEarn >= 0
    requires forall k | 0 <= k < |q.groups| :: S.AmountsOk(C.Child(q.groups[k]))
    requires forall k | 0 <= k < |q.lines| :: q.lines[k].item.quantity >= 1
    requires Record(s, q, user, p, amount).Success?
    ensures var t := Record(s, q, user, p, amount).value;
            Appended(s, t, NewOrder(p, q, user, amount)) && Inv(t) && InStage(t, |s.orders|, Open)
  {
    var expiresAt := p.now + Window(p.payMethod);
    var loyalty := Lo.PlaceOrder(s.loyalty, user, q.loyalty.pointsRedeemed, q.loyalty.pointsToEarn).value;
    var stock := St.PlaceOrder(s.stock, C.StockLines(q), expiresAt).value;
    var rows := St.RowsFor(C.StockLines(q), expiresAt);
    var o := NewOrder(p, q, user, amount);
    assert Record(s, q, user, p, amount) == Success(Shop(stock, loyalty, s.books, s.orders + [o]));
    CreatedPoints(s.loyalty, user, q.loyalty.pointsRedeemed, q.loyalty.pointsToEarn);
    CreatedStock(s.stock, C.StockLines(q), expiresAt);
    NewFamilyOk(s, q);
    NewOrderKeepsInv(s, stock, loyalty, o, rows);
  }

  lemma CreateKeepsInv(s: Shop, c: C.Catalog, r: C.Request, p: Placement)
    requires Inv(s) && Previous(s.orders, r.user, p.key).None? && CreateOrder(s, c, r, p).Success?
    ensures var t := CreateOrder(s, c, r, p).value;
            && |t.orders| == |s.orders| + 1 && Appended(s, t, t.orders[|s.orders|]) && Inv(t) && InStage(t, |s.orders|, Open)
            && t.orders[|s.orders|].user == r.user && t.orders[|s.orders|].key == p.key && t.orders[|s.orders|].hash == p.hash
  {
    var account := Lo.AccountOf(s.loyalty, r.user);
    CL.QuoteChildren(c, s.stock.inventory, account, r);
    var q := C.Calculate(c, s.stock.inventory, account, r).value;
    RecordKeepsInv(s, q, r.user, p, ProviderAmount(p, q.total).value);
  }

  // ---------- Payouts and stock ----------

  lemma ChildrenSurvive(s: Shop, t: Shop, i: nat)
    requires Inv(s) && t.Shape() && t.orders == s.orders && t.loyalty == s.loyalty && t.stock.reservations == s.stock.reservations
    requires |t.books.entries| >= |s.books.entries| && t.books.entries[..|s.books.entries|] == s.books.entries
    requires forall e <- t.books.entries[|s.books.entries|..] :: e.key.PayoutKey? && e.seller == None
    requires i < |s.orders|
    ensures OrderOk(t, i)
  {
    assert OrderOk(s, i);
    var stage :| InStage(s, i, stage);
    var o := s.orders[i];
    forall k | 0 <= k < |o.children| ensures ChildOk(o.children[k], Le.SellerOrderId(i, k), t.books.entries) {
      assert ChildOk(o.children[k], Le.SellerOrderId(i, k), s.books.entries);
      SL.OthersKeepInv(o.children[k], Le.SellerOrderId(i, k), s.books.entries, t.books.entries);
    }
    assert t.books.entries == s.books.entries + t.books.entries[|s.books.entries|..];
    assert InStage(t, i, stage);
  }

  /** A step of the stock or payout tables alone. */
  lemma TablesKeepInv(s: Shop, t: Shop)
    requires Inv(s) && t.Shape() && t.orders == s.orders && t.loyalty == s.loyalty && t.stock.reservations == s.stock.reservations
    requires |t.books.entries| >= |s.books.entries| && t.books.entries[..|s.books.entries|] == s.books.entries
    requires forall e <- t.books.entries[|s.books.entries|..] :: e.key.PayoutKey? && e.seller == None
    requires St.Inv(t.stock) && Le.Inv(t.books) && Le.UniqueKeys(t.books.entries)
    ensures Inv(t)
  {
    assert t.books.entries == s.books.entries + t.books.entries[|s.books.entries|..];
    forall i | 0 <= i < |t.orders| ensures OrderOk(t, i) {
      ChildrenSurvive(s, t, i);
    }
  }

  ghost predicate PayoutGrowth(b: Le.Books, c: Le.Books) {
    && |c.entries| >= |b.entries| && c.entries[..|b.entries|] == b.entries
    && (forall e <- c.entries[|b.entries|..] :: e.key.PayoutKey? && e.seller == None)
    && (Le.UniqueKeys(b.entries) ==> Le.UniqueKeys(c.entries))
  }

  lemma PostPairGrowth(b: Le.Books, e: Le.Entry, f: Le.Entry)
    requires e.key.PayoutKey? && f.key.PayoutKey? && e.seller == None && f.seller == None && Le.PostPair(b, e, f).Success?
    ensures PayoutGrowth(b, Le.PostPair(b, e, f).value)
  {
  }

  lemma RequestGrowth(b: Le.Books, a: Le.AffiliateId, amount: int)
    requires Le.RequestPayout(b, a, amount).Success?
    ensures PayoutGrowth(b, Le.RequestPayout(b, a, amount).value)
  {
  }

  lemma DecideGrowth(b: Le.Books, id: nat, v: nat, decision: Le.Decision)
    requires Le.DecidePayout(b, id, v, decision).Success?
    ensures PayoutGrowth(b, Le.DecidePayout(b, id, v, decision).value)
  {
    var p := b.payouts[id];
    match decision
    case Process => assert b.entries[|b.entries|..] == [];
    case Pay =>
      PostPairGrowth(b.(payouts := b.payouts[id := p.(status := Le.PayoutStatus.Paid, version := p.version + 1)]),
                     Le.PayoutEntry(p, id, Le.Withheld, Le.PayoutPaid, -p.amount, Le.PaidWithheld),
                     Le.PayoutEntry(p, id, Le.PaidOut, Le.PayoutPaid, p.amount, Le.PaidPaid));
    case Reject =>
      PostPairGrowth(b.(payouts := b.payouts[id := p.(status := Le.PayoutStatus.Rejected, version := p.version + 1)]),
                     Le.PayoutEntry(p, id, Le.Withheld, Le.PayoutReleased, -p.amount, Le.RejectedWithheld),
                     Le.PayoutEntry(p, id, Le.Available, Le.PayoutReleased, p.amount, Le.RejectedAvailable));
  }

  // ---------- The step theorem ----------

  /** `t` is `s` or a later state: nothing recorded in `s` was taken back. */
  ghost predicate Later(s: Shop, t: Shop) {
    && s.Shape() && t.Shape() && |t.orders| >= |s.orders|
    && (forall i | 0 <= i < |s.orders| :: SameIdentity(s.orders[i], t.orders[i]))
    && (forall i | 0 <= i < |s.orders| :: RowsMove(s.stock.reservations[i], t.stock.reservations[i]))
    && |t.books.entries| >= |s.books.entries| && t.books.entries[..|s.books.entries|] == s.books.entries
  }

  lemma TurnIsLater(s: Shop, t: Shop, i: nat)
    requires Turn(s, t, i)
    ensures Later(s, t)
  {
  }

  /** What a successful attempt on order `i` establishes. */
  ghost predicate TurnOk(s: Shop, t: Shop, i: nat) { Turn(s, t, i) && Inv(t) }

  lemma CancelOk(s: Shop, i: nat, status: OrderStatus, checked: bool)
    requires Inv(s) && i < |s.orders| && IsPaymentPending(s.orders[i].status) && status in {Cancelled, Expired}
    ensures var r := GiveUp(s, i, WithStatus(s.orders[i], status), checked); r.Success? && TurnOk(s, r.value, i)
  {
    PendingIsOpen(s, i);
    GiveUpKeepsInv(s, i, WithStatus(s.orders[i], status), checked);
  }

  lemma UploadOk(s: Shop, i: nat)
    requires Inv(s) && UploadReceipt(s, i).Success?
    ensures TurnOk(s, UploadReceipt(s, i).value, i)
  {
    PendingIsOpen(s, i);
    ColumnsKeepInv(s, i, UploadReceipt(s, i).value.orders[i], Open);
  }

  lemma ReviewOk(s: Shop, i: nat, receipt: nat, v: nat, approve: bool)
    requires Inv(s) && ReviewTransfer(s, i, receipt, v, approve).Success?
    ensures TurnOk(s, ReviewTransfer(s, i, receipt, v, approve).value, i)
  {
    var o := s.orders[i];
    PendingIsOpen(s, i);
    if approve {
      OpenRowsConsumed(s, i);
      AcceptKeepsInv(s, i, WithStatus(o, Paid).(payment := Approved, receipts := Decided(o.receipts, receipt, ReviewApproved)),
                     St.AfterPass(s.stock, i, St.Consume));
    } else {
      GiveUpKeepsInv(s, i, WithStatus(o, Cancelled).(payment := Rejected, receipts := Decided(o.receipts, receipt, ReviewRejected)), true);
    }
  }

  lemma ApprovedOk(s: Shop, i: nat, o: Order, now: int)
    requires Inv(s) && i < |s.orders| && o == s.orders[i].(payment := o.payment) && o.payMethod == MercadoPago
    ensures ProviderApproved(s, i, o, now).Success? && TurnOk(s, ProviderApproved(s, i, o, now).value, i)
  {
    ReviewKeepsInv(s, i, o);
    if IsPaymentPending(o.status) {
      PendingIsOpen(s, i);
      OpenRowsConsumed(s, i);
      OpenPointsSettle(s, i);
      AcceptKeepsInv(s, i, WithStatus(o, Paid), St.AfterPass(s.stock, i, St.Consume));
    }
  }

  /** A provider event for a known payment is never refused: it always commits. */
  lemma ProviderOk(s: Shop, i: nat, st: ProviderState, collector: Option<string>, now: int)
    requires Inv(s) && i < |s.orders| && s.orders[i].payMethod == MercadoPago
    ensures Provider(s, i, st, collector, now).Success? && TurnOk(s, Provider(s, i, st, collector, now).value, i)
  {
    var mapped := StatusForProvider(st, ExpectedAmount(s.orders[i]), s.orders[i].number, collector);
    var o := s.orders[i].(payment := mapped);
    ReviewKeepsInv(s, i, o);
    match mapped
    case Approved => ApprovedOk(s, i, o, now);
    case Failed =>
      if IsPaymentPending(o.status) {
        PendingIsOpen(s, i);
        GiveUpKeepsInv(s, i, WithStatus(o, Expired), false);
      }
    case Refunded => ProviderRefundKeepsInv(s, i, o);
    case _ =>
  }

  lemma LateOk(s: Shop, i: nat, v: nat)
    requires Inv(s) && FulfillLate(s, i, v).Success?
    ensures TurnOk(s, FulfillLate(s, i, v).value, i)
  {
    assert OrderOk(s, i);
    var stage :| InStage(s, i, stage);
    LateRowsConsumed(s, i, stage);
    AcceptKeepsInv(s, i, WithStatus(s.orders[i], Paid), St.FulfillLateOrder(s.stock, i).value);
  }

  ghost predicate OnOneOrder(a: Action) {
    !a.APlace? && !a.ARequestPayout? && !a.ADecidePayout? && !a.AAdjustStock? && !a.AAffiliateEdit? && !a.AAddProduct?
  }

  lemma OrderActionOk(s: Shop, a: Action)
    requires Inv(s) && Admissible(s, a) && OnOneOrder(a) && Attempt(s, a).Success?
    ensures TurnOk(s, Attempt(s, a).value, a.order)
  {
    match a
    case ACustomerCancel(i) => CancelOk(s, i, Cancelled, false);
    case AAdminCancel(i, v) => CancelOk(s, i, Cancelled, true);
    case AExpire(i, now) => CancelOk(s, i, Expired, false);
    case AUploadReceipt(i) => UploadOk(s, i);
    case AReviewTransfer(i, receipt, v, approve) => ReviewOk(s, i, receipt, v, approve);
    case AProvider(i, st, collector, now) => ProviderOk(s, i, st, collector, now);
    case AFulfillLate(i, v) => LateOk(s, i, v);
    case ARecordFullRefund(i, v) => FullRefundKeepsInv(s, i, v);
    case AChild(i, j, op, restock) => ChildKeepsInv(s, i, j, op, restock);
  }

  lemma TablesAreLater(s: Shop, t: Shop)
    requires s.Shape() && t.Shape() && t.orders == s.orders && t.stock.reservations == s.stock.reservations
    requires |t.books.entries| >= |s.books.entries| && t.books.entries[..|s.books.entries|] == s.books.entries
    ensures Later(s, t)
  {
  }

  lemma StockActionOk(s: Shop, stock: St.Stock)
    requires Inv(s) && St.Inv(stock) && stock.reservations == s.stock.reservations
    ensures Inv(s.(stock := stock)) && Later(s, s.(stock := stock))
  {
    assert s.books.entries[|s.books.entries|..] == [];
    TablesKeepInv(s, s.(stock := stock));
    TablesAreLater(s, s.(stock := stock));
  }

  lemma BooksActionOk(s: Shop, books: Le.Books)
    requires Inv(s) && Le.Inv(books) && PayoutGrowth(s.books, books)
    ensures Inv(s.(books := books)) && Later(s, s.(books := books))
  {
    TablesKeepInv(s, s.(books := books));
    TablesAreLater(s, s.(books := books));
  }

  lemma TableActionOk(s: Shop, a: Action)
    requires Inv(s) && Admissible(s, a) && !OnOneOrder(a) && !a.APlace? && Attempt(s, a).Success?
    ensures Inv(Attempt(s, a).value) && Later(s, Attempt(s, a).value)
  {
    var t := Attempt(s, a).value;
    match a {
      case ARequestPayout(x, amount) =>
        LeL.RequestPayoutFacts(s.books, x, amount);
        RequestGrowth(s.books, x, amount);
        BooksActionOk(s, t.books);
      case ADecidePayout(id, v, d) =>
        LeL.DecidePayoutFacts(s.books, id, v, d);
        DecideGrowth(s.books, id, v, d);
        BooksActionOk(s, t.books);
      case AAdjustStock(p, delta, unique) =>
        StL.AdjustKeepsInv(s.stock, p, delta, unique);
        StockActionOk(s, t.stock);
      case AAffiliateEdit(p, stock, unique) =>
        StL.AffiliateEditKeepsInvIff(s.stock, p, stock, unique);
        StockActionOk(s, t.stock);
      case AAddProduct(p, stock, logged) =>
        StL.AddProductKeepsInv(s.stock, p, stock, logged);
        StockActionOk(s, t.stock);
    }
  }

  lemma AppendedIsLater(s: Shop, t: Shop, o: Order)
    requires Appended(s, t, o)
    ensures Later(s, t)
  {
  }

  lemma PlaceActionOk(s: Shop, c: C.Catalog, r: C.Request, p: Placement)
    requires Inv(s) && Place(s, c, r, p).Success?
    ensures var (t, n) := Place(s, c, r, p).value;
            && Inv(t) && Later(s, t) && n < |t.orders|
            && t.orders[n].user == r.user && t.orders[n].key == p.key && t.orders[n].hash == p.hash
  {
    var (t, n) := Place(s, c, r, p).value;
    if Previous(s.orders, r.user, p.key).None? {
      CreateKeepsInv(s, c, r, p);
      AppendedIsLater(s, t, t.orders[n]);
    } else {
      TablesAreLater(s, s);
    }
  }

  lemma TablesLeaveOrders(s: Shop, a: Action)
    requires s.Shape() && !OnOneOrder(a) && !a.APlace?
    ensures Step(s, a).orders == s.orders && Step(s, a).stock.reservations == s.stock.reservations
  {
  }

  lemma PlaceLeavesOthers(s: Shop, c: C.Catalog, r: C.Request, p: Placement, i: nat)
    requires Inv(s) && Place(s, c, r, p).Success? && i < |s.orders|
    ensures var t := Place(s, c, r, p).value.0;
            && |t.orders| >= |s.orders| && t.orders[i] == s.orders[i]
            && |t.stock.reservations| >= |s.orders| && t.stock.reservations[i] == s.stock.reservations[i]
  {
    if Previous(s.orders, r.user, p.key).None? { CreateKeepsInv(s, c, r, p); }
  }

  /** Any admissible step from a valid state leads to a valid state in which nothing recorded was taken back. */
  lemma StepKeepsInv(s: Shop, a: Action)
    requires Inv(s) && Admissible(s, a)
    ensures Inv(Step(s, a)) && Later(s, Step(s, a))
  {
    TablesAreLater(s, s);
    if Attempt(s, a).Success? {
      if OnOneOrder(a) {
        OrderActionOk(s, a);
        TurnIsLater(s, Attempt(s, a).value, a.order);
      } else if a.APlace? {
        PlaceActionOk(s, a.catalog, a.request, a.placement);
      } else {
        TableActionOk(s, a);
      }
    }
  }
}
