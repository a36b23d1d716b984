/**
 What each transaction on an order does, said of the reservation rows, the stock counters, the points,
 the children and the ledger before and after it.
 */
module OrderOutcomes {
  import opened Wrappers
  import opened ParentStatus
  import opened Orders
  import opened OrderInvariant
  import opened OrderLaws
  import opened OrderSteps
  import opened OrderRuns
  import opened ProviderEvents
  import Le = Ledger
  import Lo = Loyalty
  import LoL = LoyaltyLaws
  import S = SellerOrders
  import SL = SellerOrderLaws
  import St = Stock
  import StL = StockLaws

  // ---------- What may happen to each table ----------

  /** The active units of the order left the shop: both counters fall by them, product by product. */
  ghost predicate StockTaken(s: St.Stock, t: St.Stock, i: nat) {
    && i < |s.reservations| && i < |t.reservations| && St.All(t.reservations[i], St.Consumed)
    && t.inventory.Keys == s.inventory.Keys && t.adjustments == s.adjustments && t.baseline == s.baseline
    && forall p <- s.inventory ::
         && t.inventory[p].onHand == s.inventory[p].onHand - St.Qty(s.reservations[i], p, St.Active)
         && t.inventory[p].reserved == s.inventory[p].reserved - St.Qty(s.reservations[i], p, St.Active)
  }

  /** The active units of the order are free again; nothing left the shop. */
  ghost predicate StockReturned(s: St.Stock, t: St.Stock, i: nat) {
    && i < |s.reservations| && i < |t.reservations| && St.All(t.reservations[i], St.Released)
    && t.inventory.Keys == s.inventory.Keys && t.adjustments == s.adjustments && t.baseline == s.baseline
    && forall p <- s.inventory ::
         && t.inventory[p].onHand == s.inventory[p].onHand
         && t.inventory[p].reserved == s.inventory[p].reserved - St.Qty(s.reservations[i], p, St.Active)
  }

  ghost predicate OtherAccountsSame(l: Lo.Loyalty, m: Lo.Loyalty, u: Lo.UserId) {
    forall v | v != u :: Lo.AccountOf(m, v) == Lo.AccountOf(l, v)
  }

  /** The held points are spent and the earned ones credited. */
  ghost predicate PointsSettled(l: Lo.Loyalty, m: Lo.Loyalty, i: nat) {
    && i < |l.orders| && i < |m.orders|
    && var p := l.orders[i];
    && var (a, b) := (Lo.AccountOf(l, p.user), Lo.AccountOf(m, p.user));
    && b.balance == a.balance - p.redeemed + p.earned && b.reserved == a.reserved - p.redeemed
    && b.lifetimeEarned == a.lifetimeEarned + p.earned && b.lifetimeRedeemed == a.lifetimeRedeemed + p.redeemed
    && OtherAccountsSame(l, m, p.user)
    && m.orders[i] == p.(status := if p.redeemed > 0 then Lo.Redeemed else Lo.NoPoints)
  }

  /** The held points can be spent again; none was spent or earned. */
  ghost predicate PointsReturned(l: Lo.Loyalty, m: Lo.Loyalty, i: nat) {
    && i < |l.orders| && i < |m.orders|
    && var p := l.orders[i];
    && var (a, b) := (Lo.AccountOf(l, p.user), Lo.AccountOf(m, p.user));
    && b == a.(reserved := a.reserved - p.redeemed, version := b.version)
    && OtherAccountsSame(l, m, p.user) && m.log == l.log
    && m.orders[i] == p.(status := if p.redeemed > 0 then Lo.Redemption.Released else Lo.NoPoints)
  }

  /** Every child moved from unpaid to the given status, and nothing else of it changed but the version. */
  ghost predicate ChildrenMoved(before: seq<S.SellerOrder>, after: seq<S.SellerOrder>, status: S.Status) {
    && |after| == |before|
    && forall k | 0 <= k < |before| ::
         before[k].status == S.PendingPayment && after[k] == before[k].(status := status, version := before[k].version + 1)
  }

  /** One credit of the net into Pending for each affiliate among the first `n` children of order `i`. */
  function Credits(i: nat, children: seq<S.SellerOrder>, n: nat): seq<Le.Entry>
    requires n <= |children|
  {
    if n == 0 then [] else
      var c := children[n - 1];
      var id := Le.SellerOrderId(i, n - 1);
      Credits(i, children, n - 1)
      + if c.affiliate.None? then []
        else [Le.Entry(c.affiliate.value, Some(id), None, Le.Pending, Le.SalePending, c.net, Le.SaleKey(id))]
  }

  /** The money for an open order arrived: stock, points, children and sellers are all settled. */
  ghost predicate MoneyTaken(s: Shop, t: Shop, i: nat) {
    && i < |s.orders| && i < |t.orders|
    && StockTaken(s.stock, t.stock, i) && PointsSettled(s.loyalty, t.loyalty, i)
    && ChildrenMoved(s.orders[i].children, t.orders[i].children, S.Paid)
    && t.books == s.books.(entries := s.books.entries + Credits(i, s.orders[i].children, |s.orders[i].children|))
    && t.orders[i].status == Paid
  }

  /** An open order is given up: stock, points and children are released and no money moves. */
  ghost predicate GivenUp(s: Shop, t: Shop, i: nat, status: OrderStatus) {
    && i < |s.orders| && i < |t.orders|
    && StockReturned(s.stock, t.stock, i) && PointsReturned(s.loyalty, t.loyalty, i)
    && ChildrenMoved(s.orders[i].children, t.orders[i].children, S.Cancelled)
    && t.books == s.books && t.orders[i].status == status
  }

  /** Only the row of order `i` changed, and in it at most the columns a payment decision writes. */
  ghost predicate OnlyRow(s: Shop, t: Shop, i: nat) {
    i < |s.orders| == |t.orders| && t == s.(orders := s.orders[i := t.orders[i]]) && t.orders[i].children == s.orders[i].children
  }

  ghost predicate RowMoved(o: Order, n: Order) {
    n == o.(status := n.status, version := o.version + 1, payment := n.payment, receipts := n.receipts, children := n.children)
  }

  // ---------- Settling and releasing points ----------

  lemma SettledAccounts(l: Lo.Loyalty, i: nat)
    requires Lo.Inv(l) && i < |l.orders| && PointsFit(l, i, Open) && Lo.Settle(l, i).Success?
    ensures PointsSettled(l, Lo.Settle(l, i).value, i)
  {
    assert Lo.OrderOk(l, i);
  }

  lemma ReleasedAccounts(l: Lo.Loyalty, i: nat)
    requires Lo.Inv(l) && i < |l.orders| && PointsFit(l, i, Open) && Lo.Release(l, i).Success?
    ensures PointsReturned(l, Lo.Release(l, i).value, i)
  {
    assert Lo.OrderOk(l, i);
  }

  // ---------- Crediting and closing the children ----------

  /** Credits of order `i` exist for its first `n` children at most. */
  ghost predicate CreditedBelow(entries: seq<Le.Entry>, i: nat, n: nat) {
    forall e <- entries :: e.key.SaleKey? && e.key.seller.order == i ==> e.key.seller.index < n
  }

  /** What the accreditation loop finds when it reaches child `k`. */
  ghost predicate Reached(i: nat, f: Family, k: nat)
    requires k < |f.children|
  {
    var g := Each(Accredit, i, f, k);
    && g.children[k] == f.children[k] && f.children[k].status == S.PendingPayment && SL.Owned(g.entries)
    && S.KeysOk(g.children[k], Le.SellerOrderId(i, k), g.entries)
  }

  lemma ChildReached(i: nat, f: Family, k: nat)
    requires FamilyOk(i, f.children, f.entries) && SL.Owned(f.entries) && k < |f.children| && f.children[k].status == S.PendingPayment
    ensures Reached(i, f, k)
  {
    EachKeeps(Accredit, i, f, k);
    assert ChildOk(Each(Accredit, i, f, k).children[k], Le.SellerOrderId(i, k), Each(Accredit, i, f, k).entries);
  }

  lemma {:induction false} EachCredits(i: nat, f: Family, n: nat)
    requires n <= |f.children| && CreditedBelow(f.entries, i, 0) && forall k | 0 <= k < n :: Reached(i, f, k)
    ensures Each(Accredit, i, f, n).entries == f.entries + Credits(i, f.children, n)
    ensures CreditedBelow(Each(Accredit, i, f, n).entries, i, n)
  {
    if n > 0 {
      EachCredits(i, f, n - 1);
      var g := Each(Accredit, i, f, n - 1);
      assert Reached(i, f, n - 1);
      assert Each(Accredit, i, f, n) == Once(Accredit, i, g, n - 1);
      CreditOne(i, f, g, n - 1);
    }
  }

  lemma CreditOne(i: nat, f: Family, g: Family, k: nat)
    requires k < |f.children| == |g.children| && g.children[k] == f.children[k] && f.children[k].status == S.PendingPayment
    requires SL.Owned(g.entries) && S.KeysOk(g.children[k], Le.SellerOrderId(i, k), g.entries)
    requires g.entries == f.entries + Credits(i, f.children, k) && CreditedBelow(g.entries, i, k)
    ensures Once(Accredit, i, g, k).entries == f.entries + Credits(i, f.children, k + 1)
    ensures CreditedBelow(Once(Accredit, i, g, k).entries, i, k + 1)
  {
    NoCreditYet(i, g, k);
  }

  lemma NoCreditYet(i: nat, g: Family, k: nat)
    requires k < |g.children| && SL.Owned(g.entries) && S.KeysOk(g.children[k], Le.SellerOrderId(i, k), g.entries)
    requires CreditedBelow(g.entries, i, k)
    ensures !Le.HasSale(g.entries, Le.SellerOrderId(i, k))
  {
    forall e | e in g.entries && e.seller == Some(Le.SellerOrderId(i, k)) ensures e.kind != Le.SalePending {
      assert S.EntryOf(g.children[k], Le.SellerOrderId(i, k), e);
    }
  }

  lemma {:induction false} EachCloses(i: nat, f: Family, n: nat)
    requires n <= |f.children|
    ensures Each(Close, i, f, n).entries == f.entries
  {
    if n > 0 { EachCloses(i, f, n - 1); }
  }

  // ---------- Stock ----------

  lemma OpenStockTaken(s: Shop, i: nat)
    requires Inv(s) && i < |s.orders| && InStage(s, i, Open)
    ensures StockTaken(s.stock, St.AfterPass(s.stock, i, St.Consume), i)
  {
    RowsAfter(s.stock.reservations[i], St.Consume, St.Active);
  }

  lemma OpenStockReturned(s: Shop, i: nat)
    requires Inv(s) && i < |s.orders| && InStage(s, i, Open)
    ensures StockReturned(s.stock, St.AfterPass(s.stock, i, St.Release), i)
  {
    RowsAfter(s.stock.reservations[i], St.Release, St.Active);
  }

  // ---------- Accepting and giving up an open order ----------

  lemma OpenChildren(s: Shop, i: nat)
    requires Inv(s) && i < |s.orders| && InStage(s, i, Open)
    ensures FamilyOk(i, s.orders[i].children, s.books.entries) && SL.Owned(s.books.entries) && NoCredit(s.books.entries, i)
    ensures forall c <- s.orders[i].children :: c.status == S.PendingPayment
  {
    assert OrderOk(s, i);
    OwnedByInv(s.books);
  }

  lemma AllCredited(s: Shop, i: nat)
    requires Inv(s) && i < |s.orders| && InStage(s, i, Open)
    ensures var children := s.orders[i].children;
            All(Accredit, i, children, s.books.entries).entries == s.books.entries + Credits(i, children, |children|)
  {
    OpenChildren(s, i);
    var f := Family(s.orders[i].children, s.books.entries);
    forall k | 0 <= k < |f.children| ensures Reached(i, f, k) {
      assert f.children[k] in f.children;
      ChildReached(i, f, k);
    }
    EachCredits(i, f, |f.children|);
  }

  lemma AcceptOutcome(s: Shop, i: nat, o: Order)
    requires Inv(s) && i < |s.orders| && InStage(s, i, Open)
    requires SameIdentity(s.orders[i], o) && o.children == s.orders[i].children && o.status == Paid
    ensures var r := Accept(s, i, o, St.AfterPass(s.stock, i, St.Consume));
            && r.Success? && Turn(s, r.value, i) && Inv(r.value) && MoneyTaken(s, r.value, i)
            && r.value.orders[i] == o.(children := r.value.orders[i].children)
  {
    var stock := St.AfterPass(s.stock, i, St.Consume);
    OpenPointsSettle(s, i);
    OpenRowsConsumed(s, i);
    AcceptKeepsInv(s, i, o, stock);
    assert OrderOk(s, i);
    AccreditedStatuses(o.children, Accept(s, i, o, stock).value.orders[i].children);
    AcceptedTables(s, i, o);
  }

  lemma AcceptedTables(s: Shop, i: nat, o: Order)
    requires Inv(s) && i < |s.orders| && InStage(s, i, Open) && o.children == s.orders[i].children
    requires Accept(s, i, o, St.AfterPass(s.stock, i, St.Consume)).Success?
    ensures var t := Accept(s, i, o, St.AfterPass(s.stock, i, St.Consume)).value;
            && |t.orders| == |s.orders| && StockTaken(s.stock, t.stock, i) && PointsSettled(s.loyalty, t.loyalty, i)
            && t.books == s.books.(entries := s.books.entries + Credits(i, o.children, |o.children|))
            && ChildrenMoved(o.children, t.orders[i].children, S.Paid)
            && (t.orders[i].status == o.status ==> t.orders[i] == o.(children := t.orders[i].children))
  {
    OpenChildren(s, i);
    OpenStockTaken(s, i);
    SettledAccounts(s.loyalty, i);
    AllCredited(s, i);
    OpenChildrenMoved(s, i, Accredit, S.Paid);
  }

  lemma OpenChildrenMoved(s: Shop, i: nat, op: ParentOp, status: S.Status)
    requires Inv(s) && i < |s.orders| && InStage(s, i, Open)
    requires (op == Accredit && status == S.Paid) || (op == Close && status == S.Cancelled)
    ensures ChildrenMoved(s.orders[i].children, All(op, i, s.orders[i].children, s.books.entries).children, status)
  {
    OpenChildren(s, i);
    AllRows(s, i, op);
    assert forall k | 0 <= k < |s.orders[i].children| :: s.orders[i].children[k] in s.orders[i].children;
  }

  lemma GiveUpOutcome(s: Shop, i: nat, o: Order, checked: bool)
    requires Inv(s) && i < |s.orders| && InStage(s, i, Open)
    requires SameIdentity(s.orders[i], o) && o.children == s.orders[i].children && o.status in {Cancelled, Expired}
    ensures var r := GiveUp(s, i, o, checked);
            && r.Success? && Turn(s, r.value, i) && Inv(r.value) && GivenUp(s, r.value, i, o.status)
            && r.value.orders[i] == o.(children := r.value.orders[i].children)
  {
    GiveUpKeepsInv(s, i, o, checked);
    GivenUpTables(s, i, o, checked);
  }

  lemma GivenUpTables(s: Shop, i: nat, o: Order, checked: bool)
    requires Inv(s) && i < |s.orders| && InStage(s, i, Open) && o.children == s.orders[i].children && GiveUp(s, i, o, checked).Success?
    ensures var t := GiveUp(s, i, o, checked).value;
            && |t.orders| == |s.orders| && StockReturned(s.stock, t.stock, i) && PointsReturned(s.loyalty, t.loyalty, i) && t.books == s.books
            && ChildrenMoved(o.children, t.orders[i].children, S.Cancelled) && t.orders[i] == o.(children := t.orders[i].children)
  {
    ReleaseStockFacts(s.stock, i, checked);
    OpenStockReturned(s, i);
    ReleasedAccounts(s.loyalty, i);
    EachCloses(i, Family(o.children, s.books.entries), |o.children|);
    OpenChildrenMoved(s, i, Close, S.Cancelled);
  }

  // ---------- Cancellation and expiry ----------

  /** The columns a cancellation leaves alone. */
  ghost predicate OnlyStatusMoved(o: Order, n: Order) {
    n == o.(status := n.status, version := o.version + 1, children := n.children)
  }

  lemma GiveUpRow(s: Shop, i: nat, status: OrderStatus, checked: bool)
    requires Inv(s) && i < |s.orders| && s.orders[i].status in {PendingPayment, PaymentReview} && status in {Cancelled, Expired}
    ensures var r := GiveUp(s, i, WithStatus(s.orders[i], status), checked);
            && r.Success? && Turn(s, r.value, i) && Inv(r.value) && GivenUp(s, r.value, i, status)
            && OnlyStatusMoved(s.orders[i], r.value.orders[i])
  {
    PendingIsOpen(s, i);
    GiveUpOutcome(s, i, WithStatus(s.orders[i], status), checked);
  }

  /** A buyer may cancel exactly while payment is pending or under review; the order is given up. */
  lemma CustomerCancelOutcome(s: Shop, i: nat)
    requires Inv(s)
    ensures CustomerCancel(s, i).Success? <==> i < |s.orders| && s.orders[i].status in {PendingPayment, PaymentReview}
    ensures CustomerCancel(s, i).Success? ==>
              var t := CustomerCancel(s, i).value;
              Turn(s, t, i) && Inv(t) && GivenUp(s, t, i, Cancelled) && OnlyStatusMoved(s.orders[i], t.orders[i])
  {
    if i < |s.orders| && s.orders[i].status in {PendingPayment, PaymentReview} { GiveUpRow(s, i, Cancelled, false); }
  }

  /** So may an administrator who saw the current version. */
  lemma AdminCancelOutcome(s: Shop, i: nat, v: nat)
    requires Inv(s)
    ensures AdminCancel(s, i, v).Success? <==>
              i < |s.orders| && s.orders[i].status in {PendingPayment, PaymentReview} && s.orders[i].version == v
    ensures AdminCancel(s, i, v).Success? ==>
              var t := AdminCancel(s, i, v).value;
              Turn(s, t, i) && Inv(t) && GivenUp(s, t, i, Cancelled) && OnlyStatusMoved(s.orders[i], t.orders[i])
  {
    if i < |s.orders| && s.orders[i].status in {PendingPayment, PaymentReview} { GiveUpRow(s, i, Cancelled, true); }
  }

  /** An unpaid order expires exactly when its window has passed. */
  lemma ExpireOutcome(s: Shop, i: nat, now: int)
    requires Inv(s)
    ensures Expire(s, i, now).Success? <==>
              && i < |s.orders| && s.orders[i].status in {PendingPayment, PaymentReview}
              && s.orders[i].expiresAt.Some? && s.orders[i].expiresAt.value <= now
    ensures Expire(s, i, now).Success? ==>
              var t := Expire(s, i, now).value;
              Turn(s, t, i) && Inv(t) && GivenUp(s, t, i, Expired) && OnlyStatusMoved(s.orders[i], t.orders[i])
  {
    if i < |s.orders| && s.orders[i].status in {PendingPayment, PaymentReview} { GiveUpRow(s, i, Expired, false); }
  }

  // ---------- Bank transfers ----------

  ghost predicate ReceiptFiled(s: Shop, t: Shop, i: nat) {
    && OnlyRow(s, t, i) && Inv(t)
    && var (o, n) := (s.orders[i], t.orders[i]);
    n == o.(status := PaymentReview, payment := UnderReview, receipts := o.receipts + [ReviewPending],
            version := if o.status == PaymentReview then o.version else o.version + 1)
  }

  /** A receipt is filed for an unpaid bank transfer and puts it under review; nothing else moves. */
  lemma UploadOutcome(s: Shop, i: nat)
    requires Inv(s)
    ensures UploadReceipt(s, i).Success? <==>
              i < |s.orders| && s.orders[i].payMethod == BankTransfer && s.orders[i].status in {PendingPayment, PaymentReview}
    ensures UploadReceipt(s, i).Success? ==>
              ReceiptFiled(s, UploadReceipt(s, i).value, i)
  {
    if UploadReceipt(s, i).Success? { UploadOk(s, i); }
  }

  /** The chosen receipt carries the decision, the other pending ones are rejected, and none stays pending. */
  ghost predicate ReceiptsDecided(before: seq<Review>, after: seq<Review>, receipt: nat, approve: bool) {
    && |after| == |before| && receipt < |before| && ReviewPending !in after
    && after[receipt] == (if approve then ReviewApproved else ReviewRejected)
    && forall k | 0 <= k < |before| && k != receipt :: after[k] == if before[k] == ReviewPending then ReviewRejected else before[k]
  }

  /** What reviewing a transfer comes to: approval takes the money, rejection gives the order up. */
  ghost predicate Reviewed(s: Shop, t: Shop, i: nat, receipt: nat, approve: bool) {
    && i < |s.orders| && i < |t.orders| && Turn(s, t, i) && Inv(t)
    && RowMoved(s.orders[i], t.orders[i]) && ReceiptsDecided(s.orders[i].receipts, t.orders[i].receipts, receipt, approve)
    && (approve ==> MoneyTaken(s, t, i) && t.orders[i].payment == Approved)
    && (!approve ==> GivenUp(s, t, i, Cancelled) && t.orders[i].payment == Rejected)
  }

  lemma DecidedReceipts(receipts: seq<Review>, receipt: nat, approve: bool)
    requires receipt < |receipts|
    ensures ReceiptsDecided(receipts, Decided(receipts, receipt, if approve then ReviewApproved else ReviewRejected), receipt, approve)
  {
  }

  /** The receipt may be decided: a pending receipt of an unpaid bank transfer seen in its current version. */
  predicate Reviewable(s: Shop, i: nat, receipt: nat, v: nat) {
    && i < |s.orders| && s.orders[i].payMethod == BankTransfer && receipt < |s.orders[i].receipts|
    && s.orders[i].receipts[receipt] == ReviewPending && s.orders[i].status in {PendingPayment, PaymentReview}
    && s.orders[i].version == v
  }

  lemma ApprovedReview(s: Shop, i: nat, receipt: nat, v: nat)
    requires Inv(s) && Reviewable(s, i, receipt, v)
    ensures var r := ReviewTransfer(s, i, receipt, v, true); r.Success? && Reviewed(s, r.value, i, receipt, true)
  {
    var o := s.orders[i];
    PendingIsOpen(s, i);
    DecidedReceipts(o.receipts, receipt, true);
    ReviewAccepts(s, i, receipt, v);
    AcceptOutcome(s, i, WithStatus(o, Paid).(payment := Approved, receipts := Decided(o.receipts, receipt, ReviewApproved)));
  }

  lemma ReviewAccepts(s: Shop, i: nat, receipt: nat, v: nat)
    requires Inv(s) && Reviewable(s, i, receipt, v) && InStage(s, i, Open)
    ensures var o := s.orders[i];
            ReviewTransfer(s, i, receipt, v, true) ==
              Accept(s, i, WithStatus(o, Paid).(payment := Approved, receipts := Decided(o.receipts, receipt, ReviewApproved)),
                     St.AfterPass(s.stock, i, St.Consume))
  {
    OpenRowsConsumed(s, i);
  }

  lemma RejectedReview(s: Shop, i: nat, receipt: nat, v: nat)
    requires Inv(s) && Reviewable(s, i, receipt, v)
    ensures var r := ReviewTransfer(s, i, receipt, v, false); r.Success? && Reviewed(s, r.value, i, receipt, false)
  {
    var o := s.orders[i];
    PendingIsOpen(s, i);
    DecidedReceipts(o.receipts, receipt, false);
    GiveUpOutcome(s, i, WithStatus(o, Cancelled).(payment := Rejected, receipts := Decided(o.receipts, receipt, ReviewRejected)), true);
  }

  lemma ReviewRefused(s: Shop, i: nat, receipt: nat, v: nat, approve: bool)
    requires s.Shape() && !Reviewable(s, i, receipt, v)
    ensures ReviewTransfer(s, i, receipt, v, approve).Failure?
  {
  }

  /** Approving a transfer takes the money and rejecting it gives the order up; anything else is refused. */
  lemma ReviewOutcome(s: Shop, i: nat, receipt: nat, v: nat, approve: bool)
    requires Inv(s)
    ensures ReviewTransfer(s, i, receipt, v, approve).Success? <==> Reviewable(s, i, receipt, v)
    ensures ReviewTransfer(s, i, receipt, v, approve).Success? ==> Reviewed(s, ReviewTransfer(s, i, receipt, v, approve).value, i, receipt, approve)
  {
    if !Reviewable(s, i, receipt, v) {
      ReviewRefused(s, i, receipt, v, approve);
    } else if approve {
      ApprovedReview(s, i, receipt, v);
    } else {
      RejectedReview(s, i, receipt, v);
    }
  }

  // ---------- Provider events ----------

  /** An approval that still finds the window open and every row reserved. */
  ghost predicate InTime(o: Order, rows: seq<St.Reservation>, now: int) {
    && o.status in {PendingPayment, PaymentReview} && o.expiresAt.Some? && now < o.expiresAt.value
    && rows != [] && forall r <- rows :: !r.released && !r.consumed && now < r.expiresAt
  }

  /** A payment that cannot be booked as it stands asks for a manual review, unless the order is past that. */
  function AskedForReview(o: Order, payment: PaymentStatus): Order {
    if o.status in {Paid, Completed, RefundRecorded, PaymentRequiresReview} then o.(payment := payment)
    else o.(payment := payment, status := PaymentRequiresReview, version := o.version + 1)
  }

  /** The window closed, or the order was given up, before the approval came. */
  predicate TooLate(o: Order, now: int) {
    o.status in {Expired, Cancelled} || o.expiresAt.None? || o.expiresAt.value <= now
  }

  /** Rows still reserved are released, points are given back and no child stays open. */
  ghost predicate RefundedWhole(s: Shop, t: Shop, i: nat) {
    && i < |s.orders| && i < |t.orders| && i < |s.stock.reservations| == |t.stock.reservations|
    && !St.HasActive(t.stock.reservations[i]) && t.stock.inventory.Keys == s.stock.inventory.Keys
    && (forall p <- s.stock.inventory ::
          && t.stock.inventory[p].onHand == s.stock.inventory[p].onHand
          && t.stock.inventory[p].reserved == s.stock.inventory[p].reserved - St.Qty(s.stock.reservations[i], p, St.Active))
    && ChildrenRefunded(s.orders[i].children, t.orders[i].children)
    && i < |t.loyalty.orders| && Lo.Net(t.loyalty.log, i) == 0 && t.loyalty.orders[i].status != Lo.Held
    && t.orders[i].status == RefundRecorded && t.books.payouts == s.books.payouts
  }

  ghost predicate ChildrenRefunded(before: seq<S.SellerOrder>, after: seq<S.SellerOrder>) {
    && |after| == |before|
    && forall k | 0 <= k < |before| ::
         after[k] == if before[k].status in {S.Cancelled, S.Refunded} then before[k]
                     else before[k].(status := S.Refunded, version := before[k].version + 1, autoCompleteAt := None, parentRefunded := true)
  }

  /** What one provider event comes to, given the payment status it means. */
  ghost predicate ColumnFollowed(s: Shop, t: Shop, i: nat, payment: PaymentStatus, now: int) {
    && i < |s.orders| == |t.orders| && i < |s.stock.reservations|
    && var o, n := s.orders[i].(payment := payment), t.orders[i];
    match payment
    case Approved =>
      if InTime(o, s.stock.reservations[i], now)
      then MoneyTaken(s, t, i) && n == o.(status := Paid, version := o.version + 1, children := n.children)
      else OnlyRow(s, t, i) && n == if TooLate(o, now) || o.status in {PendingPayment, PaymentReview} then AskedForReview(o, Approved) else o
    case Failed =>
      if o.status in {PendingPayment, PaymentReview}
      then GivenUp(s, t, i, Expired) && n == o.(status := Expired, version := o.version + 1, children := n.children)
      else OnlyRow(s, t, i) && n == o
    case Refunded => RefundedWhole(s, t, i) && n.payment == Refunded
    case _ => OnlyRow(s, t, i) && n == if payment in {RequiresReview, Disputed, PartiallyRefunded} then AskedForReview(o, payment) else o
  }

  /** An event is applied by the kind of event it is. */
  ghost predicate EventApplied(s: Shop, t: Shop, i: nat, st: ProviderState, collector: Option<string>, now: int) {
    i < |s.orders| && Turn(s, t, i) && Inv(t) && ColumnFollowed(s, t, i, PaymentFor(s.orders[i], st, collector), now)
  }

  lemma ApprovalInTime(s: Shop, i: nat, o: Order, now: int)
    requires Inv(s) && i < |s.orders| && o == s.orders[i].(payment := Approved) && InTime(o, s.stock.reservations[i], now)
    ensures var r := ProviderApproved(s, i, o, now);
            && r.Success? && |r.value.orders| == |s.orders| && MoneyTaken(s, r.value, i)
            && r.value.orders[i] == o.(status := Paid, version := o.version + 1, children := r.value.orders[i].children)
  {
    PendingIsOpen(s, i);
    OpenApproved(s, i, o, now);
    AcceptOutcome(s, i, WithStatus(o, Paid));
  }

  lemma OpenApproved(s: Shop, i: nat, o: Order, now: int)
    requires Inv(s) && i < |s.orders| && InStage(s, i, Open) && InTime(o, s.stock.reservations[i], now)
    ensures ProviderApproved(s, i, o, now) == Accept(s, i, WithStatus(o, Paid), St.AfterPass(s.stock, i, St.Consume))
  {
    OpenRowsConsumed(s, i);
    ApprovalAccepts(s, i, o, now);
  }

  lemma ApprovalAccepts(s: Shop, i: nat, o: Order, now: int)
    requires s.Shape() && i < |s.orders| && InTime(o, s.stock.reservations[i], now)
    requires St.All(s.stock.reservations[i], St.Active)
    requires St.ConsumeOnApproval(s.stock, i) == Success(St.AfterPass(s.stock, i, St.Consume))
    ensures ProviderApproved(s, i, o, now) == Accept(s, i, WithStatus(o, Paid), St.AfterPass(s.stock, i, St.Consume))
  {
  }

  lemma ApprovalOutOfTime(s: Shop, i: nat, o: Order, now: int)
    requires s.Shape() && i < |s.orders| && o.children == s.orders[i].children && o.payment == Approved && !InTime(o, s.stock.reservations[i], now)
    ensures ProviderApproved(s, i, o, now) ==
              Success(s.(orders := s.orders[i := if TooLate(o, now) || o.status in {PendingPayment, PaymentReview} then AskedForReview(o, Approved) else o]))
  {
    assert o.(payment := Approved) == o;
  }

  lemma ApprovalOutcome(s: Shop, i: nat, o: Order, now: int)
    requires Inv(s) && i < |s.orders| && o == s.orders[i].(payment := Approved) && o.payMethod == MercadoPago
    ensures var r := ProviderApproved(s, i, o, now);
            && r.Success? && |r.value.orders| == |s.orders|
            && var n := r.value.orders[i];
            if InTime(o, s.stock.reservations[i], now)
            then MoneyTaken(s, r.value, i) && n == o.(status := Paid, version := o.version + 1, children := n.children)
            else OnlyRow(s, r.value, i)
                 && n == if TooLate(o, now) || o.status in {PendingPayment, PaymentReview} then AskedForReview(o, Approved) else o
  {
    if InTime(o, s.stock.reservations[i], now) { ApprovalInTime(s, i, o, now); } else { ApprovalOutOfTime(s, i, o, now); }
  }

  lemma RefundOutcome(s: Shop, i: nat, o: Order)
    requires Inv(s) && i < |s.orders| && o == s.orders[i].(payment := o.payment)
    ensures ProviderRefunded(s, i, o).Success?
    ensures RefundedWhole(s, ProviderRefunded(s, i, o).value, i) && ProviderRefunded(s, i, o).value.orders[i].payment == o.payment
  {
    RefundTables(s, i, o);
    RefundRows(s, i);
  }

  lemma RefundTables(s: Shop, i: nat, o: Order)
    requires Inv(s) && i < |s.orders|
    ensures ProviderRefunded(s, i, o).Success?
    ensures var t := ProviderRefunded(s, i, o).value;
            && |t.orders| == |s.orders| && t.stock == St.AfterPass(s.stock, i, St.Release) && !St.HasActive(t.stock.reservations[i])
            && i < |t.loyalty.orders| && Lo.Net(t.loyalty.log, i) == 0 && t.loyalty.orders[i].status != Lo.Held
            && t.books.payouts == s.books.payouts && t.orders[i].status == RefundRecorded && t.orders[i].payment == o.payment
            && t.orders[i].children == All(RefundAll, i, o.children, s.books.entries).children
  {
    assert OrderOk(s, i);
    var stage :| InStage(s, i, stage);
    ReleaseForRefund(s, i, stage);
    RefundPoints(s.loyalty, i, stage);
    RefundedPoints(s.loyalty, i, stage);
    NothingReserved(s, i, stage);
  }

  lemma NothingReserved(s: Shop, i: nat, stage: Stage)
    requires Inv(s) && i < |s.orders| && InStage(s, i, stage)
    ensures !St.HasActive(St.AfterPass(s.stock, i, St.Release).reservations[i])
  {
    ReleaseForRefund(s, i, stage);
  }

  lemma RefundRows(s: Shop, i: nat)
    requires Inv(s) && i < |s.orders|
    ensures ChildrenRefunded(s.orders[i].children, All(RefundAll, i, s.orders[i].children, s.books.entries).children)
  {
    AllRows(s, i, RefundAll);
  }

  lemma RefundedPoints(l: Lo.Loyalty, i: nat, stage: Stage)
    requires Lo.Inv(l) && i < |l.orders| && PointsFit(l, i, stage) && Lo.Release(l, i).Success?
    ensures var m := Lo.Reverse(Lo.Release(l, i).value, i);
            i < |m.orders| && Lo.Net(m.log, i) == 0 && m.orders[i].status != Lo.Held
  {
    LoL.ReleaseKeepsInv(l, i);
    var r := Lo.Release(l, i).value;
    LoL.ReverseKeepsInv(r, i);
    LoL.NetOfOrder(Lo.Reverse(r, i), i);
    assert Lo.OrderOk(l, i) && Lo.OrderOk(Lo.Reverse(r, i), i);
  }

  /** Every event for a known payment is applied as its fields say. */
  lemma ProviderOutcome(s: Shop, i: nat, st: ProviderState, collector: Option<string>, now: int)
    requires Inv(s) && i < |s.orders| && s.orders[i].payMethod == MercadoPago
    ensures Provider(s, i, st, collector, now).Success?
    ensures EventApplied(s, Provider(s, i, st, collector, now).value, i, st, collector, now)
  {
    ProviderOk(s, i, st, collector, now);
    var o := s.orders[i].(payment := StatusForProvider(st, ExpectedAmount(s.orders[i]), s.orders[i].number, collector));
    assert Provider(s, i, st, collector, now) == ApplyStatus(s, i, o, st.terminal, now);
    PaymentIs(s.orders[i], st, collector);
    ColumnOutcome(s, i, o, st.terminal, now);
  }

  lemma ColumnOutcome(s: Shop, i: nat, o: Order, terminal: bool, now: int)
    requires Inv(s) && i < |s.orders| && o == s.orders[i].(payment := o.payment) && o.payMethod == MercadoPago && (o.payment == Failed ==> terminal)
    ensures ApplyStatus(s, i, o, terminal, now).Success?
    ensures ColumnFollowed(s, ApplyStatus(s, i, o, terminal, now).value, i, o.payment, now)
  {
    if o.payment == Approved {
      ApprovalOutcome(s, i, o, now);
    } else if o.payment == Failed {
      FailureOutcome(s, i, o, now);
    } else if o.payment == Refunded {
      RefundOutcome(s, i, o);
    } else {
      OtherOutcome(s, i, o, terminal, now);
    }
  }

  lemma FailureOutcome(s: Shop, i: nat, o: Order, now: int)
    requires Inv(s) && i < |s.orders| && o == s.orders[i].(payment := Failed)
    ensures ApplyStatus(s, i, o, true, now).Success?
    ensures var t := ApplyStatus(s, i, o, true, now).value;
            && |t.orders| == |s.orders|
            && if o.status in {PendingPayment, PaymentReview} then
                 GivenUp(s, t, i, Expired) && t.orders[i] == o.(status := Expired, version := o.version + 1, children := t.orders[i].children)
               else OnlyRow(s, t, i) && t.orders[i] == o
  {
    if o.status in {PendingPayment, PaymentReview} {
      PendingIsOpen(s, i);
      GiveUpOutcome(s, i, WithStatus(o, Expired), false);
    }
  }

  lemma OtherOutcome(s: Shop, i: nat, o: Order, terminal: bool, now: int)
    requires s.Shape() && i < |s.orders| && o.payment !in {Approved, Failed, Refunded} && o.children == s.orders[i].children
    ensures ApplyStatus(s, i, o, terminal, now).Success?
    ensures var t := ApplyStatus(s, i, o, terminal, now).value;
            OnlyRow(s, t, i) && t.orders[i] == if o.payment in {RequiresReview, Disputed, PartiallyRefunded} then AskedForReview(o, o.payment) else o
  {
    assert o.(payment := o.payment) == o;
  }

  lemma RowsOfStatus(t: Shop, i: nat)
    requires Inv(t) && i < |t.orders|
    ensures var (rows, status) := (t.stock.reservations[i], t.orders[i].status);
            && (status == Paid ==> St.All(rows, St.Consumed) && !St.All(rows, St.Released))
            && (status == Expired ==> St.All(rows, St.Released) && !St.All(rows, St.Consumed))
            && (status in {PendingPayment, PaymentReview} ==> !St.All(rows, St.Consumed) && !St.All(rows, St.Released))
            && (!St.HasActive(rows) && !St.All(rows, St.Consumed) <==> St.All(rows, St.Released))
  {
    StatusTellsStock(t, i);
    assert t.stock.reservations[i][0] in t.stock.reservations[i];
  }

  /** In particular an unpaid order is paid by an event exactly on an approval in time, and expired exactly on a final failure. */
  lemma UnpaidOrderOutcome(s: Shop, i: nat, st: ProviderState, collector: Option<string>, now: int)
    requires Inv(s) && i < |s.orders| && s.orders[i].payMethod == MercadoPago && s.orders[i].status in {PendingPayment, PaymentReview}
    ensures Provider(s, i, st, collector, now).Success?
    ensures var t := Provider(s, i, st, collector, now).value;
            && |t.orders| == |s.orders| && t.Shape()
            && (t.orders[i].status == Paid <==> IsApproval(s.orders[i], st, collector) && InTime(s.orders[i], s.stock.reservations[i], now))
            && (t.orders[i].status == Paid ==> St.All(t.stock.reservations[i], St.Consumed))
            && (t.orders[i].status == Expired <==> IsFailure(s.orders[i], st, collector))
            && (t.orders[i].status == Expired ==> St.All(t.stock.reservations[i], St.Released))
            && (t.stock != s.stock ==> t.orders[i].status in {Paid, Expired, RefundRecorded})
  {
    ProviderOutcome(s, i, st, collector, now);
    UnpaidStatus(s, Provider(s, i, st, collector, now).value, i, st, collector, now);
    RowsOfStatus(Provider(s, i, st, collector, now).value, i);
  }

  lemma UnpaidStatus(s: Shop, t: Shop, i: nat, st: ProviderState, collector: Option<string>, now: int)
    requires EventApplied(s, t, i, st, collector, now) && s.orders[i].status in {PendingPayment, PaymentReview}
    ensures t.orders[i].status == Paid <==> IsApproval(s.orders[i], st, collector) && InTime(s.orders[i], s.stock.reservations[i], now)
    ensures t.orders[i].status == Expired <==> IsFailure(s.orders[i], st, collector)
    ensures t.stock != s.stock ==> t.orders[i].status in {Paid, Expired, RefundRecorded}
  {
  }

  // ---------- Late payments ----------

  /** An approved payment that waits for a manual decision, seen in its current version. */
  predicate AwaitsDecision(s: Shop, i: nat, v: nat) {
    i < |s.orders| && s.orders[i].status == PaymentRequiresReview && s.orders[i].payment == Approved && s.orders[i].version == v
  }

  /** A late payment of an order whose rows are still reserved is taken like any other. */
  lemma LateOpenOutcome(s: Shop, i: nat, v: nat)
    requires Inv(s) && i < |s.orders| && St.All(s.stock.reservations[i], St.Active)
    ensures FulfillLate(s, i, v).Success? <==> AwaitsDecision(s, i, v)
    ensures FulfillLate(s, i, v).Success? ==>
              var t := FulfillLate(s, i, v).value;
              Turn(s, t, i) && Inv(t) && MoneyTaken(s, t, i) && OnlyStatusMoved(s.orders[i], t.orders[i])
  {
    if AwaitsDecision(s, i, v) {
      ActiveIsOpen(s, i);
      OpenRowsConsumed(s, i);
      AcceptOutcome(s, i, WithStatus(s.orders[i], Paid));
    }
  }

  lemma ActiveIsOpen(s: Shop, i: nat)
    requires Inv(s) && i < |s.orders| && St.All(s.stock.reservations[i], St.Active) && s.orders[i].status != RefundRecorded
    ensures InStage(s, i, Open)
  {
    assert OrderOk(s, i);
    assert s.stock.reservations[i][0] in s.stock.reservations[i];
  }

  lemma ReleasedIsReleased(s: Shop, i: nat)
    requires Inv(s) && i < |s.orders| && St.All(s.stock.reservations[i], St.Released)
    ensures InStage(s, i, Released)
  {
    assert OrderOk(s, i);
    assert s.stock.reservations[i][0] in s.stock.reservations[i];
  }

  /** Released units that are free again leave the shop after all. */
  ghost predicate StockTakenAgain(s: St.Stock, t: St.Stock, i: nat) {
    && i < |s.reservations| && i < |t.reservations| && St.All(t.reservations[i], St.Consumed)
    && t.inventory.Keys == s.inventory.Keys && t.adjustments == s.adjustments && t.baseline == s.baseline
    && forall p <- s.inventory ::
         && t.inventory[p].onHand == s.inventory[p].onHand - St.Qty(s.reservations[i], p, St.Released)
         && t.inventory[p].reserved == s.inventory[p].reserved
  }

  /** Released points that can still be spent are spent after all, and the earned ones credited. */
  ghost predicate PointsSettledAgain(l: Lo.Loyalty, m: Lo.Loyalty, i: nat) {
    && i < |l.orders| && i < |m.orders|
    && var p := l.orders[i];
    && var (a, b) := (Lo.AccountOf(l, p.user), Lo.AccountOf(m, p.user));
    && b.balance == a.balance - p.redeemed + p.earned && b.reserved == a.reserved
    && OtherAccountsSame(l, m, p.user) && m.orders[i] == p.(status := if p.redeemed > 0 then Lo.Redeemed else Lo.NoPoints)
  }

  ghost predicate PointsCover(l: Lo.Loyalty, i: nat)
    requires i < |l.orders|
  {
    l.orders[i].redeemed > 0 ==> l.orders[i].redeemed <= Lo.AccountOf(l, l.orders[i].user).balance - Lo.AccountOf(l, l.orders[i].user).reserved
  }

  lemma SettledAgain(l: Lo.Loyalty, i: nat)
    requires Lo.Inv(l) && i < |l.orders| && PointsFit(l, i, Released)
    ensures Lo.Settle(l, i).Success? <==> PointsCover(l, i)
    ensures Lo.Settle(l, i).Success? ==> PointsSettledAgain(l, Lo.Settle(l, i).value, i)
  {
    assert Lo.OrderOk(l, i);
  }

  /**
   A late payment of an order given up before needs free stock for every product and points that can still
   be spent.  Then both are taken, but the sellers are not credited and the order reads cancelled.
   */
  lemma LateReleasedOutcome(s: Shop, i: nat, v: nat)
    requires Inv(s) && i < |s.orders| && St.All(s.stock.reservations[i], St.Released)
    ensures FulfillLate(s, i, v).Success? <==>
              && AwaitsDecision(s, i, v) && PointsCover(s.loyalty, i)
              && forall p <- s.stock.inventory :: St.Qty(s.stock.reservations[i], p, St.Released) <= s.stock.inventory[p].onHand - s.stock.inventory[p].reserved
    ensures FulfillLate(s, i, v).Success? ==>
              var t := FulfillLate(s, i, v).value;
              && Turn(s, t, i) && Inv(t) && StockTakenAgain(s.stock, t.stock, i) && PointsSettledAgain(s.loyalty, t.loyalty, i)
              && t.books == s.books && t.orders[i].status == Cancelled && t.orders[i].children == s.orders[i].children
  {
    ReleasedIsReleased(s, i);
    assert OrderOk(s, i);
    StL.LateFulfilmentIff(s.stock, i);
    SettledAgain(s.loyalty, i);
    if FulfillLate(s, i, v).Success? { LateReleasedTables(s, i, v); }
  }

  lemma LateReleasedTables(s: Shop, i: nat, v: nat)
    requires Inv(s) && i < |s.orders| && InStage(s, i, Released) && FulfillLate(s, i, v).Success?
    ensures var t := FulfillLate(s, i, v).value;
            && Turn(s, t, i) && Inv(t) && StockTakenAgain(s.stock, t.stock, i)
            && t.books == s.books && t.orders[i].status == Cancelled && t.orders[i].children == s.orders[i].children
  {
    LateOk(s, i, v);
    LateFulfilmentStatus(s, i, v);
    LateReleasedStock(s, i);
    LateReleasedChildren(s, i, v);
  }

  lemma LateReleasedChildren(s: Shop, i: nat, v: nat)
    requires Inv(s) && i < |s.orders| && InStage(s, i, Released) && FulfillLate(s, i, v).Success?
    ensures var t := FulfillLate(s, i, v).value;
            && t.stock == St.AfterPass(s.stock, i, St.Late) && t.books == s.books
            && |t.orders| == |s.orders| && t.orders[i].children == s.orders[i].children
  {
    ClosedUncredited(i, Family(s.orders[i].children, s.books.entries), |s.orders[i].children|);
  }

  lemma LateReleasedStock(s: Shop, i: nat)
    requires Inv(s) && i < |s.orders| && InStage(s, i, Released)
    ensures StockTakenAgain(s.stock, St.AfterPass(s.stock, i, St.Late), i)
  {
    RowsAfter(s.stock.reservations[i], St.Late, St.Released);
    forall p | p in s.stock.inventory ensures St.Qty(s.stock.reservations[i], p, St.Active) == 0 {
      StL.NoneStanding(s.stock.reservations[i], p, St.Active);
    }
  }

  /** Accreditation does nothing to a family without unpaid children. */
  lemma {:induction false} ClosedUncredited(i: nat, f: Family, n: nat)
    requires n <= |f.children| && forall c <- f.children :: c.status != S.PendingPayment
    ensures Each(Accredit, i, f, n) == f
  {
    if n > 0 {
      ClosedUncredited(i, f, n - 1);
      assert f.children[n - 1] in f.children && f.children[n - 1 := f.children[n - 1]] == f.children;
    }
  }

  // ---------- The back office's full refund ----------

  ghost predicate FullyRefunded(s: Shop, t: Shop, i: nat) {
    && i < |s.orders| && i < |t.orders| && Turn(s, t, i) && Inv(t) && t.stock == s.stock
    && var (o, n) := (s.orders[i], t.orders[i]);
    && ChildrenRefunded(o.children, n.children) && Lo.Net(t.loyalty.log, i) == 0
    && n == o.(status := RefundRecorded, payment := Refunded, fullRefund := true, version := o.version + 1, children := n.children)
  }

  /** A full refund closes what is open and gives the points back; it leaves every counter and row of the stock. */
  lemma FullRefundOutcome(s: Shop, i: nat, v: nat)
    requires Inv(s)
    ensures RecordFullRefund(s, i, v).Success? <==>
              && i < |s.orders| && s.orders[i].payment in {Approved, RequiresReview} && s.orders[i].version == v
              && !s.orders[i].fullRefund && forall c <- s.orders[i].children :: c.refunds == []
    ensures RecordFullRefund(s, i, v).Success? ==> FullyRefunded(s, RecordFullRefund(s, i, v).value, i)
  {
    if RecordFullRefund(s, i, v).Success? {
      FullRefundKeepsInv(s, i, v);
      RefundRows(s, i);
      ReversedNet(s.loyalty, i);
    }
  }

  lemma ReversedNet(l: Lo.Loyalty, i: nat)
    requires Lo.Inv(l) && i < |l.orders|
    ensures Lo.Net(Lo.Reverse(l, i).log, i) == 0
  {
    LoL.ReverseKeepsInv(l, i);
    LoL.NetOfOrder(Lo.Reverse(l, i), i);
  }

  // ---------- Refusals ----------

  /** In a valid shop these are the only refusals, whatever the stock and the points: no loop and no balance check fails. */
  lemma Refusals(s: Shop, i: nat, receipt: nat, v: nat, approve: bool, now: int)
    requires Inv(s)
    ensures CustomerCancel(s, i).Failure? ==> CustomerCancel(s, i).error == if i < |s.orders| then NotCancellable else NotFound
    ensures AdminCancel(s, i, v).Failure? ==>
              AdminCancel(s, i, v).error == if i >= |s.orders| then NotFound
                                            else if s.orders[i].status in {PendingPayment, PaymentReview} then OrderChanged else NotCancellable
    ensures Expire(s, i, now).Failure? ==> Expire(s, i, now).error == if i < |s.orders| then NotExpired else NotFound
    ensures ReviewTransfer(s, i, receipt, v, approve).Failure? ==>
              ReviewTransfer(s, i, receipt, v, approve).error ==
                if i >= |s.orders| || s.orders[i].payMethod == MercadoPago || receipt >= |s.orders[i].receipts| then NotFound
                else if s.orders[i].receipts[receipt] == ReviewPending && s.orders[i].status in {PendingPayment, PaymentReview} then OrderChanged
                else NotReviewable
    ensures RecordFullRefund(s, i, v).Failure? ==>
              RecordFullRefund(s, i, v).error ==
                if i >= |s.orders| then NotFound
                else if s.orders[i].payment in {Approved, RequiresReview} && !s.orders[i].fullRefund && forall c <- s.orders[i].children :: c.refunds == []
                then OrderChanged else NotRefundable
  {
    CustomerRefusal(s, i);
    AdminRefusal(s, i, v);
    ExpiryRefusal(s, i, now);
    ReviewRefusal(s, i, receipt, v, approve);
  }

  lemma CustomerRefusal(s: Shop, i: nat)
    requires Inv(s)
    ensures CustomerCancel(s, i).Failure? ==> CustomerCancel(s, i).error == if i < |s.orders| then NotCancellable else NotFound
  {
    CustomerCancelOutcome(s, i);
  }

  lemma AdminRefusal(s: Shop, i: nat, v: nat)
    requires Inv(s)
    ensures AdminCancel(s, i, v).Failure? ==>
              AdminCancel(s, i, v).error == if i >= |s.orders| then NotFound
                                            else if s.orders[i].status in {PendingPayment, PaymentReview} then OrderChanged else NotCancellable
  {
    AdminCancelOutcome(s, i, v);
  }

  lemma ExpiryRefusal(s: Shop, i: nat, now: int)
    requires Inv(s)
    ensures Expire(s, i, now).Failure? ==> Expire(s, i, now).error == if i < |s.orders| then NotExpired else NotFound
  {
    ExpireOutcome(s, i, now);
  }

  lemma ReviewRefusal(s: Shop, i: nat, receipt: nat, v: nat, approve: bool)
    requires Inv(s)
    ensures ReviewTransfer(s, i, receipt, v, approve).Failure? ==>
              ReviewTransfer(s, i, receipt, v, approve).error ==
                if i >= |s.orders| || s.orders[i].payMethod == MercadoPago || receipt >= |s.orders[i].receipts| then NotFound
                else if s.orders[i].receipts[receipt] == ReviewPending && s.orders[i].status in {PendingPayment, PaymentReview} then OrderChanged
                else NotReviewable
  {
    if Reviewable(s, i, receipt, v) {
      ReviewOutcome(s, i, receipt, v, approve);
    } else if i < |s.orders| && s.orders[i].status in {PendingPayment, PaymentReview} {
      PendingIsOpen(s, i);
      OpenRowsConsumed(s, i);
    }
  }

  // ---------- Manual decisions, whatever the state of the rows ----------

  /** What fulfilling a late payment comes to: the order is taken as usual, or its stock and points are taken a second time. */
  ghost predicate LateFulfilled(s: Shop, t: Shop, i: nat) {
    && i < |s.orders| && i < |t.orders| && Turn(s, t, i) && Inv(t)
    && (St.All(s.stock.reservations[i], St.Active) ==> MoneyTaken(s, t, i))
    && (St.All(s.stock.reservations[i], St.Released) ==>
          && StockTakenAgain(s.stock, t.stock, i) && PointsSettledAgain(s.loyalty, t.loyalty, i)
          && t.books == s.books && t.orders[i].status == Cancelled && t.orders[i].children == s.orders[i].children)
  }

  lemma LateOutcome(s: Shop, i: nat, v: nat)
    requires Inv(s) && FulfillLate(s, i, v).Success?
    ensures LateFulfilled(s, FulfillLate(s, i, v).value, i)
  {
    LateOk(s, i, v);
    if St.All(s.stock.reservations[i], St.Active) { LateOpenOutcome(s, i, v); }
    if St.All(s.stock.reservations[i], St.Released) { LateReleasedOutcome(s, i, v); }
  }
}
