/** What whole runs guarantee: safety in every reachable state, retries, redeliveries and refunds. */
module OrderRuns {
  import opened Wrappers
  import opened ParentStatus
  import opened Orders
  import opened OrderInvariant
  import opened OrderLaws
  import opened OrderSteps
  import C = Checkout
  import CL = CheckoutLaws
  import Le = Ledger
  import LeL = LedgerLaws
  import Lo = Loyalty
  import LoL = LoyaltyLaws
  import S = SellerOrders
  import SL = SellerOrderLaws
  import St = Stock
  import StL = StockLaws

  const EMPTY := Shop(St.Stock(map[], map[], [], []), Lo.Loyalty(map[], [], []), Le.Books([], []), [])

  /** A shop with nothing in it is where a run may start. */
  lemma EmptyIsValid()
    ensures Inv(EMPTY)
  {
  }

  /** A run: each action is admissible where it happens; failed transactions repeat the state. */
  ghost predicate Trace(states: seq<Shop>, actions: seq<Action>) {
    && |states| == |actions| + 1 && Inv(states[0])
    && forall k | 0 <= k < |actions| :: StepOf(states[k], actions[k], states[k + 1])
  }

  ghost predicate StepOf(s: Shop, a: Action, t: Shop) {
    s.Shape() && Admissible(s, a) && t == Step(s, a)
  }

  lemma LaterTrans(s: Shop, t: Shop, u: Shop)
    requires Later(s, t) && Later(t, u)
    ensures Later(s, u)
  {
  }

  /** Every state of every run is valid, and each state is later than every state before it. */
  lemma {:induction false} RunIsSafe(states: seq<Shop>, actions: seq<Action>, j: nat, k: nat)
    requires Trace(states, actions) && j <= k <= |actions|
    ensures Inv(states[j]) && Inv(states[k]) && Later(states[j], states[k])
    decreases j + k
  {
    if j < k {
      RunIsSafe(states, actions, j, k - 1);
      assert StepOf(states[k - 1], actions[k - 1], states[k]);
      StepKeepsInv(states[k - 1], actions[k - 1]);
      LaterTrans(states[j], states[k - 1], states[k]);
    } else if k > 0 {
      RunIsSafe(states, actions, j - 1, k - 1);
      assert StepOf(states[k - 1], actions[k - 1], states[k]);
      StepKeepsInv(states[k - 1], actions[k - 1]);
      TablesAreLater(states[k], states[k]);
    } else {
      TablesAreLater(states[0], states[0]);
    }
  }

  // ---------- What a valid state says ----------

  /** The status of an order says where its stock is. */
  lemma StatusTellsStock(s: Shop, i: nat)
    requires Inv(s) && i < |s.orders|
    ensures var rows, status := s.stock.reservations[i], s.orders[i].status;
            && rows != []
            && (status in {PendingPayment, PaymentReview} ==> St.All(rows, St.Active))
            && (status == Expired ==> St.All(rows, St.Released))
            && (status == Cancelled ==> !St.HasActive(rows))
            && (status !in {PendingPayment, PaymentReview, PaymentRequiresReview, Expired, Cancelled, RefundRecorded} ==> St.All(rows, St.Consumed))
            && (St.All(rows, St.Active) || St.All(rows, St.Released) || St.All(rows, St.Consumed))
  {
    assert OrderOk(s, i);
    var stage :| InStage(s, i, stage);
    assert s.stock.reservations[i][0] in s.stock.reservations[i];
  }

  lemma CreditEntry(s: Shop, e: Le.Entry)
    requires Inv(s) && e in s.books.entries && e.kind == Le.SalePending
    ensures e.seller.Some? && e.key == Le.SaleKey(e.seller.value)
  {
    assert Le.EntryOk(e, s.books.payouts);
  }

  /** No credit and no points for an order whose stock was not taken; each at most once. */
  lemma OncePerOrder(s: Shop, i: nat)
    requires Inv(s) && i < |s.orders|
    ensures (exists e <- s.books.entries :: e.kind == Le.SalePending && e.seller.Some? && e.seller.value.order == i)
              ==> St.All(s.stock.reservations[i], St.Consumed)
    ensures Lo.HasTx(s.loyalty.log, i, Lo.Earn) || Lo.HasTx(s.loyalty.log, i, Lo.Redeem) ==> St.All(s.stock.reservations[i], St.Consumed)
    ensures forall j, k | 0 <= j < k < |s.books.entries| && s.books.entries[j].kind == s.books.entries[k].kind == Le.SalePending ::
              s.books.entries[j].seller != s.books.entries[k].seller
    ensures forall j, k | 0 <= j < k < |s.loyalty.log| && s.loyalty.log[j].order == s.loyalty.log[k].order :: s.loyalty.log[j].kind != s.loyalty.log[k].kind
  {
    assert OrderOk(s, i);
    var stage :| InStage(s, i, stage);
    forall e | e in s.books.entries && e.kind == Le.SalePending ensures e.seller.Some? && e.key == Le.SaleKey(e.seller.value) {
      CreditEntry(s, e);
    }
  }

  /** Units promised or delivered never exceed the units that ever entered the shop, and counters match history. */
  lemma CountersMatchHistory(s: Shop, p: St.ProductId)
    requires Inv(s) && p in s.stock.inventory
    ensures s.stock.inventory[p].onHand == St.RecomputedOnHand(s.stock, p)
    ensures 0 <= s.stock.inventory[p].reserved == St.Total(s.stock.reservations, p, St.Active) <= s.stock.inventory[p].onHand
    ensures St.Total(s.stock.reservations, p, St.Active) + St.Total(s.stock.reservations, p, St.Consumed)
              <= s.stock.baseline[p] + St.Adjusted(s.stock.adjustments, p)
  {
    StL.NeverOversold(s.stock, p);
  }

  /** A child's entries over all buckets sum exactly to its credit minus its refunds minus a whole-order refund. */
  lemma ChildBalance(s: Shop, i: nat, j: nat)
    requires Inv(s) && i < |s.orders| && j < |s.orders[i].children| && s.orders[i].children[j].affiliate.Some?
    ensures var c := s.orders[i].children[j];
            var id := Le.SellerOrderId(i, j);
            Le.Sum(s.books.entries, Le.Where(c.affiliate.value, None, Some(id)))
              == (if Le.HasSale(s.books.entries, id) then c.net else 0) - S.Debits(c.refunds) - (if c.parentRefunded then c.net else 0)
  {
    assert OrderOk(s, i);
    assert ChildOk(s.orders[i].children[j], Le.SellerOrderId(i, j), s.books.entries);
  }

  /**
   The refunds of any child stay within its total, and once they cover its goods and its shipping the
   seller was debited the net, rounded up by less than one cent a refund.
   */
  lemma RefundsWithinChild(s: Shop, i: nat, j: nat)
    requires Inv(s) && i < |s.orders| && j < |s.orders[i].children|
    ensures var c := s.orders[i].children[j];
            && S.RefundedAmount(c.refunds) == SL.GoodsRefunded(c.refunds) + SL.ShippingRefunded(c.refunds) <= c.subtotal + c.shipping
            && (c.refunds != [] && SL.GoodsRefunded(c.refunds) == c.subtotal && SL.ShippingRefunded(c.refunds) == c.shipping ==>
                  c.net <= S.Debits(c.refunds) <= c.net + |c.refunds| - 1)
  {
    var c := s.orders[i].children[j];
    assert OrderOk(s, i);
    assert ChildOk(c, Le.SellerOrderId(i, j), s.books.entries);
    SL.DebitsRoundUp(c, c.refunds);
    if c.refunds != [] && SL.GoodsRefunded(c.refunds) == c.subtotal && SL.ShippingRefunded(c.refunds) == c.shipping {
      SL.SplitRefundBounds(c);
    }
  }

  /** What is withheld and paid out matches the payouts, and no withheld entry belongs to a seller order. */
  lemma PayoutsMatchBooks(s: Shop, a: Le.AffiliateId, id: Le.SellerOrderId)
    requires Inv(s)
    ensures Le.Sum(s.books.entries, Le.Where(a, Some(Le.Withheld), None)) == Le.InStatus(s.books.payouts, a, {Le.PayoutStatus.Requested, Le.Processing})
    ensures Le.Sum(s.books.entries, Le.Where(a, Some(Le.PaidOut), None)) == Le.InStatus(s.books.payouts, a, {Le.PayoutStatus.Paid})
    ensures Le.BalanceOf(s.books.entries, a, Le.Withheld, id) == 0
  {
    LeL.NothingWithheldForSeller(s.books, a, id);
  }

  /** Points: balance and holds match history, and a redemption is on record exactly when the order says so. */
  lemma PointsMatchHistory(s: Shop, u: Lo.UserId, i: nat)
    requires Inv(s) && i < |s.orders|
    ensures Lo.AccountOf(s.loyalty, u).balance == Lo.Points(s.loyalty.log, u) && Lo.AccountOf(s.loyalty, u).reserved == Lo.HeldFor(s.loyalty.orders, u)
    ensures forall k | 0 <= k < |s.loyalty.log| :: s.loyalty.log[k].balanceAfter == Lo.Points(s.loyalty.log[..k + 1], s.loyalty.log[k].user)
    ensures Lo.HasTx(s.loyalty.log, i, Lo.Redeem) <==> s.loyalty.orders[i].status in {Lo.Redeemed, Lo.Restored}
    ensures Lo.Net(s.loyalty.log, i) == if Lo.PhaseOf(s.loyalty, i) == Lo.Settled then s.loyalty.orders[i].earned - s.loyalty.orders[i].redeemed else 0
  {
    LoL.RedeemRecordedIff(s.loyalty, i);
    LoL.NetOfOrder(s.loyalty, i);
    forall k | 0 <= k < |s.loyalty.log| ensures s.loyalty.log[k].balanceAfter == Lo.Points(s.loyalty.log[..k + 1], s.loyalty.log[k].user) {
      assert Lo.TxOk(s.loyalty, k);
    }
  }

  // ---------- Retried submissions ----------

  lemma PreviousIs(orders: seq<Order>, n: nat)
    requires KeysUnique(orders) && n < |orders|
    ensures Previous(orders, orders[n].user, orders[n].key) == Some(n)
  {
  }

  /** Submitting again with the same user, key and body, at any later time, answers with the first order and changes nothing. */
  lemma RetryReturnsFirst(s: Shop, c: C.Catalog, r: C.Request, p: Placement, later: Shop, c': C.Catalog, r': C.Request, p': Placement)
    requires Inv(s) && Place(s, c, r, p).Success? && Inv(later) && Later(Place(s, c, r, p).value.0, later)
    requires r'.user == r.user && p'.key == p.key
    ensures var (t, n) := Place(s, c, r, p).value;
            Place(later, c', r', p') == if p'.hash == p.hash then Success((later, n)) else Failure(IdempotencyKeyReused)
  {
    PlaceActionOk(s, c, r, p);
    var (t, n) := Place(s, c, r, p).value;
    assert SameIdentity(t.orders[n], later.orders[n]);
    PreviousIs(later.orders, n);
  }

  lemma RecordNeedsDistinct(s: Shop, q: C.Quote, user: Lo.UserId, p: Placement, amount: Option<int>, j: nat, k: nat)
    requires q.loyalty.pointsToEarn >= 0 && j < k < |q.lines| && q.lines[j].item.product == q.lines[k].item.product
    ensures Record(s, q, user, p, amount).Failure?
  {
  }

  /** A basket that lists one product twice never becomes an order. */
  lemma DuplicateProductNeverCommits(s: Shop, c: C.Catalog, r: C.Request, p: Placement, j: nat, k: nat)
    requires j < k < |r.items| && r.items[j].product == r.items[k].product
    ensures CreateOrder(s, c, r, p).Failure?
  {
    var account := Lo.AccountOf(s.loyalty, r.user);
    var quote := C.Calculate(c, s.stock.inventory, account, r);
    if quote.Success? {
      CL.QuoteChildren(c, s.stock.inventory, account, r);
      CL.LineProducts(c, s.stock.inventory, account, r);
      var amount := ProviderAmount(p, quote.value.total);
      if amount.Success? { RecordNeedsDistinct(s, quote.value, r.user, p, amount.value, j, k); }
    }
  }

  // ---------- Child steps and the parent ----------

  /** After every child step the order's status is the one the consistency report expects. */
  lemma ChildStepReconciles(s: Shop, i: nat, j: nat, op: ChildOp, restock: seq<St.Line>)
    requires Inv(s) && Admissible(s, AChild(i, j, op, restock)) && Child(s, i, j, op, restock).Success?
    ensures var o := Child(s, i, j, op, restock).value.orders[i]; Expected(Statuses(o.children)) == Some(o.status)
  {
    ChildKeepsInv(s, i, j, op, restock);
  }

  // ---------- Late payments ----------

  /**
   Accepting a late payment sets the order paid, but the reconciliation at its end decides: an order
   whose rows were still reserved ends paid, an order given up before ends cancelled although its
   stock is taken and its points settle.
   */
  lemma LateFulfilmentStatus(s: Shop, i: nat, v: nat)
    requires Inv(s) && FulfillLate(s, i, v).Success?
    ensures var t := FulfillLate(s, i, v).value;
            && St.All(t.stock.reservations[i], St.Consumed)
            && (InStage(s, i, Open) ==> t.orders[i].status == Paid)
            && (InStage(s, i, Released) ==> t.orders[i].status == Cancelled)
            && (InStage(s, i, Taken) ==> Next(Statuses(s.orders[i].children)) == Some(t.orders[i].status))
  {
    LateAccepted(s, i, v);
    var t := FulfillLate(s, i, v).value;
    AccreditedStatuses(s.orders[i].children, t.orders[i].children);
    StageOfChildren(s, i);
  }

  lemma StageOfChildren(s: Shop, i: nat)
    requires s.Shape() && i < |s.orders|
    ensures InStage(s, i, Open) ==> forall c <- s.orders[i].children :: c.status == S.PendingPayment
    ensures InStage(s, i, Released) ==> forall c <- s.orders[i].children :: c.status in {S.Cancelled, S.Refunded}
    ensures InStage(s, i, Taken) ==> forall c <- s.orders[i].children :: c.status != S.PendingPayment
  {
  }

  lemma LateAccepted(s: Shop, i: nat, v: nat)
    requires Inv(s) && FulfillLate(s, i, v).Success?
    ensures var t := FulfillLate(s, i, v).value;
            && |t.stock.reservations| == |t.orders| == |s.orders| && St.All(t.stock.reservations[i], St.Consumed)
            && Next(Statuses(t.orders[i].children)) == Some(t.orders[i].status)
            && |t.orders[i].children| == |s.orders[i].children| > 0
            && (forall k | 0 <= k < |s.orders[i].children| :: t.orders[i].children[k] == Row(Accredit, s.orders[i].children[k]))
  {
    assert OrderOk(s, i);
    var stage :| InStage(s, i, stage);
    LateRowsConsumed(s, i, stage);
    AcceptKeepsInv(s, i, WithStatus(s.orders[i], Paid), St.FulfillLateOrder(s.stock, i).value);
  }

  lemma AccreditedStatuses(before: seq<S.SellerOrder>, after: seq<S.SellerOrder>)
    requires |after| == |before| > 0 && forall k | 0 <= k < |before| :: after[k] == Row(Accredit, before[k])
    ensures (forall c <- before :: c.status == S.PendingPayment) ==> Next(Statuses(after)) == Some(Paid)
    ensures (forall c <- before :: c.status in {S.Cancelled, S.Refunded}) ==> Next(Statuses(after)) == Some(Cancelled)
    ensures (forall c <- before :: c.status != S.PendingPayment) ==> after == before
  {
    assert forall k | 0 <= k < |before| :: before[k] in before;
    assert Statuses(after)[0] in Statuses(after);
  }
}
