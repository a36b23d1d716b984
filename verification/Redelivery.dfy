/** Provider events: delivered again, mismatching, and when they move stock. */
module Redelivery {
  import opened Wrappers
  import opened ParentStatus
  import opened Orders
  import opened OrderInvariant
  import opened OrderLaws
  import opened OrderSteps
  import opened OrderRuns
  import opened ProviderEvents
  import D = Decimal
  import Le = Ledger
  import Lo = Loyalty
  import LoL = LoyaltyLaws
  import S = SellerOrders
  import St = Stock
  import StL = StockLaws

  // ---------- Operations that find nothing to do ----------

  lemma ReleaseAgain(s: St.Stock, i: nat)
    requires St.Inv(s) && i < |s.reservations| && !St.HasActive(s.reservations[i])
    ensures St.ReleaseOrder(s, i) == Success(s)
  {
    var rows := s.reservations[i];
    StL.CoveredByInv(s, i, St.Release);
    forall r | r in rows ensures r.Standing() != St.Active {}
    forall p | p in s.inventory ensures St.Counters(s.inventory, rows, St.Release)[p] == s.inventory[p] {
      StL.NoneStanding(rows, p, St.Active);
    }
    assert St.Counters(s.inventory, rows, St.Release) == s.inventory;
    assert St.MarkAll(rows, St.Release) == rows by {
      forall k | 0 <= k < |rows| ensures St.Mark(rows[k], St.Release) == rows[k] { assert rows[k] in rows; }
    }
    assert s.reservations[i := rows] == s.reservations;
  }

  lemma ReverseAgain(l: Lo.Loyalty, i: nat)
    requires Lo.Inv(l) && i < |l.orders| && l.orders[i].status != Lo.Held && Lo.PhaseOf(l, i) != Lo.Settled && l.orders[i].user in l.accounts
    ensures Lo.Release(l, i) == Success(l) && Lo.Reverse(l, i) == l
  {
    LoL.ReverseKeepsInv(l, i);
    assert l.accounts[l.orders[i].user := l.accounts[l.orders[i].user]] == l.accounts;
  }

  lemma {:induction false} RefundAgain(i: nat, f: Family, n: nat)
    requires n <= |f.children| && forall c <- f.children :: c.status in {S.Cancelled, S.Refunded}
    ensures Each(RefundAll, i, f, n) == f
  {
    if n > 0 {
      RefundAgain(i, f, n - 1);
      assert f.children[n - 1] in f.children;
      assert f.children[n - 1 := f.children[n - 1]] == f.children;
    }
  }

  lemma SameOrder(s: Shop, i: nat, o: Order)
    requires i < |s.orders| && o == s.orders[i]
    ensures s.(orders := s.orders[i := o]) == s
  {
  }

  // ---------- One event delivered twice ----------

  /** What a refund event leaves: nothing active, no points held or settled, every child closed. */
  ghost predicate RefundDone(t: Shop, i: nat)
    requires t.Shape() && i < |t.orders|
  {
    && !St.HasActive(t.stock.reservations[i]) && ChildrenClosed(t.orders[i]) && t.orders[i].status == RefundRecorded
    && t.loyalty.orders[i].status != Lo.Held && Lo.PhaseOf(t.loyalty, i) != Lo.Settled && t.loyalty.orders[i].user in t.loyalty.accounts
  }

  lemma PointsAfterRefund(l: Lo.Loyalty, i: nat, stage: Stage)
    requires Lo.Inv(l) && i < |l.orders| && PointsFit(l, i, stage)
    ensures Lo.Release(l, i).Success?
    ensures var m := Lo.Reverse(Lo.Release(l, i).value, i);
            |m.orders| == |l.orders| && m.orders[i].status != Lo.Held && Lo.PhaseOf(m, i) != Lo.Settled && m.orders[i].user in m.accounts
  {
    LoL.ReleaseKeepsInv(l, i);
    var r := Lo.Release(l, i).value;
    assert Lo.OrderOk(l, i);
    LoL.ReverseKeepsInv(r, i);
    RefundPoints(l, i, stage);
    assert Lo.OrderOk(Lo.Reverse(r, i), i);
  }

  lemma RefundEventDone(s: Shop, i: nat, o: Order)
    requires Inv(s) && i < |s.orders| && o == s.orders[i].(payment := o.payment)
    ensures ProviderRefunded(s, i, o).Success?
    ensures var t := ProviderRefunded(s, i, o).value;
            Turn(s, t, i) && Inv(t) && RefundDone(t, i) && t.orders[i].payment == o.payment
  {
    ProviderRefundKeepsInv(s, i, o);
    var t := ProviderRefunded(s, i, o).value;
    assert OrderOk(s, i);
    var stage :| InStage(s, i, stage);
    PointsAfterRefund(s.loyalty, i, stage);
    if InStage(t, i, Released) {} else { assert InStage(t, i, Taken); }
  }

  lemma RefundEventAgain(t: Shop, i: nat)
    requires Inv(t) && i < |t.orders| && RefundDone(t, i)
    ensures ProviderRefunded(t, i, t.orders[i]) == Success(t)
  {
    ReleaseAgain(t.stock, i);
    ReverseAgain(t.loyalty, i);
    RefundAgain(i, Family(t.orders[i].children, t.books.entries), |t.orders[i].children|);
    var o := t.orders[i];
    assert o.(children := o.children) == o;
    SameOrder(t, i, o);
  }

  /** An open order that is accepted ends paid. */
  lemma AcceptedStatus(s: Shop, i: nat, o: Order)
    requires Inv(s) && i < |s.orders| && InStage(s, i, Open) && SameIdentity(s.orders[i], o) && o.children == s.orders[i].children && o.status == Paid
    ensures var r := Accept(s, i, o, St.AfterPass(s.stock, i, St.Consume));
            r.Success? && r.value.Shape() && r.value.orders[i].status == Paid && r.value.orders[i].payment == o.payment
            && r.value.orders[i].expiresAt == o.expiresAt
  {
    OpenPointsSettle(s, i);
    OpenRowsConsumed(s, i);
    AcceptKeepsInv(s, i, o, St.AfterPass(s.stock, i, St.Consume));
    assert OrderOk(s, i);
    var t := Accept(s, i, o, St.AfterPass(s.stock, i, St.Consume)).value;
    AccreditedStatuses(o.children, t.orders[i].children);
  }

  /** An approval at this moment finds the order given up or its payment window closed. */
  predicate Late(o: Order, now: int) {
    o.status in {Expired, Cancelled} || o.expiresAt.None? || o.expiresAt.value <= now
  }

  const EXEMPT := {Paid, Completed, RefundRecorded, PaymentRequiresReview}

  /** The window closed between two deliveries of an approval for an order in fulfilment. */
  predicate ClosedBetween(o: Order, now: int, later: int) {
    !Late(o, now) && Late(o, later) && o.status !in EXEMPT + {PendingPayment, PaymentReview}
  }

  function Demoted(t: Shop, i: nat): Shop
    requires i < |t.orders|
  {
    t.(orders := t.orders[i := t.orders[i].(status := PaymentRequiresReview, version := t.orders[i].version + 1)])
  }

  /** What a second delivery of an event that left `t` does. */
  ghost predicate SecondTime(o: Order, t: Shop, i: nat, again: Result<Shop, Error>, now: int, later: int)
    requires i < |t.orders|
  {
    again == Success(if o.payment == Approved && ClosedBetween(o, now, later) then Demoted(t, i) else t)
  }

  lemma AcceptedTwice(s: Shop, i: nat, o: Order, now: int, later: int)
    requires Inv(s) && i < |s.orders| && o == s.orders[i].(payment := Approved) && o.payMethod == MercadoPago && now <= later
    requires !Late(o, now) && IsPaymentPending(o.status) && St.ValidForApproval(s.stock.reservations[i], now)
    ensures var r := ProviderApproved(s, i, o, now);
            && r.Success? && r.value.Shape() && i < |r.value.orders| && r.value.orders[i].payment == Approved
            && ProviderApproved(r.value, i, r.value.orders[i], later) == r
  {
    PendingIsOpen(s, i);
    OpenRowsConsumed(s, i);
    AcceptedStatus(s, i, WithStatus(o, Paid));
    var t := ProviderApproved(s, i, o, now).value;
    assert t.orders[i].status == Paid;
    SameOrder(t, i, t.orders[i]);
  }

  lemma ApprovedTwice(s: Shop, i: nat, o: Order, now: int, later: int)
    requires Inv(s) && i < |s.orders| && o == s.orders[i].(payment := Approved) && o.payMethod == MercadoPago && now <= later
    ensures var r := ProviderApproved(s, i, o, now);
            && r.Success? && r.value.Shape() && i < |r.value.orders| && r.value.orders[i].payment == Approved
            && SecondTime(o, r.value, i, ProviderApproved(r.value, i, r.value.orders[i], later), now, later)
  {
    if !Late(o, now) && IsPaymentPending(o.status) && St.ValidForApproval(s.stock.reservations[i], now) {
      AcceptedTwice(s, i, o, now, later);
    } else {
      var t := ProviderApproved(s, i, o, now).value;
      SameOrder(t, i, t.orders[i]);
    }
  }

  lemma FailedTwice(s: Shop, i: nat, o: Order, now: int)
    requires Inv(s) && i < |s.orders| && o == s.orders[i].(payment := Failed) && IsPaymentPending(o.status)
    ensures var r := GiveUp(s, i, WithStatus(o, Expired), false);
            && r.Success? && r.value.Shape() && i < |r.value.orders| && r.value.orders[i].payment == Failed
            && ApplyStatus(r.value, i, r.value.orders[i], true, now) == r
  {
    PendingIsOpen(s, i);
    GiveUpKeepsInv(s, i, WithStatus(o, Expired), false);
    var t := GiveUp(s, i, WithStatus(o, Expired), false).value;
    SameOrder(t, i, t.orders[i]);
  }

  lemma MappedTwice(s: Shop, i: nat, o: Order, terminal: bool, now: int, later: int)
    requires Inv(s) && i < |s.orders| && o == s.orders[i].(payment := o.payment) && o.payMethod == MercadoPago && now <= later
    ensures var r := ApplyStatus(s, i, o, terminal, now);
            && r.Success? && r.value.Shape() && i < |r.value.orders| && r.value.orders[i].payment == o.payment
            && SecondTime(o, r.value, i, ApplyStatus(r.value, i, r.value.orders[i], terminal, later), now, later)
  {
    if o.payment == Approved {
      ApprovedTwice(s, i, o, now, later);
    } else if o.payment == Refunded {
      RefundEventDone(s, i, o);
      RefundEventAgain(ProviderRefunded(s, i, o).value, i);
    } else if o.payment == Failed && terminal && IsPaymentPending(o.status) {
      FailedTwice(s, i, o, later);
    } else {
      var t := ApplyStatus(s, i, o, terminal, now).value;
      SameOrder(t, i, t.orders[i]);
    }
  }

  function Mapped(o: Order, st: ProviderState, collector: Option<string>): PaymentStatus {
    StatusForProvider(st, ExpectedAmount(o), o.number, collector)
  }

  /**
   Delivering the same event again at any later time, as after a crash between the commit and the mark,
   changes nothing, except in one family: an approval for an order in fulfilment whose payment window
   closed between the two deliveries.  Then it sends the order row, and nothing else, to payment review.
   */
  lemma ProviderEventIdempotentIff(s: Shop, i: nat, st: ProviderState, collector: Option<string>, now: int, later: int)
    requires Inv(s) && i < |s.orders| && s.orders[i].payMethod == MercadoPago && now <= later
    ensures var r := Provider(s, i, st, collector, now);
            && r.Success? && Inv(r.value) && i < |r.value.orders|
            && var again := Provider(r.value, i, st, collector, later);
            var closed := IsApproval(s.orders[i], st, collector) && ClosedBetween(s.orders[i], now, later);
            && (again == r <==> !closed) && (closed ==> again == Success(Demoted(r.value, i)))
  {
    ProviderOk(s, i, st, collector, now);
    PaymentColumnIff(s.orders[i], st, collector);
    var mapped := Mapped(s.orders[i], st, collector);
    var o := s.orders[i].(payment := mapped);
    MappedTwice(s, i, o, st.terminal, now, later);
    var t := Provider(s, i, st, collector, now).value;
    assert SameIdentity(s.orders[i], t.orders[i]);
    assert t.orders[i].(payment := mapped) == t.orders[i];
    if mapped == Approved && ClosedBetween(s.orders[i], now, later) { assert t.orders[i].status == o.status; }
  }

  /** A run that does nothing but deliver one event, at times that never go back. */
  ghost predicate SameEvent(actions: seq<Action>, i: nat, st: ProviderState, collector: Option<string>) {
    && (forall a <- actions :: a.AProvider? && a.order == i && a.state == st && a.collector == collector)
    && (forall j, k | 0 <= j <= k < |actions| && actions[j].AProvider? && actions[k].AProvider? :: actions[j].now <= actions[k].now)
  }

  lemma DemotedStays(t: Shop, i: nat, st: ProviderState, collector: Option<string>, later: int)
    requires t.Shape() && i < |t.orders| && t.orders[i].payMethod == MercadoPago && t.orders[i].payment == Approved
    requires t.orders[i].status == PaymentRequiresReview && IsApproval(t.orders[i], st, collector)
    ensures Provider(t, i, st, collector, later) == Success(t)
  {
    PaymentColumnIff(t.orders[i], st, collector);
    assert t.orders[i].(payment := Approved) == t.orders[i];
    SameOrder(t, i, t.orders[i]);
  }

  /** A row that an approval demoted is the same after any further delivery. */
  lemma DeliveredAfterDemotion(s: Shop, i: nat, st: ProviderState, collector: Option<string>, now: int, later: int, last: int)
    requires Inv(s) && i < |s.orders| && s.orders[i].payMethod == MercadoPago && now <= later
    requires IsApproval(s.orders[i], st, collector) && ClosedBetween(s.orders[i], now, later)
    ensures var r := Provider(s, i, st, collector, now);
            && r.Success? && i < |r.value.orders| && Demoted(r.value, i).Shape()
            && Provider(Demoted(r.value, i), i, st, collector, last) == Success(Demoted(r.value, i))
  {
    ProviderEventIdempotentIff(s, i, st, collector, now, later);
    ProviderOk(s, i, st, collector, now);
    PaymentColumnIff(s.orders[i], st, collector);
    DemotedStays(Demoted(Provider(s, i, st, collector, now).value, i), i, st, collector, last);
  }

  /**
   At-least-once delivery acts once: however often one event is delivered in a row, every later state is
   the one its first delivery left, but for the order row sent to payment review if its window closed.
   */
  lemma {:induction false} RedeliveriesActOnce(states: seq<Shop>, actions: seq<Action>, i: nat, st: ProviderState, collector: Option<string>, k: nat)
    requires Trace(states, actions) && SameEvent(actions, i, st, collector) && 1 <= k <= |actions|
    requires i < |states[0].orders| && states[0].orders[i].payMethod == MercadoPago
    ensures i < |states[1].orders| && actions[0] in actions && actions[k - 1] in actions
    ensures states[k] == if IsApproval(states[0].orders[i], st, collector) && ClosedBetween(states[0].orders[i], actions[0].now, actions[k - 1].now)
                         then Demoted(states[1], i) else states[1]
  {
    var s, now, later := states[0], actions[0].now, actions[k - 1].now;
    assert actions[0] in actions && actions[k - 1] in actions;
    assert StepOf(states[0], actions[0], states[1]) && StepOf(states[k - 1], actions[k - 1], states[k]);
    ProviderEventIdempotentIff(s, i, st, collector, now, later);
    if k > 1 {
      RedeliveriesActOnce(states, actions, i, st, collector, k - 1);
      if IsApproval(s.orders[i], st, collector) && ClosedBetween(s.orders[i], now, actions[k - 2].now) {
        DeliveredAfterDemotion(s, i, st, collector, now, actions[k - 2].now, later);
      }
    }
  }

  // An order in fulfilment whose payment window closes at time 10, and the approval that paid for it.
  const SHIPPED_CHILD := S.SellerOrder(None, S.Shipped, 3, 100, 0, 0, 100, S.Shipment, None, [], [], [], false)
  const SHIPPED_ORDER := Order(0, "A", "key", "hash", InFulfillment, 4, Some(10), MercadoPago, Approved, 100, Some(100), false, [], [SHIPPED_CHILD])
  const SHIPPED_STOCK := St.Stock(map[0 := St.Inventory(0, 0, 2)], map[0 := 1], [], [[St.Reservation(0, 1, 10, false, true)]])
  const SHIPPED_SHOP := Shop(SHIPPED_STOCK, Lo.Loyalty(map[], [], [Lo.OrderPoints(0, 0, 0, Lo.NoPoints)]), Le.Books([], []), [SHIPPED_ORDER])
  const APPROVAL := ProviderState("A", 100, "ARS", None, "approved", true, false, true, 0, false, "ARS")

  lemma ShippedPointsOk()
    ensures Lo.Inv(SHIPPED_SHOP.loyalty)
  {
    assert SHIPPED_SHOP.loyalty.orders[..0] == [] && forall u :: Lo.HeldFor(SHIPPED_SHOP.loyalty.orders, u) == 0;
  }

  lemma ShippedStockOk()
    ensures St.Inv(SHIPPED_STOCK)
  {
  }

  lemma ShippedIsTaken()
    ensures SHIPPED_SHOP.Shape() && InStage(SHIPPED_SHOP, 0, Taken)
  {
  }

  lemma ShippedLedgerOk()
    ensures LedgerOk(SHIPPED_SHOP)
  {
  }

  /** A shop with one order and one child that went through nothing but plain transitions. */
  lemma OneOrderShopOk(s: Shop, stage: Stage)
    requires s.Shape() && |s.orders| == 1 && |s.orders[0].children| == 1 && InStage(s, 0, stage)
    requires St.Inv(s.stock) && Lo.Inv(s.loyalty) && LedgerOk(s) && s.books.entries == []
    requires s.stock.reservations[0] != [] && s.loyalty.orders[0].user == s.orders[0].user
    requires var c := s.orders[0].children[0];
             S.AmountsOk(c) && S.Fits(c.status, c.fulfillment) && c.issues == [] && c.requests == [] && c.refunds == [] && !c.parentRefunded
    ensures Inv(s)
  {
    UntouchedChildOk(s.orders[0].children[0], Le.SellerOrderId(0, 0), []);
    StageMakesOk(s, 0, stage);
  }

  lemma ShippedShopOk()
    ensures Inv(SHIPPED_SHOP)
  {
    ShippedStockOk();
    ShippedPointsOk();
    ShippedLedgerOk();
    ShippedIsTaken();
    OneOrderShopOk(SHIPPED_SHOP, Taken);
  }

  /** A failing input: delivered at time 5 the approval changes nothing, delivered at time 10 it demotes the order. */
  lemma RedeliveryCanDemote()
    ensures Inv(SHIPPED_SHOP) && Provider(SHIPPED_SHOP, 0, APPROVAL, None, 5) == Success(SHIPPED_SHOP)
    ensures Provider(SHIPPED_SHOP, 0, APPROVAL, None, 10) == Success(SHIPPED_SHOP.(orders := [SHIPPED_ORDER.(status := PaymentRequiresReview, version := 5)]))
  {
    ShippedShopOk();
    SameOrder(SHIPPED_SHOP, 0, SHIPPED_ORDER);
    assert [SHIPPED_ORDER][0 := MoveToPaymentReview(SHIPPED_ORDER)] == [SHIPPED_ORDER.(status := PaymentRequiresReview, version := 5)];
  }

  /**
   An approval delivered again after the window closed: it never touches stock, money or points, but it
   sends an order in fulfilment back to payment review unless its status is one of the four exempt ones.
   */
  lemma LateApprovalDemotesIff(s: Shop, i: nat, st: ProviderState, collector: Option<string>, now: int)
    requires Inv(s) && i < |s.orders| && s.orders[i].payMethod == MercadoPago && InStage(s, i, Taken)
    requires IsApproval(s.orders[i], st, collector)
    ensures var r := Provider(s, i, st, collector, now);
            var o := s.orders[i];
            && r.Success? && r.value == s.(orders := s.orders[i := r.value.orders[i]])
            && (r.value.orders[i].status != o.status <==> Late(o, now) && o.status !in EXEMPT)
            && (r.value.orders[i].status != o.status ==> r.value.orders[i].status == PaymentRequiresReview)
  {
    PaymentColumnIff(s.orders[i], st, collector);
    ProviderOk(s, i, st, collector, now);
  }

  /** Accepting the late payment then puts the order back where its children say it is, and takes no stock again. */
  lemma FulfilmentUndoesDemotion(s: Shop, i: nat, v: nat)
    requires Inv(s) && i < |s.orders| && InStage(s, i, Taken) && FulfillLate(s, i, v).Success?
    ensures var t := FulfillLate(s, i, v).value;
            && t.stock == s.stock && t.orders[i].children == s.orders[i].children
            && Next(Statuses(s.orders[i].children)) == Some(t.orders[i].status)
  {
    LateAccepted(s, i, v);
    StageOfChildren(s, i);
    AccreditedStatuses(s.orders[i].children, FulfillLate(s, i, v).value.orders[i].children);
    LateTakesStock(s, i, v);
    NothingLeftToTake(s.stock, i);
  }

  lemma LateTakesStock(s: Shop, i: nat, v: nat)
    requires s.Shape() && FulfillLate(s, i, v).Success?
    ensures FulfillLate(s, i, v).value.stock == St.AfterPass(s.stock, i, St.Late)
  {
  }

  lemma NothingLeftToTake(s: St.Stock, i: nat)
    requires St.Inv(s) && i < |s.reservations| && St.All(s.reservations[i], St.Consumed)
    ensures St.AfterPass(s, i, St.Late) == s
  {
    var rows := s.reservations[i];
    RowsAfter(rows, St.Late, St.Consumed);
    forall p | p in s.inventory ensures St.Counters(s.inventory, rows, St.Late)[p] == s.inventory[p] {
      StL.NoneStanding(rows, p, St.Active);
      StL.NoneStanding(rows, p, St.Released);
    }
    assert St.Counters(s.inventory, rows, St.Late) == s.inventory;
    assert s.reservations[i := rows] == s.reservations;
  }

  // ---------- Mismatching events ----------

  /**
   An event whose amount, currency, reference or collector is not the order's own never moves stock,
   points or money: it can only send the order to payment review.
   */
  lemma MismatchOnlyAsksForReview(s: Shop, i: nat, st: ProviderState, collector: Option<string>, now: int)
    requires Inv(s) && i < |s.orders| && s.orders[i].payMethod == MercadoPago && !AsExpected(s.orders[i], st, collector)
    ensures Provider(s, i, st, collector, now) ==
              Success(s.(orders := s.orders[i := MoveToPaymentReview(s.orders[i].(payment := RequiresReview))]))
  {
    PaymentColumnIff(s.orders[i], st, collector);
  }

  /** When an event moves stock: an approval in time, a final failure before payment, or a refund with rows still reserved. */
  predicate MovesStock(o: Order, rows: seq<St.Reservation>, st: ProviderState, collector: Option<string>, now: int) {
    || (IsApproval(o, st, collector) && !Late(o, now) && o.status in {PendingPayment, PaymentReview}
        && rows != [] && (forall r <- rows :: !r.released && !r.consumed && r.expiresAt > now))
    || (IsFailure(o, st, collector) && o.status in {PendingPayment, PaymentReview})
    || (IsRefund(o, st, collector) && St.HasActive(rows))
  }

  lemma GivingUpMovesStock(s: Shop, i: nat, o: Order)
    requires Inv(s) && i < |s.orders| && InStage(s, i, Open) && SameIdentity(s.orders[i], o) && o.children == s.orders[i].children && o.status == Expired
    ensures GiveUp(s, i, o, false).Success? && GiveUp(s, i, o, false).value.stock != s.stock
  {
    GiveUpKeepsInv(s, i, o, false);
    assert OrderOk(s, i);
    assert s.stock.reservations[i][0] in s.stock.reservations[i];
    var rows := GiveUp(s, i, o, false).value.stock.reservations[i];
    assert |rows| > 0 ==> rows[0] in rows;
  }

  lemma AcceptingMovesStock(s: Shop, i: nat)
    requires Inv(s) && i < |s.orders| && InStage(s, i, Open)
    ensures St.AfterPass(s.stock, i, St.Consume) != s.stock
  {
    OpenRowsConsumed(s, i);
    var rows := St.AfterPass(s.stock, i, St.Consume).reservations[i];
    assert rows[0] in rows;
  }

  lemma RefundingMovesStockIff(s: Shop, i: nat, o: Order)
    requires Inv(s) && i < |s.orders| && o == s.orders[i].(payment := o.payment)
    ensures ProviderRefunded(s, i, o).Success?
    ensures ProviderRefunded(s, i, o).value.stock != s.stock <==> St.HasActive(s.stock.reservations[i])
  {
    RefundEventDone(s, i, o);
    if !St.HasActive(s.stock.reservations[i]) { ReleaseAgain(s.stock, i); }
  }

  lemma ApprovingMovesStockIff(s: Shop, i: nat, o: Order, now: int)
    requires Inv(s) && i < |s.orders| && o == s.orders[i].(payment := Approved) && o.payMethod == MercadoPago
    ensures ProviderApproved(s, i, o, now).Success?
    ensures ProviderApproved(s, i, o, now).value.stock != s.stock <==>
              !Late(o, now) && IsPaymentPending(o.status) && St.ValidForApproval(s.stock.reservations[i], now)
  {
    ApprovedOk(s, i, o, now);
    if IsPaymentPending(o.status) {
      PendingIsOpen(s, i);
      OpenRowsConsumed(s, i);
      AcceptingMovesStock(s, i);
    }
  }

  /** The exact condition for an event to move stock; every such event carries the order's own amount, currency, reference and collector. */
  lemma ProviderMovesStockIff(s: Shop, i: nat, st: ProviderState, collector: Option<string>, now: int)
    requires Inv(s) && i < |s.orders| && s.orders[i].payMethod == MercadoPago
    ensures var r := Provider(s, i, st, collector, now);
            && r.Success?
            && (r.value.stock != s.stock <==> MovesStock(s.orders[i], s.stock.reservations[i], st, collector, now))
            && (r.value.stock != s.stock ==> AsExpected(s.orders[i], st, collector))
  {
    PaymentColumnIff(s.orders[i], st, collector);
    if !AsExpected(s.orders[i], st, collector) {
      MismatchOnlyAsksForReview(s, i, st, collector, now);
      return;
    }
    var o := s.orders[i].(payment := Mapped(s.orders[i], st, collector));
    assert Provider(s, i, st, collector, now) == ApplyStatus(s, i, o, st.terminal, now);
    match o.payment
    case Approved => ApprovingMovesStockIff(s, i, o, now);
    case Refunded => RefundingMovesStockIff(s, i, o);
    case Failed =>
      if st.terminal && IsPaymentPending(o.status) {
        PendingIsOpen(s, i);
        GivingUpMovesStock(s, i, WithStatus(o, Expired));
      }
    case _ =>
  }

  /** The amount the provider was asked to charge, echoed back as text, is the expected amount. */
  lemma EchoIsExpected(o: Order, st: ProviderState, text: string)
    requires ExpectedAmount(o) >= 0 && D.ProviderAmountDecimal(ExpectedAmount(o)) == Success(text) && st.amount == D.ProviderAmountToMinor(text)
    ensures st.amount == ExpectedAmount(o)
  {
    D.AmountRoundTrip(ExpectedAmount(o));
  }
}
