/** Stock left reserved by a full refund that the back office records before the stock is taken. */
module StockLeaks {
  import opened Orders
  import opened OrderInvariant
  import opened OrderLaws
  import opened OrderSteps
  import opened OrderRuns
  import opened ParentStatus
  import opened ProviderEvents
  import opened Redelivery
  import Le = Ledger
  import S = SellerOrders
  import St = Stock

  lemma LeakedStays(s: Shop, t: Shop, i: nat)
    requires Inv(s) && Inv(t) && i < |s.orders| <= |t.orders| && InStage(s, i, Leaked)
    requires t.orders[i].status == RefundRecorded && t.stock.reservations[i] == s.stock.reservations[i]
    ensures InStage(t, i, Leaked)
  {
    assert OrderOk(s, i) && OrderOk(t, i);
    var stage :| InStage(t, i, stage);
    assert s.stock.reservations[i][0] in s.stock.reservations[i];
  }

  predicate IsRefundEvent(s: Shop, i: nat, a: Action) {
    a.AProvider? && a.order == i && i < |s.orders| && IsRefund(s.orders[i], a.state, a.collector)
  }

  lemma LeakedOrderStuck(s: Shop, i: nat, a: Action)
    requires Inv(s) && Admissible(s, a) && i < |s.orders| && InStage(s, i, Leaked) && OnOneOrder(a) && a.order == i && !IsRefundEvent(s, i, a)
    ensures var t := Step(s, a); |t.orders| == |s.orders| && t.stock == s.stock && t.Shape() && t.orders[i].status == RefundRecorded
  {
    var o := s.orders[i];
    if a.AProvider? { PaymentColumnIff(o, a.state, a.collector); }
    if a.AChild? && a.child < |o.children| {
      assert o.children[a.child] in o.children;
      ClosedChildStops(S.Sale(o.children[a.child], s.books.entries), Le.SellerOrderId(i, a.child), a.op, o.payment);
    }
  }

  /** Nothing but a provider's own refund event for that order takes it out of the leaked stage. */
  lemma LeakStep(s: Shop, i: nat, a: Action)
    requires Inv(s) && Admissible(s, a) && i < |s.orders| && InStage(s, i, Leaked) && !IsRefundEvent(s, i, a)
    ensures Inv(Step(s, a)) && i < |Step(s, a).orders| && InStage(Step(s, a), i, Leaked)
  {
    StepKeepsInv(s, a);
    if OnOneOrder(a) && a.order == i { LeakedOrderStuck(s, i, a); } else { OthersLeaveAlone(s, i, a); }
    LeakedStays(s, Step(s, a), i);
  }

  lemma RefundEventReleases(s: Shop, i: nat, a: Action)
    requires Inv(s) && IsRefundEvent(s, i, a) && s.orders[i].payMethod == MercadoPago
    ensures Step(s, a).Shape() && i < |Step(s, a).orders| && !St.HasActive(Step(s, a).stock.reservations[i])
  {
    PaymentColumnIff(s.orders[i], a.state, a.collector);
    RefundEventDone(s, i, s.orders[i].(payment := Refunded));
  }

  lemma NeverActiveAgain(s: Shop, t: Shop, i: nat)
    requires Later(s, t) && i < |s.orders| && !St.HasActive(s.stock.reservations[i])
    ensures !St.HasActive(t.stock.reservations[i])
  {
    forall r | r in t.stock.reservations[i] ensures r.Standing() != St.Active {
      var k :| 0 <= k < |t.stock.reservations[i]| && t.stock.reservations[i][k] == r;
      assert s.stock.reservations[i][k] in s.stock.reservations[i];
    }
  }

  lemma LeakStepIff(s: Shop, i: nat, a: Action)
    requires Inv(s) && Admissible(s, a) && i < |s.orders|
    requires St.HasActive(s.stock.reservations[i]) <==> InStage(s, i, Leaked)
    ensures var t := Step(s, a);
            && t.Shape() && i < |t.orders| && (InStage(t, i, Leaked) <==> InStage(s, i, Leaked) && !IsRefundEvent(s, i, a))
            && (St.HasActive(t.stock.reservations[i]) <==> InStage(t, i, Leaked))
  {
    StepKeepsInv(s, a);
    LeakedIsActive(Step(s, a), i);
    if !InStage(s, i, Leaked) {
      NeverActiveAgain(s, Step(s, a), i);
    } else if IsRefundEvent(s, i, a) {
      RefundEventReleases(s, i, a);
    } else {
      LeakStep(s, i, a);
    }
  }

  lemma LeakedIsActive(s: Shop, i: nat)
    requires Inv(s) && i < |s.orders|
    ensures InStage(s, i, Leaked) ==> St.HasActive(s.stock.reservations[i])
  {
    assert OrderOk(s, i);
    assert s.stock.reservations[i][0] in s.stock.reservations[i];
  }

  ghost predicate LeakedAt(s: Shop, i: nat) { s.Shape() && i < |s.orders| && InStage(s, i, Leaked) }

  ghost predicate ReservedAt(s: Shop, i: nat) { s.Shape() && i < |s.orders| && St.HasActive(s.stock.reservations[i]) }

  lemma LeakStepInRun(states: seq<Shop>, actions: seq<Action>, i: nat, k: nat)
    requires Trace(states, actions) && 0 < k <= |actions| && i < |states[k - 1].orders|
    requires ReservedAt(states[k - 1], i) <==> LeakedAt(states[k - 1], i)
    ensures i < |states[k].orders| && (LeakedAt(states[k], i) <==> LeakedAt(states[k - 1], i) && !IsRefundEvent(states[k - 1], i, actions[k - 1]))
    ensures ReservedAt(states[k], i) <==> LeakedAt(states[k], i)
  {
    RunIsSafe(states, actions, k - 1, k - 1);
    assert StepOf(states[k - 1], actions[k - 1], states[k]);
    LeakStepIff(states[k - 1], i, actions[k - 1]);
  }

  lemma LeakStarts(states: seq<Shop>, actions: seq<Action>, i: nat, j: nat)
    requires Trace(states, actions) && j <= |actions| && LeakedAt(states[j], i)
    ensures i < |states[j].orders| && ReservedAt(states[j], i)
  {
    RunIsSafe(states, actions, j, j);
    LeakedIsActive(states[j], i);
  }

  /** Leaked rows are the only reserved ones of the order, in every state from the leak on. */
  lemma {:induction false} ReservedMeansLeaked(states: seq<Shop>, actions: seq<Action>, i: nat, j: nat, k: nat)
    requires Trace(states, actions) && j <= k <= |actions| && LeakedAt(states[j], i)
    ensures i < |states[k].orders| && (ReservedAt(states[k], i) <==> LeakedAt(states[k], i))
    decreases k
  {
    if j < k {
      ReservedMeansLeaked(states, actions, i, j, k - 1);
      LeakStepInRun(states, actions, i, k);
    } else {
      LeakStarts(states, actions, i, j);
    }
  }

  /** Something that holds until it is ended, and never again after. */
  lemma {:induction false} EndsOnce(holds: seq<bool>, ended: seq<bool>, k: nat)
    requires |holds| == |ended| + 1 && holds[0] && k <= |ended|
    requires forall m | 0 <= m < |ended| :: holds[m + 1] == (holds[m] && !ended[m])
    ensures holds[k] <==> forall m | 0 <= m < k :: !ended[m]
  {
    if k > 0 {
      EndsOnce(holds, ended, k - 1);
      assert holds[k - 1 + 1] == (holds[k - 1] && !ended[k - 1]);
    }
  }

  ghost function LeakHistory(states: seq<Shop>, i: nat): (h: seq<bool>)
    ensures |h| == |states| && forall m | 0 <= m < |states| :: h[m] == LeakedAt(states[m], i)
  {
    seq(|states|, m requires 0 <= m < |states| => LeakedAt(states[m], i))
  }

  function RefundHistory(states: seq<Shop>, actions: seq<Action>, i: nat): (h: seq<bool>)
    requires |states| == |actions| + 1
    ensures |h| == |actions| && forall m | 0 <= m < |actions| :: h[m] == IsRefundEvent(states[m], i, actions[m])
  {
    seq(|actions|, m requires 0 <= m < |actions| => IsRefundEvent(states[m], i, actions[m]))
  }

  lemma LeakHistoryFalls(states: seq<Shop>, actions: seq<Action>, i: nat, j: nat)
    requires Trace(states, actions) && j <= |actions| && LeakedAt(states[j], i)
    ensures var leaked, refunds := LeakHistory(states, i), RefundHistory(states, actions, i);
            forall m | j <= m < |actions| :: leaked[m + 1] == (leaked[m] && !refunds[m])
  {
    forall m | j <= m < |actions| ensures LeakedAt(states[m + 1], i) == (LeakedAt(states[m], i) && !IsRefundEvent(states[m], i, actions[m])) {
      ReservedMeansLeaked(states, actions, i, j, m);
      LeakStepInRun(states, actions, i, m + 1);
    }
  }

  /**
   A full refund recorded by the back office before the stock was taken leaves the rows reserved.  In any
   run from then on they stay reserved exactly as long as no refund event of the provider for that order
   arrives: no cancellation, expiry, late fulfilment or other step releases them.
   */
  lemma LeakPersistsIff(states: seq<Shop>, actions: seq<Action>, i: nat, j: nat, k: nat)
    requires Trace(states, actions) && j <= k <= |actions| && LeakedAt(states[j], i)
    ensures i < |states[k].orders| && (ReservedAt(states[k], i) <==> LeakedAt(states[k], i))
    ensures LeakedAt(states[k], i) <==> forall m | j <= m < k :: !RefundHistory(states, actions, i)[m]
  {
    ReservedMeansLeaked(states, actions, i, j, k);
    LeakHistoryFalls(states, actions, i, j);
    EndsOnceFrom(LeakHistory(states, i), RefundHistory(states, actions, i), j, k);
  }

  lemma EndsOnceFrom(on: seq<bool>, ends: seq<bool>, j: nat, k: nat)
    requires |on| == |ends| + 1 && j <= k <= |ends| && on[j]
    requires forall m | j <= m < |ends| :: on[m + 1] == (on[m] && !ends[m])
    ensures on[k] <==> forall m | j <= m < k :: !ends[m]
  {
    EndsOnce(on[j..], ends[j..], k - j);
    assert forall m | j <= m < k :: ends[m] == ends[j..][m - j];
    assert forall n | 0 <= n < k - j :: ends[j..][n] == ends[j + n];
  }

  ghost predicate LeftAlone(s: Shop, t: Shop, i: nat) {
    && i < |s.orders| <= |t.orders| && t.orders[i] == s.orders[i]
    && i < |s.stock.reservations| <= |t.stock.reservations| && t.stock.reservations[i] == s.stock.reservations[i]
  }

  lemma TurnLeavesOthers(s: Shop, t: Shop, j: nat, i: nat)
    requires Turn(s, t, j) && i < |s.orders| && i != j
    ensures LeftAlone(s, t, i)
  {
  }

  lemma SuccessLeavesOthers(s: Shop, i: nat, a: Action)
    requires Inv(s) && Admissible(s, a) && i < |s.orders| && !(OnOneOrder(a) && a.order == i) && Attempt(s, a).Success?
    ensures LeftAlone(s, Attempt(s, a).value, i)
  {
    if OnOneOrder(a) {
      OrderActionOk(s, a);
      TurnLeavesOthers(s, Attempt(s, a).value, a.order, i);
    } else if a.APlace? {
      PlaceLeavesOthers(s, a.catalog, a.request, a.placement, i);
    } else {
      TablesLeaveOrders(s, a);
    }
  }

  /** A step that is not about order `i` changes neither its row nor its reservations. */
  lemma OthersLeaveAlone(s: Shop, i: nat, a: Action)
    requires Inv(s) && Admissible(s, a) && i < |s.orders| && !(OnOneOrder(a) && a.order == i)
    ensures LeftAlone(s, Step(s, a), i)
  {
    if Attempt(s, a).Success? { SuccessLeavesOthers(s, i, a); }
  }

  /**
   The leak itself: an accepted full refund leaves rows reserved exactly when the first child was still
   unpaid, and then the order is a provider payment.
   */
  lemma FullRefundLeaksIff(s: Shop, i: nat, v: nat)
    requires Inv(s) && RecordFullRefund(s, i, v).Success?
    ensures var t := RecordFullRefund(s, i, v).value;
            && |s.orders[i].children| > 0 && t.stock == s.stock
            && (InStage(t, i, Leaked) <==> s.orders[i].children[0].status == S.PendingPayment)
            && (St.HasActive(t.stock.reservations[i]) <==> s.orders[i].children[0].status == S.PendingPayment)
            && (InStage(t, i, Leaked) ==> s.orders[i].payMethod == MercadoPago)
  {
    FullRefundLeavesOpen(s, i, v);
    OpenByFirstChild(s, i);
  }

  lemma OpenByFirstChild(s: Shop, i: nat)
    requires Inv(s) && i < |s.orders|
    ensures |s.orders[i].children| > 0 && (InStage(s, i, Open) <==> s.orders[i].children[0].status == S.PendingPayment)
  {
    assert OrderOk(s, i);
    assert s.orders[i].children[0] in s.orders[i].children;
  }

  lemma FullRefundLeavesOpen(s: Shop, i: nat, v: nat)
    requires Inv(s) && RecordFullRefund(s, i, v).Success?
    ensures var t := RecordFullRefund(s, i, v).value;
            && (InStage(t, i, Leaked) <==> InStage(s, i, Open)) && (St.HasActive(t.stock.reservations[i]) <==> InStage(s, i, Open))
            && t.stock == s.stock && (InStage(s, i, Open) ==> s.orders[i].payMethod == MercadoPago)
  {
    FullRefundKeepsInv(s, i, v);
    assert OrderOk(s, i);
    var stage :| InStage(s, i, stage);
    var rows := s.stock.reservations[i];
    assert rows[0] in rows;
  }

  /**
   No run leaks the stock of a bank transfer: while any of its rows is reserved the payment is pending or
   under review, so a full refund is refused, and a refunded one has nothing reserved.
   */
  lemma TransferNeverLeaks(states: seq<Shop>, actions: seq<Action>, k: nat, i: nat, v: nat)
    requires Trace(states, actions) && k <= |actions| && i < |states[k].orders| && states[k].orders[i].payMethod == BankTransfer
    ensures states[k].Shape() && !InStage(states[k], i, Leaked)
    ensures St.HasActive(states[k].stock.reservations[i]) ==>
              && states[k].orders[i].payment in {Pending, UnderReview} && states[k].orders[i].status != RefundRecorded
              && RecordFullRefund(states[k], i, v).Failure?
  {
    RunIsSafe(states, actions, k, k);
    ReservedTransfer(states[k], i);
  }

  lemma ReservedTransfer(s: Shop, i: nat)
    requires Inv(s) && i < |s.orders| && s.orders[i].payMethod == BankTransfer
    ensures !InStage(s, i, Leaked)
    ensures St.HasActive(s.stock.reservations[i]) ==> s.orders[i].payment in {Pending, UnderReview} && s.orders[i].status != RefundRecorded
  {
    assert OrderOk(s, i);
    var stage :| InStage(s, i, stage);
  }
}
