/**
 Child steps the code accepts without a status check: on orders that are not paid, on refunded orders,
 and out of the order in which detours were opened.  For each the exact condition under which it is safe.
 */
module UncheckedSteps {
  import opened Wrappers
  import opened ParentStatus
  import opened Orders
  import opened OrderInvariant
  import opened OrderLaws
  import opened OrderSteps
  import opened OrderRuns
  import C = Checkout
  import De = Detours
  import Le = Ledger
  import S = SellerOrders
  import St = Stock

  /** The only steps of an unpaid child the code accepts: an administrator cancels it, or the buyer opens an issue. */
  lemma UnpaidChildSteps(s: S.Sale, id: Le.SellerOrderId, op: ChildOp, payment: PaymentStatus)
    requires s.order.status == S.PendingPayment && s.order.issues == [] && s.order.requests == [] && ChildSale(s, id, op, payment).Success?
    ensures var t := ChildSale(s, id, op, payment).value;
            && t.order.refunds == s.order.refunds
            && ((op.OpenIssue? && t.order.status == S.Disputed) || (op.Transition? && op.actor == Le.Admin && t.order.status == S.Cancelled))
  {
  }

  lemma ChildRow(s: Shop, i: nat, j: nat, op: ChildOp, restock: seq<St.Line>)
    requires Inv(s) && Child(s, i, j, op, restock).Success? && s.orders[i].children[j].status == S.PendingPayment
    ensures var t := Child(s, i, j, op, restock).value;
            var o := s.orders[i];
            && |t.orders| == |s.orders| && t.stock.reservations == s.stock.reservations && |t.orders[i].children| == |o.children|
            && (forall k | 0 <= k < |o.children| && k != j :: t.orders[i].children[k] == o.children[k])
            && t.orders[i].children[j].status == (if op.OpenIssue? then S.Disputed else S.Cancelled)
            && Next(Statuses(t.orders[i].children)) == Some(t.orders[i].status)
  {
    var o := s.orders[i];
    UnpaidChildMeansOpen(s, i, j);
    assert o.children[j] in o.children;
    UnpaidChildSteps(S.Sale(o.children[j], s.books.entries), Le.SellerOrderId(i, j), op, o.payment);
    var t := Child(s, i, j, op, restock).value;
    assert |Statuses(t.orders[i].children)| > 0;
  }

  /** The statuses of a family in which one pending child moved. */
  lemma MovedStatuses(before: seq<S.SellerOrder>, after: seq<S.SellerOrder>, j: nat, moved: S.Status)
    requires |after| == |before| && j < |before| && moved in {S.Disputed, S.Cancelled} && after[j].status == moved
    requires forall k | 0 <= k < |before| && k != j :: after[k] == before[k] && before[k].status == S.PendingPayment
    ensures Next(Statuses(after)) == Some(if moved == S.Disputed then ActionRequired else if |before| == 1 then Cancelled else Paid)
  {
    var ss := Statuses(after);
    assert ss[j] in ss;
    if |before| > 1 {
      var other := if j == 0 then 1 else 0;
      assert ss[other] == S.PendingPayment && ss[other] in ss;
    }
    forall x | x in ss ensures x in {moved, S.PendingPayment} {
      var k :| 0 <= k < |ss| && ss[k] == x;
    }
  }

  lemma UnpaidChildMeansOpen(s: Shop, i: nat, j: nat)
    requires Inv(s) && i < |s.orders| && j < |s.orders[i].children| && s.orders[i].children[j].status == S.PendingPayment
    ensures St.All(s.stock.reservations[i], St.Active) && NoDetours(s.orders[i])
    ensures forall k | 0 <= k < |s.orders[i].children| :: s.orders[i].children[k].status == S.PendingPayment
  {
    assert OrderOk(s, i);
    var stage :| InStage(s, i, stage);
    assert forall k | 0 <= k < |s.orders[i].children| :: s.orders[i].children[k] in s.orders[i].children;
  }

  /**
   A step of an unpaid child moves its parent before any payment: to action required after an issue, to
   cancelled when an only child is cancelled, and to paid when one of several is.  The stock stays reserved.
   */
  lemma UnpaidChildMovesParent(s: Shop, i: nat, j: nat, op: ChildOp, restock: seq<St.Line>)
    requires Inv(s) && Child(s, i, j, op, restock).Success? && s.orders[i].children[j].status == S.PendingPayment
    ensures var t := Child(s, i, j, op, restock).value;
            && |t.orders| == |s.orders| && St.All(t.stock.reservations[i], St.Active) && t.stock.reservations == s.stock.reservations
            && t.orders[i].status == if op.OpenIssue? then ActionRequired else if |s.orders[i].children| == 1 then Cancelled else Paid
  {
    ChildRow(s, i, j, op, restock);
    UnpaidChildMeansOpen(s, i, j);
    var o := s.orders[i];
    var t := Child(s, i, j, op, restock).value;
    MovedStatuses(o.children, t.orders[i].children, j, t.orders[i].children[j].status);
  }

  lemma ReservedNeedsOpen(t: Shop, i: nat)
    requires t.Shape() && i < |t.orders| && t.orders[i].status in {ActionRequired, Cancelled, Paid}
    requires t.stock.reservations[i] != [] && St.All(t.stock.reservations[i], St.Active)
    ensures !OrderOk(t, i)
  {
    assert t.stock.reservations[i][0] in t.stock.reservations[i];
  }

  lemma InvMeansSound(t: Shop, i: nat, j: nat)
    requires i < |t.orders| && j < |t.orders[i].children|
    ensures Inv(t) ==> De.Sound(t.orders[i].children[j])
  {
    if Inv(t) {
      assert OrderOk(t, i) && ChildOk(t.orders[i].children[j], Le.SellerOrderId(i, j), t.books.entries);
    }
  }

  /**
   Any child step, with any decision, on a child in any status: it keeps the shop valid exactly when the
   child is already paid and, if it was refunded with its parent, is neither reopened nor completed.
   */
  lemma ChildStepKeepsInvIff(s: Shop, i: nat, j: nat, op: ChildOp, restock: seq<St.Line>)
    requires Inv(s) && Child(s, i, j, op, restock).Success?
    ensures Inv(Child(s, i, j, op, restock).value) <==> ChildAdmissible(s.orders[i].children[j], op)
  {
    var c := s.orders[i].children[j];
    var t := Child(s, i, j, op, restock).value;
    assert OrderOk(s, i) && ChildOk(c, Le.SellerOrderId(i, j), s.books.entries);
    if ChildAdmissible(c, op) {
      ChildKeepsInv(s, i, j, op, restock);
    } else if c.status == S.PendingPayment {
      UnpaidChildMovesParent(s, i, j, op, restock);
      if t.Shape() { ReservedNeedsOpen(t, i); }
    } else {
      ChildSaleKeepsSoundIff(S.Sale(c, s.books.entries), Le.SellerOrderId(i, j), op, s.orders[i].payment);
      InvMeansSound(t, i, j);
    }
  }

  // ---------- Detours resolved in the order they were opened ----------

  /** No child is suspended with nothing open, or has something open while it is not suspended. */
  ghost predicate AllOrderly(s: Shop) {
    forall i, j | 0 <= i < |s.orders| && 0 <= j < |s.orders[i].children| :: De.Orderly(s.orders[i].children[j])
  }

  /** The step resolves only a detour that leads back to a status that fits what is still open. */
  predicate KeepsPath(c: S.SellerOrder, op: ChildOp) {
    match op
    case ResolveIssue(k, _, decision, _) =>
      if k >= |c.issues| then true else if decision == S.Continue then De.ContinueFits(c, k) else c.parentRefunded ==> decision == S.FullRefund
    case ResolveCancellation(k, _, approve, _) =>
      if k >= |c.requests| then true else approve || De.RejectFits(c, k)
    case _ => true
  }

  lemma ChildSaleKeepsOrderlyIff(s: S.Sale, id: Le.SellerOrderId, op: ChildOp, payment: PaymentStatus)
    requires De.Orderly(s.order) && s.order.status != S.PendingPayment
    requires ChildSale(s, id, op, payment).Success?
    ensures De.Orderly(ChildSale(s, id, op, payment).value.order) <==> KeepsPath(s.order, op)
  {
    match op
    case Transition(v, next, actor, suspended, now, days) => De.TransitionKeepsOrderly(s, id, v, next, actor, suspended, now, days);
    case RequestCancellation(a, v) => De.RequestKeepsOrderly(s.order, a, v);
    case OpenIssue => De.IssueKeepsOrderly(s.order);
    case Refund(v, refund) => De.RefundKeepsOrderly(s, id, v, refund, payment == Pending);
    case ResolveIssue(k, v, decision, refund) => De.ResolveIssueKeepsOrderlyIff(s, id, k, v, decision, refund);
    case ResolveCancellation(k, v, approve, refund) =>
      De.ResolveCancellationKeepsOrderlyIff(s, id, k, v, approve, refund, payment in {Approved, PartiallyRefunded});
  }

  /** A step of a paid child leaves every child orderly exactly when it keeps to the path. */
  lemma ChildStepKeepsOrderlyIff(s: Shop, i: nat, j: nat, op: ChildOp, restock: seq<St.Line>)
    requires AllOrderly(s) && Child(s, i, j, op, restock).Success? && s.orders[i].children[j].status != S.PendingPayment
    ensures AllOrderly(Child(s, i, j, op, restock).value) <==> KeepsPath(s.orders[i].children[j], op)
  {
    var o := s.orders[i];
    var t := Child(s, i, j, op, restock).value;
    ChildSaleKeepsOrderlyIff(S.Sale(o.children[j], s.books.entries), Le.SellerOrderId(i, j), op, o.payment);
    OneChildMoves(s, i, j, op, restock);
    assert AllOrderly(t) ==> De.Orderly(t.orders[i].children[j]);
  }

  lemma OneChildMoves(s: Shop, i: nat, j: nat, op: ChildOp, restock: seq<St.Line>)
    requires Child(s, i, j, op, restock).Success?
    ensures var o := s.orders[i];
            var t := Child(s, i, j, op, restock).value;
            && |t.orders| == |s.orders| && (forall k | 0 <= k < |s.orders| && k != i :: t.orders[k] == s.orders[k])
            && t.orders[i].children ==
                 o.children[j := ChildSale(S.Sale(o.children[j], s.books.entries), Le.SellerOrderId(i, j), op, o.payment).value.order]
  {
  }

  /** The rows of a family before and after: unchanged, or changed alike by one operation of the parent. */
  ghost predicate FamilyMoved(before: seq<S.SellerOrder>, after: seq<S.SellerOrder>) {
    |after| == |before| && forall k | 0 <= k < |before| :: after[k] == before[k] || exists op :: after[k] == Row(op, before[k])
  }

  ghost predicate ChildrenFrom(s: Shop, i: nat, after: seq<S.SellerOrder>)
    requires i < |s.orders|
  {
    var before := s.orders[i].children;
    after == before || exists op: ParentOp :: after == All(op, i, before, s.books.entries).children
  }

  lemma FromMeansMoved(s: Shop, i: nat, after: seq<S.SellerOrder>)
    requires Inv(s) && i < |s.orders| && ChildrenFrom(s, i, after)
    ensures FamilyMoved(s.orders[i].children, after)
  {
    if after != s.orders[i].children {
      var op: ParentOp :| after == All(op, i, s.orders[i].children, s.books.entries).children;
      AllKeeps(s, i, op);
    }
  }

  lemma ApprovedChildren(s: Shop, i: nat, o: Order, now: int)
    requires s.Shape() && i < |s.orders| && o.children == s.orders[i].children && ProviderApproved(s, i, o, now).Success?
    ensures i < |ProviderApproved(s, i, o, now).value.orders| && ChildrenFrom(s, i, ProviderApproved(s, i, o, now).value.orders[i].children)
  {
  }

  lemma ProviderChildren(s: Shop, i: nat, st: ProviderState, collector: Option<string>, now: int)
    requires s.Shape() && Provider(s, i, st, collector, now).Success?
    ensures i < |s.orders| == |Provider(s, i, st, collector, now).value.orders|
    ensures ChildrenFrom(s, i, Provider(s, i, st, collector, now).value.orders[i].children)
  {
    var o := s.orders[i].(payment := StatusForProvider(st, ExpectedAmount(s.orders[i]), s.orders[i].number, collector));
    if o.payment == Approved { ApprovedChildren(s, i, o, now); }
  }

  lemma ParentStepChildren(s: Shop, a: Action)
    requires s.Shape() && OnOneOrder(a) && !a.AChild? && Attempt(s, a).Success?
    ensures a.order < |s.orders| == |Attempt(s, a).value.orders| && ChildrenFrom(s, a.order, Attempt(s, a).value.orders[a.order].children)
  {
    if a.AProvider? { ProviderChildren(s, a.order, a.state, a.collector, a.now); }
  }

  lemma RowKeepsOrderly(op: ParentOp, o: S.SellerOrder)
    requires De.Orderly(o)
    ensures De.Orderly(Row(op, o))
  {
    De.ParentKeepsOrderly(S.Sale(o, []), Le.SellerOrderId(0, 0));
  }

  lemma NewChildrenOrderly(s: Shop, i: nat)
    requires Inv(s) && i < |s.orders| && InStage(s, i, Open)
    ensures forall c <- s.orders[i].children :: De.Orderly(c)
  {
    assert OrderOk(s, i);
    forall k | 0 <= k < |s.orders[i].children| ensures De.Orderly(s.orders[i].children[k]) {
      assert s.orders[i].children[k] in s.orders[i].children;
      InvMeansSound(s, i, k);
    }
  }

  lemma PlaceKeepsOrderly(s: Shop, c: C.Catalog, r: C.Request, p: Placement)
    requires Inv(s) && AllOrderly(s) && Place(s, c, r, p).Success?
    ensures AllOrderly(Place(s, c, r, p).value.0)
  {
    if Previous(s.orders, r.user, p.key).None? {
      CreateKeepsInv(s, c, r, p);
      NewChildrenOrderly(CreateOrder(s, c, r, p).value, |s.orders|);
    }
  }

  /** The child step of an action, if it is one and its child exists, keeps to the path. */
  ghost predicate ActionKeepsPath(s: Shop, a: Action) {
    a.AChild? && a.order < |s.orders| && a.child < |s.orders[a.order].children| ==> KeepsPath(s.orders[a.order].children[a.child], a.op)
  }

  lemma FamilyStaysOrderly(before: seq<S.SellerOrder>, after: seq<S.SellerOrder>)
    requires FamilyMoved(before, after) && forall c <- before :: De.Orderly(c)
    ensures forall k | 0 <= k < |after| :: De.Orderly(after[k])
  {
    forall k | 0 <= k < |after| ensures De.Orderly(after[k]) {
      if after[k] != before[k] {
        var op :| after[k] == Row(op, before[k]);
        RowKeepsOrderly(op, before[k]);
      }
    }
  }

  lemma TurnKeepsAllOrderly(s: Shop, t: Shop, i: nat)
    requires AllOrderly(s) && Turn(s, t, i) && FamilyMoved(s.orders[i].children, t.orders[i].children)
    ensures AllOrderly(t)
  {
    FamilyStaysOrderly(s.orders[i].children, t.orders[i].children);
  }

  lemma ParentStepKeepsOrderly(s: Shop, a: Action)
    requires Inv(s) && AllOrderly(s) && Admissible(s, a) && OnOneOrder(a) && !a.AChild? && Attempt(s, a).Success?
    ensures AllOrderly(Attempt(s, a).value)
  {
    OrderActionOk(s, a);
    ParentStepChildren(s, a);
    FromMeansMoved(s, a.order, Attempt(s, a).value.orders[a.order].children);
    TurnKeepsAllOrderly(s, Attempt(s, a).value, a.order);
  }

  lemma ChildActionKeepsOrderly(s: Shop, a: Action)
    requires AllOrderly(s) && s.Shape() && a.AChild? && Admissible(s, a) && ActionKeepsPath(s, a) && Attempt(s, a).Success?
    ensures AllOrderly(Attempt(s, a).value)
  {
    ChildStepKeepsOrderlyIff(s, a.order, a.child, a.op, a.restock);
  }

  lemma StepKeepsAllOrderly(s: Shop, a: Action)
    requires Inv(s) && AllOrderly(s) && Admissible(s, a) && ActionKeepsPath(s, a)
    ensures AllOrderly(Step(s, a))
  {
    if Attempt(s, a).Success? {
      if a.APlace? {
        PlaceKeepsOrderly(s, a.catalog, a.request, a.placement);
      } else if a.AChild? {
        ChildActionKeepsOrderly(s, a);
      } else if OnOneOrder(a) {
        ParentStepKeepsOrderly(s, a);
      } else {
        TablesLeaveOrders(s, a);
      }
    }
  }

  /** In a run whose resolutions keep to the path every child is orderly in every state. */
  lemma {:induction false} RunStaysOrderly(states: seq<Shop>, actions: seq<Action>, k: nat)
    requires Trace(states, actions) && AllOrderly(states[0]) && k <= |actions|
    requires forall m | 0 <= m < |actions| :: ActionKeepsPath(states[m], actions[m])
    ensures AllOrderly(states[k])
  {
    if k > 0 {
      RunStaysOrderly(states, actions, k - 1);
      RunIsSafe(states, actions, k - 1, k - 1);
      assert StepOf(states[k - 1], actions[k - 1], states[k]);
      StepKeepsAllOrderly(states[k - 1], actions[k - 1]);
    }
  }
}
