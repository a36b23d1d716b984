/** What a step of a child does to its order: the status, the payment status after a refund, and the stock put back. */
module RefundOutcomes {
  import opened Wrappers
  import opened ParentStatus
  import opened Orders
  import opened OrderInvariant
  import opened OrderLaws
  import opened OrderSteps
  import CO = ChildOutcomes
  import Le = Ledger
  import S = SellerOrders
  import SL = SellerOrderLaws
  import St = Stock
  import StL = StockLaws

  /** The amounts on record over all children, first to last. */
  function Recorded(children: seq<S.SellerOrder>): int {
    if children == [] then 0 else CO.OnRecord(children[0].refunds) + Recorded(children[1..])
  }

  /** What the children cost together. */
  function Worth(children: seq<S.SellerOrder>): int {
    if children == [] then 0 else children[0].subtotal + children[0].shipping + Worth(children[1..])
  }

  lemma {:induction false} RecordedIsTotal(children: seq<S.SellerOrder>)
    ensures RefundedTotal(children) == Recorded(children)
  {
    if children != [] {
      RecordedIsTotal(children[1..]);
      TotalFront(children);
    }
  }

  lemma {:induction false} TotalFront(children: seq<S.SellerOrder>)
    requires children != []
    ensures RefundedTotal(children) == CO.OnRecord(children[0].refunds) + RefundedTotal(children[1..])
  {
    var n := |children| - 1;
    CO.OnRecordIsSum(children[n].refunds);
    if n > 0 {
      TotalFront(children[..n]);
      assert children[..n][1..] == children[1..][..n - 1];
    }
  }

  /** The payment reads refunded exactly when the amounts on record, and a full refund if any, reach the order's total. */
  ghost predicate PaymentFollowsRecords(o: Order) {
    var repaid := Recorded(o.children) + if o.fullRefund then o.total else 0;
    o.payment == if repaid >= o.total then Refunded else PartiallyRefunded
  }

  ghost predicate Restocked(s: St.Stock, t: St.Stock, lines: seq<St.Line>) {
    && t.inventory.Keys == s.inventory.Keys && t.reservations == s.reservations
    && forall p <- s.inventory :: t.inventory[p] == s.inventory[p].(onHand := s.inventory[p].onHand + StL.Units(lines, p))
  }

  /** A child step moves its child, reconciles its order, and follows up on a refund if it recorded one. */
  ghost predicate ChildMoved(s: Shop, t: Shop, i: nat, j: nat, restock: seq<St.Line>) {
    && i < |s.orders| == |t.orders| && j < |s.orders[i].children| == |t.orders[i].children|
    && (forall k | 0 <= k < |s.orders| && k != i :: t.orders[k] == s.orders[k]) && t.loyalty == s.loyalty && t.books.payouts == s.books.payouts
    && var (o, n) := (s.orders[i], t.orders[i]);
    && n == o.(children := n.children, status := n.status, payment := n.payment, version := if n.status == o.status then o.version else o.version + 1)
    && (forall k | 0 <= k < |o.children| && k != j :: n.children[k] == o.children[k])
    && Expected(Statuses(n.children)) == Some(n.status)
    && if |n.children[j].refunds| > |o.children[j].refunds| then PaymentFollowsRecords(n) && Restocked(s.stock, t.stock, restock)
       else n.payment == o.payment && t.stock.inventory == s.stock.inventory && t.stock.reservations == s.stock.reservations
  }

  /** The order a child step leaves, before its status is brought in line. */
  function Unreconciled(s: Shop, i: nat, j: nat, op: ChildOp): Order
    requires i < |s.orders| && j < |s.orders[i].children|
    requires ChildSale(S.Sale(s.orders[i].children[j], s.books.entries), Le.SellerOrderId(i, j), op, s.orders[i].payment).Success?
  {
    var o := s.orders[i];
    var moved := ChildSale(S.Sale(o.children[j], s.books.entries), Le.SellerOrderId(i, j), op, o.payment).value;
    Repaid(WithChild(o, j, moved.order), |moved.order.refunds| > |o.children[j].refunds|)
  }

  lemma ReconciledRow(x: Order)
    requires x.children != []
    ensures var n := Reconcile(x);
            && n == x.(status := n.status, version := if n.status == x.status then x.version else x.version + 1)
            && Expected(Statuses(n.children)) == Some(n.status)
  {
    DefinitionsAgree(Statuses(x.children));
  }

  lemma RepaidRow(x: Order, recorded: bool)
    ensures var n := Repaid(x, recorded);
            && n == x.(payment := n.payment) && (if recorded then PaymentFollowsRecords(n) else n == x)
  {
    RecordedIsTotal(x.children);
  }

  lemma ChildTables(s: Shop, i: nat, j: nat, op: ChildOp, restock: seq<St.Line>)
    requires Child(s, i, j, op, restock).Success?
    ensures var t := Child(s, i, j, op, restock).value;
            && t.orders == s.orders[i := Reconcile(Unreconciled(s, i, j, op))] && t.loyalty == s.loyalty && t.books.payouts == s.books.payouts
            && St.Restock(s.stock, if |Unreconciled(s, i, j, op).children[j].refunds| > |s.orders[i].children[j].refunds| then restock else []) == Success(t.stock)
  {
  }

  /** What any accepted step of a child does to its order. */
  lemma ChildStepOutcome(s: Shop, i: nat, j: nat, op: ChildOp, restock: seq<St.Line>)
    requires Child(s, i, j, op, restock).Success?
    ensures ChildMoved(s, Child(s, i, j, op, restock).value, i, j, restock)
  {
    var o := s.orders[i];
    var moved := ChildSale(S.Sale(o.children[j], s.books.entries), Le.SellerOrderId(i, j), op, o.payment).value;
    var recorded := |moved.order.refunds| > |o.children[j].refunds|;
    ChildTables(s, i, j, op, restock);
    RepaidRow(WithChild(o, j, moved.order), recorded);
    ReconciledRow(Unreconciled(s, i, j, op));
    StockFollowed(s.stock, recorded, restock);
  }

  lemma StockFollowed(s: St.Stock, recorded: bool, restock: seq<St.Line>)
    requires St.Restock(s, if recorded then restock else []).Success?
    ensures var t := St.Restock(s, if recorded then restock else []).value;
            if recorded then Restocked(s, t, restock) else t.inventory == s.inventory && t.reservations == s.reservations
  {
    if recorded { StL.RestockOutcome(s, restock); } else { NothingRestocked(s); }
  }

  lemma NothingRestocked(s: St.Stock)
    ensures St.Restock(s, []).Success? && St.Restock(s, []).value.inventory == s.inventory && St.Restock(s, []).value.reservations == s.reservations
  {
  }

  // ---------- When an order counts as refunded ----------

  lemma {:induction false} RecordedAtMostWorth(children: seq<S.SellerOrder>)
    requires forall c <- children :: S.RefundsOk(c)
    ensures Recorded(children) <= Worth(children)
    ensures Recorded(children) == Worth(children) <==> forall c <- children :: CO.OnRecord(c.refunds) == c.subtotal + c.shipping
  {
    if children != [] {
      RecordedAtMostWorth(children[1..]);
      CO.OnRecordIsSum(children[0].refunds);
      assert children[0] in children && S.RefundsOk(children[0]);
      assert children == [children[0]] + children[1..];
    }
  }

  /**
   After a refund on an undiscounted order the payment reads refunded exactly when every child was refunded
   in full; short of that it reads partially refunded.
   */
  lemma RefundedExactlyWhenWhole(s: Shop, i: nat, j: nat, op: ChildOp, restock: seq<St.Line>)
    requires Inv(s) && Child(s, i, j, op, restock).Success?
    requires s.orders[i].total == Worth(s.orders[i].children) && !s.orders[i].fullRefund
    ensures var t := Child(s, i, j, op, restock).value;
            && |t.orders| == |s.orders| && |t.orders[i].children| == |s.orders[i].children|
            && (|t.orders[i].children[j].refunds| > |s.orders[i].children[j].refunds| ==>
                  && (t.orders[i].payment == Refunded <==> forall c <- t.orders[i].children :: CO.OnRecord(c.refunds) == c.subtotal + c.shipping)
                  && t.orders[i].payment in {Refunded, PartiallyRefunded})
  {
    var o := s.orders[i];
    var t := Child(s, i, j, op, restock).value;
    ChildStepOutcome(s, i, j, op, restock);
    FamilyRefundsOk(s, i, j, op, restock);
    RecordedAtMostWorth(t.orders[i].children);
    SameWorth(o.children, t.orders[i].children, j);
  }

  lemma FamilyRefundsOk(s: Shop, i: nat, j: nat, op: ChildOp, restock: seq<St.Line>)
    requires Inv(s) && Child(s, i, j, op, restock).Success?
    ensures var (o, t) := (s.orders[i], Child(s, i, j, op, restock).value);
            && |t.orders| == |s.orders| && |t.orders[i].children| == |o.children|
            && (forall c <- t.orders[i].children :: S.RefundsOk(c))
            && t.orders[i].children[j].subtotal == o.children[j].subtotal && t.orders[i].children[j].shipping == o.children[j].shipping
  {
    ChildrenRefundsOk(s, i);
    MovedChild(s, i, j, op);
    ChildStepOutcome(s, i, j, op, restock);
    SaleAfter(s, i, j, op, restock);
  }

  lemma ChildrenRefundsOk(s: Shop, i: nat)
    requires Inv(s) && i < |s.orders|
    ensures forall c <- s.orders[i].children :: S.RefundsOk(c)
  {
    var o := s.orders[i];
    assert OrderOk(s, i);
    assert forall k | 0 <= k < |o.children| :: ChildOk(o.children[k], Le.SellerOrderId(i, k), s.books.entries);
  }

  lemma MovedChild(s: Shop, i: nat, j: nat, op: ChildOp)
    requires Inv(s) && i < |s.orders| && j < |s.orders[i].children|
    requires ChildSale(SaleOf(s, i, j), Le.SellerOrderId(i, j), op, s.orders[i].payment).Success?
    ensures var (c, n) := (s.orders[i].children[j], ChildSale(SaleOf(s, i, j), Le.SellerOrderId(i, j), op, s.orders[i].payment).value.order);
            S.RefundsOk(n) && n.subtotal == c.subtotal && n.shipping == c.shipping
  {
    assert OrderOk(s, i);
    assert ChildOk(s.orders[i].children[j], Le.SellerOrderId(i, j), s.books.entries);
    OwnedByInv(s.books);
    ChildSaleKeepsRefunds(SaleOf(s, i, j), Le.SellerOrderId(i, j), op, s.orders[i].payment);
    ChildSaleKeepsInv(SaleOf(s, i, j), Le.SellerOrderId(i, j), op, s.orders[i].payment);
  }

  lemma {:induction false} SameWorth(before: seq<S.SellerOrder>, after: seq<S.SellerOrder>, j: nat)
    requires |after| == |before| && forall k | 0 <= k < |before| && k != j :: after[k] == before[k]
    requires j < |before| ==> after[j].subtotal == before[j].subtotal && after[j].shipping == before[j].shipping
    ensures Worth(after) == Worth(before)
  {
    if before != [] { SameWorth(before[1..], after[1..], if j > 0 then j - 1 else |before|); }
  }

  // ---------- Each kind of step ----------

  function SaleOf(s: Shop, i: nat, j: nat): S.Sale
    requires i < |s.orders| && j < |s.orders[i].children|
  {
    S.Sale(s.orders[i].children[j], s.books.entries)
  }

  /** What the step comes to for the child and its seller's money. */
  ghost predicate ChildApplied(s: S.Sale, t: S.Sale, id: Le.SellerOrderId, op: ChildOp) {
    match op
    case Transition(_, next, _, _, now, days) => CO.TransitionApplied(s, t, id, next, now, days)
    case RequestCancellation(_, _) => t == s.(order := CO.AskedToCancel(s.order))
    case OpenIssue => t == s.(order := CO.Complained(s.order))
    case Refund(_, refund) => CO.RefundApplied(s, t, id, refund)
    case ResolveIssue(k, _, decision, refund) => CO.IssueApplied(s, t, id, k, decision, refund)
    case ResolveCancellation(k, _, approve, refund) => CO.CancellationApplied(s, t, id, k, approve, refund)
  }

  lemma SaleOutcome(s: S.Sale, id: Le.SellerOrderId, op: ChildOp, payment: PaymentStatus)
    requires S.Inv(s.order, id, s.entries) && SL.Owned(s.entries) && ChildSale(s, id, op, payment).Success?
    ensures ChildApplied(s, ChildSale(s, id, op, payment).value, id, op)
  {
    match op
    case Transition(v, next, actor, suspended, now, days) => CO.TransitionOutcome(s, id, v, next, actor, suspended, now, days);
    case RequestCancellation(a, v) => CO.DetourOutcome(s.order, a, v);
    case OpenIssue => CO.DetourOutcome(s.order, 0, 0);
    case Refund(v, refund) => CO.RefundOrderOutcome(s, id, v, refund, payment == Pending);
    case ResolveIssue(k, v, decision, refund) => CO.IssueOutcome(s, id, k, v, decision, refund);
    case ResolveCancellation(k, v, approve, refund) =>
      CO.CancellationOutcome(s, id, k, v, approve, refund, payment in {Approved, PartiallyRefunded});
  }

  /** Both together: what a step of a child does to the child, its seller, its order and the stock. */
  ghost predicate ChildDone(s: Shop, t: Shop, i: nat, j: nat, op: ChildOp, restock: seq<St.Line>) {
    ChildMoved(s, t, i, j, restock) && ChildApplied(SaleOf(s, i, j), SaleOf(t, i, j), Le.SellerOrderId(i, j), op)
  }

  lemma ChildOutcome(s: Shop, i: nat, j: nat, op: ChildOp, restock: seq<St.Line>)
    requires s.Shape()
    ensures Inv(s) && Child(s, i, j, op, restock).Success? ==> ChildDone(s, Child(s, i, j, op, restock).value, i, j, op, restock)
  {
    if Inv(s) && Child(s, i, j, op, restock).Success? {
      ChildStepOutcome(s, i, j, op, restock);
      assert OrderOk(s, i) && ChildOk(s.orders[i].children[j], Le.SellerOrderId(i, j), s.books.entries);
      OwnedByInv(s.books);
      SaleOutcome(SaleOf(s, i, j), Le.SellerOrderId(i, j), op, s.orders[i].payment);
      SaleAfter(s, i, j, op, restock);
    }
  }

  lemma SaleAfter(s: Shop, i: nat, j: nat, op: ChildOp, restock: seq<St.Line>)
    requires Child(s, i, j, op, restock).Success?
    ensures var t := Child(s, i, j, op, restock).value;
            && i < |t.orders| && j < |t.orders[i].children|
            && ChildSale(SaleOf(s, i, j), Le.SellerOrderId(i, j), op, s.orders[i].payment) == Success(SaleOf(t, i, j))
  {
  }
}
