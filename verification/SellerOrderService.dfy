/** The transactions of one seller order, run against the tables. */
module SellerOrderService {
  import opened Wrappers
  import opened Orders
  import opened OrderService
  import Le = Ledger
  import I = OrderInvariant
  import RO = RefundOutcomes
  import S = SellerOrders
  import St = Stock
  import StL = StockLaws

  lemma RestockNothing(s: St.Stock)
    ensures St.Restock(s, []) == Success(s)
  {
    assert s.adjustments + St.RestockLog([]) == s.adjustments;
  }

  /** A child's step without a refund, as the shop sees it. */
  lemma QuietChild(s: Shop, i: nat, j: nat, op: ChildOp, restock: seq<St.Line>)
    requires s.Shape() && i < |s.orders| && j < |s.orders[i].children|
    requires !op.Refund? && !op.ResolveIssue? && !op.ResolveCancellation?
    ensures var o := s.orders[i];
            Child(s, i, j, op, restock) ==
              match ChildSale(S.Sale(o.children[j], s.books.entries), Le.SellerOrderId(i, j), op, o.payment)
              case Failure(e) => Failure(SellerOrderFailed(e))
              case Success(t) =>
                Success(s.(books := s.books.(entries := t.entries), orders := s.orders[i := Reconcile(WithChild(o, j, t.order))]))
  {
    RestockNothing(s.stock);
  }

  /** A resolution that records no refund. */
  lemma PlainChild(s: Shop, i: nat, j: nat, op: ChildOp, restock: seq<St.Line>, t: S.Sale)
    requires s.Shape() && i < |s.orders| && j < |s.orders[i].children| && t.order.refunds == s.orders[i].children[j].refunds
    requires ChildSale(S.Sale(s.orders[i].children[j], s.books.entries), Le.SellerOrderId(i, j), op, s.orders[i].payment) == Success(t)
    ensures var o := s.orders[i];
            Child(s, i, j, op, restock) ==
              Success(s.(books := s.books.(entries := t.entries), orders := s.orders[i := Reconcile(WithChild(o, j, t.order))]))
  {
    RestockNothing(s.stock);
  }

  // ---------- Steps that record a refund ----------

  /** `recordAffiliateRefund` as the shop sees it: the record, the restock, the reversal and the payment status. */
  ghost function RefundStep(s: Shop, i: nat, j: nat, a: S.RefundArgs, tag: Le.RefundTag, restock: seq<St.Line>): Result<Shop, Error>
    requires s.Shape() && i < |s.orders| && j < |s.orders[i].children|
  {
    var o := s.orders[i];
    match S.RecordRefund(S.Sale(o.children[j], s.books.entries), Le.SellerOrderId(i, j), a, tag)
    case Failure(e) => Failure(SellerOrderFailed(e))
    case Success(t) =>
      var recorded := |t.order.refunds| > |o.children[j].refunds|;
      match St.Restock(s.stock, if recorded then restock else [])
      case Failure(e) => Failure(StockFailed(e))
      case Success(stock) =>
        Success(s.(stock := stock, books := s.books.(entries := t.entries), orders := s.orders[i := Repaid(WithChild(o, j, t.order), recorded)]))
  }

  lemma {:induction false} TotalByRefunds(children: seq<S.SellerOrder>, j: nat, x: S.SellerOrder, y: S.SellerOrder)
    requires j < |children| && x.refunds == y.refunds
    ensures RefundedTotal(children[j := x]) == RefundedTotal(children[j := y])
  {
    var n := |children| - 1;
    if j < n {
      TotalByRefunds(children[..n], j, x, y);
      assert children[j := x][..n] == children[..n][j := x] && children[j := y][..n] == children[..n][j := y];
    } else {
      assert children[j := x][..n] == children[j := y][..n];
    }
  }

  /** The payment status depends on the refunds only, so the row a child ends with may be written later. */
  lemma RowWrittenLater(o: Order, j: nat, x: S.SellerOrder, y: S.SellerOrder, recorded: bool)
    requires j < |o.children| && x.refunds == y.refunds
    ensures WithChild(Repaid(WithChild(o, j, x), recorded), j, y) == Repaid(WithChild(o, j, y), recorded)
  {
    TotalByRefunds(o.children, j, x, y);
    assert o.children[j := x][j := y] == o.children[j := y];
  }

  /** A child step is its refund, if it has one, followed by the row and entries it ends with. */
  lemma RefundingChild(s: Shop, i: nat, j: nat, op: ChildOp, restock: seq<St.Line>, a: S.RefundArgs, tag: Le.RefundTag, t: S.Sale, u: S.Sale)
    requires s.Shape() && i < |s.orders| && j < |s.orders[i].children|
    requires S.RecordRefund(S.Sale(s.orders[i].children[j], s.books.entries), Le.SellerOrderId(i, j), a, tag) == Success(t)
    requires ChildSale(S.Sale(s.orders[i].children[j], s.books.entries), Le.SellerOrderId(i, j), op, s.orders[i].payment) == Success(u)
    requires u.order.refunds == t.order.refunds
    ensures Child(s, i, j, op, restock) ==
              match RefundStep(s, i, j, a, tag, restock)
              case Failure(e) => Failure(e)
              case Success(v) =>
                Success(v.(books := v.books.(entries := u.entries), orders := v.orders[i := Reconcile(WithChild(v.orders[i], j, u.order))]))
  {
    var o := s.orders[i];
    var recorded := |t.order.refunds| > |o.children[j].refunds|;
    RowWrittenLater(o, j, t.order, u.order, recorded);
    var row := Repaid(WithChild(o, j, t.order), recorded);
    var last := Reconcile(WithChild(row, j, u.order));
    assert s.orders[i := row][i := last] == s.orders[i := last];
  }

  /** A refund touches nothing of the child but its refund records. */
  lemma IssuesKept(s: Shop, i: nat, j: nat, a: S.RefundArgs, tag: Le.RefundTag, restock: seq<St.Line>)
    requires s.Shape() && i < |s.orders| && j < |s.orders[i].children| && RefundStep(s, i, j, a, tag, restock).Success?
    ensures var v := RefundStep(s, i, j, a, tag, restock).value;
            && |v.orders| == |s.orders| && |v.orders[i].children| == |s.orders[i].children|
            && v.orders[i].children[j] == s.orders[i].children[j].(refunds := v.orders[i].children[j].refunds)
  {
  }

  /** A refund of an issue and the row it ends with. */
  ghost function IssueRefunded(s: Shop, i: nat, j: nat, k: nat, full: bool, a: S.RefundArgs, restock: seq<St.Line>): Result<Shop, Error>
    requires s.Shape() && i < |s.orders| && j < |s.orders[i].children| && k < |s.orders[i].children[j].issues|
  {
    match RefundStep(s, i, j, a, Le.IssueRefund(k, full), restock)
    case Failure(e) => Failure(e)
    case Success(v) =>
      IssuesKept(s, i, j, a, Le.IssueRefund(k, full), restock);
      var n := S.CloseIssue(S.CloseAs(v.orders[i].children[j], if full then S.Refunded else S.Completed), k);
      var t := if full then S.Sale(n, v.books.entries) else S.ReleaseIfAffiliate(S.Sale(n, v.books.entries), Le.SellerOrderId(i, j), Le.ByIssue(k));
      Success(v.(books := v.books.(entries := t.entries), orders := v.orders[i := Reconcile(WithChild(v.orders[i], j, n))]))
  }

  lemma IssueRefundIsChildStep(s: Shop, i: nat, j: nat, k: nat, full: bool, a: S.RefundArgs, restock: seq<St.Line>)
    requires s.Shape() && i < |s.orders| && j < |s.orders[i].children|
    requires k < |s.orders[i].children[j].issues| && s.orders[i].children[j].issues[k].open
    ensures var op := ResolveIssue(k, s.orders[i].children[j].version, if full then S.FullRefund else S.PartialRefund, Some(a));
            Child(s, i, j, op, restock) == IssueRefunded(s, i, j, k, full, a, restock)
  {
    var child := s.orders[i].children[j];
    var decision := if full then S.FullRefund else S.PartialRefund;
    var sale := S.Sale(child, s.books.entries);
    var id := Le.SellerOrderId(i, j);
    var recorded := S.RecordRefund(sale, id, a, Le.IssueRefund(k, full));
    if recorded.Success? {
      RefundingChild(s, i, j, ResolveIssue(k, child.version, decision, Some(a)), restock, a, Le.IssueRefund(k, full), recorded.value,
                     S.ResolveIssue(sale, id, k, child.version, decision, Some(a)).value);
    }
  }

  lemma RefundStepMeaning(s: Shop, i: nat, j: nat, a: S.RefundArgs, tag: Le.RefundTag, restock: seq<St.Line>)
    requires s.Shape() && i < |s.orders| && j < |s.orders[i].children| && !S.HasRefund(s.orders[i].children[j], tag)
    requires RefundStep(s, i, j, a, tag, restock).Success?
    ensures var t := RefundStep(s, i, j, a, tag, restock).value;
            i < |t.orders| && RO.PaymentFollowsRecords(t.orders[i]) && RO.Restocked(s.stock, t.stock, restock)
  {
    StL.RestockOutcome(s.stock, restock);
    RO.RecordedIsTotal(RefundStep(s, i, j, a, tag, restock).value.orders[i].children);
  }

  class SellerOrderService {
    const shop: OrderService

    constructor (shop: OrderService)
      ensures this.shop == shop
    {
      this.shop := shop;
    }

    /** Writes the child's new row and brings the parent's status in line. */
    method Settle(i: nat, j: nat, child: S.SellerOrder)
      requires i < |shop.orders| && j < |shop.orders[i].children|
      modifies shop`orders
      ensures var o := old(shop.orders)[i];
              shop.orders == old(shop.orders)[i := Reconcile(o.(children := o.children[j := child]))]
    {
      shop.UpdateChild(i, j, child);
      shop.ReconcileParentOrder(i);
    }

    /** Whether an actor may move a child to a status, by the list of allowed actions. */
    method CheckTransition(o: S.SellerOrder, next: S.Status, actor: Le.Actor, suspended: bool) returns (error: Option<S.Error>)
      ensures error == S.TransitionError(o, next, actor, suspended)
    {
      if actor == Le.Affiliate && o.affiliate.None? {
        return Some(S.NotAffiliate);
      }
      var allowed := S.AllowedActions(o, actor, suspended);
      if actor == Le.Affiliate {
        if next !in {S.Preparing, S.ReadyForPickup, S.PickedUp, S.Shipped} || S.ActionFor(next).value !in allowed {
          return Some(S.InvalidTransition);
        }
      } else if actor == Le.Buyer {
        if next != S.Completed || S.ConfirmReceipt !in allowed {
          return Some(S.NotConfirmable);
        }
      } else if actor == Le.System {
        if next != S.Completed || (o.status != S.Shipped && o.status != S.PickedUp) {
          return Some(S.InvalidTransition);
        }
      } else {
        if next == S.Refunded || (next == S.Cancelled && o.status != S.PendingPayment) {
          return Some(S.UseRefundFlow);
        }
        if S.ActionFor(next).None? || S.ActionFor(next).value !in allowed {
          return Some(S.InvalidTransition);
        }
      }
      error := None;
    }

    /** The update of an accepted transition: the row, the release of earnings on completion, the parent. */
    method ApplyTransition(i: nat, j: nat, next: S.Status, actor: Le.Actor, suspended: bool, now: int, days: int)
      requires i < |shop.orders| && j < |shop.orders[i].children|
      requires S.TransitionError(shop.orders[i].children[j], next, actor, suspended) == None
      modifies shop`orders, shop.ledger`entries
      ensures var o := old(shop.orders)[i];
              var c := o.children[j];
              var t := S.Transition(S.Sale(c, old(shop.ledger.entries)), Le.SellerOrderId(i, j), c.version, next, actor, suspended, now, days).value;
              shop.orders == old(shop.orders)[i := Reconcile(o.(children := o.children[j := t.order]))] && shop.ledger.entries == t.entries
    {
      var current := shop.orders[i].children[j];
      var autoCompleteAt := if next == S.Shipped || next == S.PickedUp then Some(now + Max(1, days) * S.DAY_MS) else None;
      if next == S.Completed && actor != Le.Affiliate && current.affiliate.Some? {
        shop.ledger.ReleaseAffiliateEarnings(Le.SellerOrderId(i, j), current.affiliate.value, Le.ByActor(actor, current.version));
      }
      Settle(i, j, current.(status := next, version := current.version + 1, autoCompleteAt := autoCompleteAt));
    }

    /** `transitionSellerOrder` on the rows; nothing is written when it is refused. */
    method AttemptTransition(i: nat, j: nat, expectedVersion: nat, next: S.Status, actor: Le.Actor, suspended: bool, now: int, days: int)
      returns (r: Result<(), S.Error>)
      requires i < |shop.orders| && j < |shop.orders[i].children|
      modifies shop`orders, shop.ledger`entries
      ensures var o := old(shop.orders)[i];
              match S.Transition(S.Sale(o.children[j], old(shop.ledger.entries)), Le.SellerOrderId(i, j), expectedVersion, next, actor, suspended, now, days)
              case Failure(e) => r == Failure(e) && shop.orders == old(shop.orders) && shop.ledger.entries == old(shop.ledger.entries)
              case Success(t) =>
                && r.Success? && shop.ledger.entries == t.entries
                && shop.orders == old(shop.orders)[i := Reconcile(o.(children := o.children[j := t.order]))]
    {
      var current := shop.orders[i].children[j];
      if current.version != expectedVersion {
        return Failure(S.Changed);
      }
      var error := CheckTransition(current, next, actor, suspended);
      if error.Some? {
        return Failure(error.value);
      }
      ApplyTransition(i, j, next, actor, suspended, now, days);
      r := Success(());
    }

    method TransitionSellerOrder(i: nat, j: nat, expectedVersion: nat, next: S.Status, actor: Le.Actor, suspended: bool, now: int, days: int)
      returns (r: Result<(), Error>)
      requires shop.State().Shape()
      modifies shop, shop.ledger
      ensures Committed(old(shop.State()), Child(old(shop.State()), i, j, Transition(expectedVersion, next, actor, suspended, now, days), []), r, shop.State())
      ensures I.Inv(old(shop.State())) && r.Success? ==>
                RO.ChildDone(old(shop.State()), shop.State(), i, j, Transition(expectedVersion, next, actor, suspended, now, days), [])
    {
      ghost var before := shop.State();
      if i >= |shop.orders| || j >= |shop.orders[i].children| {
        return Failure(NotFound);
      }
      QuietChild(shop.State(), i, j, Transition(expectedVersion, next, actor, suspended, now, days), []);
      var moved := AttemptTransition(i, j, expectedVersion, next, actor, suspended, now, days);
      r := if moved.Failure? then Failure(SellerOrderFailed(moved.error)) else Success(());
      RO.ChildOutcome(before, i, j, Transition(expectedVersion, next, actor, suspended, now, days), []);
    }

    method AttemptCancellation(i: nat, j: nat, affiliate: Le.AffiliateId, expectedVersion: nat) returns (r: Result<(), S.Error>)
      requires i < |shop.orders| && j < |shop.orders[i].children|
      modifies shop`orders
      ensures var o := old(shop.orders)[i];
              match S.RequestCancellation(o.children[j], affiliate, expectedVersion)
              case Failure(e) => r == Failure(e) && shop.orders == old(shop.orders)
              case Success(n) => r.Success? && shop.orders == old(shop.orders)[i := Reconcile(o.(children := o.children[j := n]))]
    {
      var current := shop.orders[i].children[j];
      if current.affiliate != Some(affiliate) {
        return Failure(S.NotFound);
      }
      if current.version != expectedVersion {
        return Failure(S.Changed);
      }
      if S.HasOpenRequest(current) || S.Closed(current.status) || current.status == S.PendingPayment {
        return Failure(S.NotCancellable);
      }
      Settle(i, j, current.(status := S.CancellationRequested, version := current.version + 1, autoCompleteAt := None,
                            requests := current.requests + [S.CancelRequest(S.Requested, current.status, current.autoCompleteAt, 1)]));
      r := Success(());
    }

    method RequestSellerCancellation(i: nat, j: nat, affiliate: Le.AffiliateId, expectedVersion: nat) returns (r: Result<(), Error>)
      requires shop.State().Shape()
      modifies shop
      ensures Committed(old(shop.State()), Child(old(shop.State()), i, j, RequestCancellation(affiliate, expectedVersion), []), r, shop.State())
      ensures I.Inv(old(shop.State())) && r.Success? ==>
                RO.ChildDone(old(shop.State()), shop.State(), i, j, RequestCancellation(affiliate, expectedVersion), [])
    {
      ghost var before := shop.State();
      if i >= |shop.orders| || j >= |shop.orders[i].children| {
        return Failure(NotFound);
      }
      QuietChild(before, i, j, RequestCancellation(affiliate, expectedVersion), []);
      var asked := AttemptCancellation(i, j, affiliate, expectedVersion);
      r := if asked.Failure? then Failure(SellerOrderFailed(asked.error)) else Success(());
      RO.ChildOutcome(before, i, j, RequestCancellation(affiliate, expectedVersion), []);
    }

    method AttemptIssue(i: nat, j: nat) returns (r: Result<(), S.Error>)
      requires i < |shop.orders| && j < |shop.orders[i].children|
      modifies shop`orders
      ensures var o := old(shop.orders)[i];
              match S.CreateIssue(o.children[j])
              case Failure(e) => r == Failure(e) && shop.orders == old(shop.orders)
              case Success(n) => r.Success? && shop.orders == old(shop.orders)[i := Reconcile(o.(children := o.children[j := n]))]
    {
      var current := shop.orders[i].children[j];
      if current.affiliate.None? {
        return Failure(S.NotFound);
      }
      if S.HasOpenIssue(current) {
        return Failure(S.IssueAlreadyOpen);
      }
      if S.Closed(current.status) {
        return Failure(S.OrderClosed);
      }
      Settle(i, j, current.(status := S.Disputed, version := current.version + 1, autoCompleteAt := None,
                            issues := current.issues + [S.Issue(true, current.status, current.autoCompleteAt)]));
      r := Success(());
    }

    method CreateBuyerIssue(i: nat, j: nat) returns (r: Result<(), Error>)
      requires shop.State().Shape()
      modifies shop
      ensures Committed(old(shop.State()), Child(old(shop.State()), i, j, OpenIssue, []), r, shop.State())
      ensures I.Inv(old(shop.State())) && r.Success? ==>
                RO.ChildDone(old(shop.State()), shop.State(), i, j, OpenIssue, [])
    {
      ghost var before := shop.State();
      if i >= |shop.orders| || j >= |shop.orders[i].children| {
        return Failure(NotFound);
      }
      QuietChild(before, i, j, OpenIssue, []);
      var filed := AttemptIssue(i, j);
      r := if filed.Failure? then Failure(SellerOrderFailed(filed.error)) else Success(());
      RO.ChildOutcome(before, i, j, OpenIssue, []);
    }

    // ---------- Refunds ----------

    method UpdatePayment(i: nat, payment: PaymentStatus)
      requires i < |shop.orders|
      modifies shop`orders
      ensures shop.orders == old(shop.orders)[i := old(shop.orders)[i].(payment := payment)]
    {
      shop.orders := shop.orders[i := shop.orders[i].(payment := payment)];
    }

    /** The writes of an accepted refund: the record, the restock, the reversal, the payment status. */
    method WriteRefund(i: nat, j: nat, a: S.RefundArgs, tag: Le.RefundTag, restock: seq<St.Line>) returns (r: Result<(), Error>)
      requires shop.State().Shape() && i < |shop.orders| && j < |shop.orders[i].children|
      requires a.amount > 0 && !S.HasRefund(shop.orders[i].children[j], tag) && S.RefundError(shop.orders[i].children[j], a) == None
      modifies shop, shop.stock, shop.ledger
      ensures var o := old(shop.orders)[i];
              var c := o.children[j];
              var record := S.RecordOf(c, a, tag);
              var t := S.ReverseIfAffiliate(S.Sale(c.(refunds := c.refunds + [record]), old(shop.ledger.entries)), Le.SellerOrderId(i, j), record.sellerDebit, tag);
              var moved := o.(children := o.children[j := t.order]);
              match St.Restock(old(shop.stock.Snapshot()), restock)
              case Failure(e) => r == Failure(StockFailed(e))
              case Success(stock) =>
                && r.Success? && shop.stock.Snapshot() == stock && shop.loyalty.Snapshot() == old(shop.loyalty.Snapshot())
                && shop.ledger.Snapshot() == old(shop.ledger.Snapshot()).(entries := t.entries)
                && shop.orders == old(shop.orders)[i := moved.(payment := PaymentAfterRefund(moved))]
    {
      var child := shop.orders[i].children[j];
      var record := S.RecordOf(child, a, tag);
      shop.UpdateChild(i, j, child.(refunds := child.refunds + [record]));
      var restocked := shop.stock.RestockLines(restock);
      if restocked.Failure? {
        return Failure(StockFailed(restocked.error));
      }
      if child.affiliate.Some? {
        shop.ledger.ReverseAffiliateLiability(Le.SellerOrderId(i, j), child.affiliate.value, record.sellerDebit, tag);
      }
      UpdatePayment(i, PaymentAfterRefund(shop.orders[i]));
      r := Success(());
    }

    method RecordAffiliateRefund(i: nat, j: nat, a: S.RefundArgs, tag: Le.RefundTag, restock: seq<St.Line>) returns (r: Result<(), Error>)
      requires shop.State().Shape() && i < |shop.orders| && j < |shop.orders[i].children|
      modifies shop, shop.stock, shop.ledger
      ensures match RefundStep(old(shop.State()), i, j, a, tag, restock)
              case Success(v) => r.Success? && shop.State() == v
              case Failure(e) => r == Failure(e)
      ensures r.Success? && !old(S.HasRefund(shop.orders[i].children[j], tag)) ==>
                i < |shop.orders| && RO.PaymentFollowsRecords(shop.orders[i]) && RO.Restocked(old(shop.stock.Snapshot()), shop.stock.Snapshot(), restock)
    {
      var child := shop.orders[i].children[j];
      if a.amount <= 0 {
        return Failure(SellerOrderFailed(S.RefundAmountInvalid));
      }
      if S.HasRefund(child, tag) {
        RestockNothing(shop.stock.Snapshot());
        assert shop.orders[i].children[j := child] == shop.orders[i].children && shop.orders[i := shop.orders[i]] == shop.orders;
        return Success(());
      }
      var error := S.RefundError(child, a);
      if error.Some? {
        return Failure(SellerOrderFailed(error.value));
      }
      ghost var before := shop.State();
      r := WriteRefund(i, j, a, tag, restock);
      if r.Success? { RefundStepMeaning(before, i, j, a, tag, restock); }
    }

    /** `refundSellerOrder`: a refund that closes the child. */
    method RefundSellerOrder(i: nat, j: nat, expectedVersion: nat, a: S.RefundArgs, restock: seq<St.Line>) returns (r: Result<(), Error>)
      requires shop.State().Shape()
      modifies shop, shop.stock, shop.loyalty, shop.ledger
      ensures Committed(old(shop.State()), Child(old(shop.State()), i, j, Refund(expectedVersion, a), restock), r, shop.State())
      ensures I.Inv(old(shop.State())) && r.Success? ==>
                RO.ChildDone(old(shop.State()), shop.State(), i, j, Refund(expectedVersion, a), restock)
    {
      if i >= |shop.orders| || j >= |shop.orders[i].children| {
        return Failure(NotFound);
      }
      var current := shop.orders[i].children[j];
      if current.version != expectedVersion {
        return Failure(SellerOrderFailed(S.Changed));
      }
      if shop.orders[i].payment == Pending || current.status == S.PendingPayment || current.status == S.Cancelled || current.status == S.Refunded {
        return Failure(SellerOrderFailed(S.NotRefundable));
      }
      var before := shop.State();
      ghost var attempt := S.RecordRefund(S.Sale(current, before.books.entries), Le.SellerOrderId(i, j), a, Le.SellerOrderRefund(current.version));
      r := RecordAffiliateRefund(i, j, a, Le.SellerOrderRefund(current.version), restock);
      if attempt.Success? {
        RefundingChild(before, i, j, Refund(expectedVersion, a), restock, a, Le.SellerOrderRefund(current.version), attempt.value,
                       attempt.value.(order := S.CloseAs(attempt.value.order, S.Refunded)));
      }
      if r.Success? {
        Settle(i, j, S.CloseAs(shop.orders[i].children[j], S.Refunded));
      }
      r := shop.Finish(before, r);
      RO.ChildOutcome(before, i, j, Refund(expectedVersion, a), restock);
    }

    // ---------- Resolutions ----------

    /** Full and partial refunds of an issue close it; a partial one completes the child and releases the rest. */
    method RefundIssue(i: nat, j: nat, k: nat, full: bool, a: S.RefundArgs, restock: seq<St.Line>) returns (r: Result<(), Error>)
      requires shop.State().Shape() && i < |shop.orders| && j < |shop.orders[i].children| && k < |shop.orders[i].children[j].issues|
      modifies shop, shop.stock, shop.ledger
      ensures match IssueRefunded(old(shop.State()), i, j, k, full, a, restock)
              case Failure(e) => r == Failure(e)
              case Success(t) => r.Success? && shop.State() == t
    {
      ghost var before := shop.State();
      r := RecordAffiliateRefund(i, j, a, Le.IssueRefund(k, full), restock);
      if r.Failure? {
        return;
      }
      IssuesKept(before, i, j, a, Le.IssueRefund(k, full), restock);
      var child := shop.orders[i].children[j];
      if !full && child.affiliate.Some? {
        shop.ledger.ReleaseAffiliateEarnings(Le.SellerOrderId(i, j), child.affiliate.value, Le.ByIssue(k));
      }
      Settle(i, j, S.CloseIssue(S.CloseAs(child, if full then S.Refunded else S.Completed), k));
    }

    /** Continuing an issue restores the child; completing it closes the child and releases its earnings. */
    method CloseIssueWithoutRefund(i: nat, j: nat, k: nat, complete: bool)
      requires i < |shop.orders| && j < |shop.orders[i].children| && k < |shop.orders[i].children[j].issues|
      modifies shop`orders, shop.ledger`entries
      ensures var o := old(shop.orders)[i];
              var c := o.children[j];
              var n := S.CloseIssue(if complete then S.CloseAs(c, S.Completed)
                                    else c.(status := c.issues[k].previousStatus, autoCompleteAt := c.issues[k].previousAutoCompleteAt, version := c.version + 1), k);
              && shop.orders == old(shop.orders)[i := Reconcile(o.(children := o.children[j := n]))]
              && shop.ledger.entries ==
                   if complete then S.ReleaseIfAffiliate(S.Sale(n, old(shop.ledger.entries)), Le.SellerOrderId(i, j), Le.ByIssue(k)).entries
                   else old(shop.ledger.entries)
    {
      var child := shop.orders[i].children[j];
      var issue := child.issues[k];
      if complete {
        if child.affiliate.Some? {
          shop.ledger.ReleaseAffiliateEarnings(Le.SellerOrderId(i, j), child.affiliate.value, Le.ByIssue(k));
        }
        Settle(i, j, S.CloseIssue(S.CloseAs(child, S.Completed), k));
      } else {
        Settle(i, j, S.CloseIssue(child.(status := issue.previousStatus, autoCompleteAt := issue.previousAutoCompleteAt, version := child.version + 1), k));
      }
    }

    /** The refunding decisions on an open issue, as one transaction. */
    method ResolveIssueByRefund(i: nat, j: nat, k: nat, full: bool, a: S.RefundArgs, restock: seq<St.Line>) returns (r: Result<(), Error>)
      requires shop.State().Shape() && i < |shop.orders| && j < |shop.orders[i].children|
      requires k < |shop.orders[i].children[j].issues| && shop.orders[i].children[j].issues[k].open
      modifies shop, shop.stock, shop.loyalty, shop.ledger
      ensures var decision := if full then S.FullRefund else S.PartialRefund;
              Committed(old(shop.State()),
                        Child(old(shop.State()), i, j, ResolveIssue(k, old(shop.orders)[i].children[j].version, decision, Some(a)), restock), r, shop.State())
    {
      var before := shop.State();
      IssueRefundIsChildStep(before, i, j, k, full, a, restock);
      r := RefundIssue(i, j, k, full, a, restock);
      r := shop.Finish(before, r);
    }

    /** The decisions on an open issue that record no refund, as one transaction. */
    method ResolveIssuePlainly(i: nat, j: nat, k: nat, decision: S.Decision, refund: Option<S.RefundArgs>, restock: seq<St.Line>)
      requires shop.State().Shape() && i < |shop.orders| && j < |shop.orders[i].children|
      requires k < |shop.orders[i].children[j].issues| && shop.orders[i].children[j].issues[k].open && decision in {S.Continue, S.CompleteIt}
      modifies shop, shop.ledger
      ensures Child(old(shop.State()), i, j, ResolveIssue(k, old(shop.orders)[i].children[j].version, decision, refund), restock) == Success(shop.State())
    {
      var child := shop.orders[i].children[j];
      PlainChild(shop.State(), i, j, ResolveIssue(k, child.version, decision, refund), restock,
                 S.ResolveIssue(S.Sale(child, shop.ledger.entries), Le.SellerOrderId(i, j), k, child.version, decision, refund).value);
      CloseIssueWithoutRefund(i, j, k, decision == S.CompleteIt);
    }

    method ResolveAffiliateIssue(i: nat, j: nat, k: nat, expectedVersion: nat, decision: S.Decision, refund: Option<S.RefundArgs>, restock: seq<St.Line>)
      returns (r: Result<(), Error>)
      requires shop.State().Shape()
      modifies shop, shop.stock, shop.loyalty, shop.ledger
      ensures Committed(old(shop.State()), Child(old(shop.State()), i, j, ResolveIssue(k, expectedVersion, decision, refund), restock), r, shop.State())
      ensures I.Inv(old(shop.State())) && r.Success? ==>
                RO.ChildDone(old(shop.State()), shop.State(), i, j, ResolveIssue(k, expectedVersion, decision, refund), restock)
    {
      RO.ChildOutcome(shop.State(), i, j, ResolveIssue(k, expectedVersion, decision, refund), restock);
      if i >= |shop.orders| || j >= |shop.orders[i].children| {
        return Failure(NotFound);
      }
      var child := shop.orders[i].children[j];
      if k >= |child.issues| {
        return Failure(SellerOrderFailed(S.NotFound));
      }
      if !child.issues[k].open || child.version != expectedVersion {
        return Failure(SellerOrderFailed(S.Changed));
      }
      if (decision == S.PartialRefund || decision == S.FullRefund) && refund.None? {
        return Failure(SellerOrderFailed(S.RefundDataRequired));
      }
      if decision == S.Continue || decision == S.CompleteIt {
        ResolveIssuePlainly(i, j, k, decision, refund, restock);
        return Success(());
      }
      r := ResolveIssueByRefund(i, j, k, decision == S.FullRefund, refund.value, restock);
    }

    /** An approved request with a refund closes the child as refunded. */
    method RefundCancellation(i: nat, j: nat, k: nat, a: S.RefundArgs, restock: seq<St.Line>) returns (r: Result<(), Error>)
      requires shop.State().Shape() && i < |shop.orders| && j < |shop.orders[i].children| && k < |shop.orders[i].children[j].requests|
      modifies shop, shop.stock, shop.ledger
      ensures match RefundStep(old(shop.State()), i, j, a, Le.CancellationRefund(k), restock)
              case Failure(e) => r == Failure(e)
              case Success(v) =>
                var n := S.CloseRequest(S.CloseAs(v.orders[i].children[j], S.Refunded), k, S.Approved);
                && r.Success?
                && shop.State() == v.(orders := v.orders[i := Reconcile(v.orders[i].(children := v.orders[i].children[j := n]))])
    {
      ghost var before := shop.State();
      r := RecordAffiliateRefund(i, j, a, Le.CancellationRefund(k), restock);
      if r.Failure? {
        return;
      }
      IssuesKept(before, i, j, a, Le.CancellationRefund(k), restock);
      Settle(i, j, S.CloseRequest(S.CloseAs(shop.orders[i].children[j], S.Refunded), k, S.Approved));
    }

    /** The approval of an open request with a refund, as one transaction. */
    method ApproveWithRefund(i: nat, j: nat, k: nat, a: S.RefundArgs, restock: seq<St.Line>) returns (r: Result<(), Error>)
      requires shop.State().Shape() && i < |shop.orders| && j < |shop.orders[i].children|
      requires k < |shop.orders[i].children[j].requests| && shop.orders[i].children[j].requests[k].status == S.Requested
      modifies shop, shop.stock, shop.loyalty, shop.ledger
      ensures Committed(old(shop.State()),
                        Child(old(shop.State()), i, j, ResolveCancellation(k, old(shop.orders)[i].children[j].requests[k].version, true, Some(a)), restock),
                        r, shop.State())
    {
      var child := shop.orders[i].children[j];
      var before := shop.State();
      ghost var sale := S.Sale(child, before.books.entries);
      ghost var id := Le.SellerOrderId(i, j);
      ghost var recorded := S.RecordRefund(sale, id, a, Le.CancellationRefund(k));
      ghost var v := child.requests[k].version;
      if recorded.Success? {
        RefundingChild(before, i, j, ResolveCancellation(k, v, true, Some(a)), restock, a, Le.CancellationRefund(k), recorded.value,
                       S.ResolveCancellation(sale, id, k, v, true, Some(a), shop.orders[i].payment in {Approved, PartiallyRefunded}).value);
      }
      r := RefundCancellation(i, j, k, a, restock);
      r := shop.Finish(before, r);
    }

    /** The rejection of an open request, or its approval without a refund, as one transaction. */
    method ResolveCancellationPlainly(i: nat, j: nat, k: nat, approve: bool, refund: Option<S.RefundArgs>, restock: seq<St.Line>)
      requires shop.State().Shape() && i < |shop.orders| && j < |shop.orders[i].children|
      requires k < |shop.orders[i].children[j].requests| && shop.orders[i].children[j].requests[k].status == S.Requested
      requires approve ==> refund.None? && shop.orders[i].payment !in {Approved, PartiallyRefunded}
      modifies shop, shop.ledger
      ensures var v := old(shop.orders)[i].children[j].requests[k].version;
              Child(old(shop.State()), i, j, ResolveCancellation(k, v, approve, refund), restock) == Success(shop.State())
    {
      var child := shop.orders[i].children[j];
      var request := child.requests[k];
      PlainChild(shop.State(), i, j, ResolveCancellation(k, request.version, approve, refund), restock,
                 S.ResolveCancellation(S.Sale(child, shop.ledger.entries), Le.SellerOrderId(i, j), k, request.version, approve, refund,
                                       shop.orders[i].payment in {Approved, PartiallyRefunded}).value);
      Settle(i, j, if approve then S.CloseRequest(S.CloseAs(child, S.Cancelled), k, S.Approved)
                   else S.CloseRequest(child.(status := request.previousStatus, autoCompleteAt := request.previousAutoCompleteAt,
                                              version := child.version + 1), k, S.Rejected));
    }

    method ResolveSellerCancellation(i: nat, j: nat, k: nat, expectedVersion: nat, approve: bool, refund: Option<S.RefundArgs>, restock: seq<St.Line>)
      returns (r: Result<(), Error>)
      requires shop.State().Shape()
      modifies shop, shop.stock, shop.loyalty, shop.ledger
      ensures Committed(old(shop.State()), Child(old(shop.State()), i, j, ResolveCancellation(k, expectedVersion, approve, refund), restock), r, shop.State())
      ensures I.Inv(old(shop.State())) && r.Success? ==>
                RO.ChildDone(old(shop.State()), shop.State(), i, j, ResolveCancellation(k, expectedVersion, approve, refund), restock)
    {
      RO.ChildOutcome(shop.State(), i, j, ResolveCancellation(k, expectedVersion, approve, refund), restock);
      if i >= |shop.orders| || j >= |shop.orders[i].children| {
        return Failure(NotFound);
      }
      var child := shop.orders[i].children[j];
      if k >= |child.requests| {
        return Failure(SellerOrderFailed(S.NotFound));
      }
      var request := child.requests[k];
      if request.status != S.Requested || request.version != expectedVersion {
        return Failure(SellerOrderFailed(S.Changed));
      }
      var payment := shop.orders[i].payment;
      if approve && (payment == Approved || payment == PartiallyRefunded) && refund.None? {
        return Failure(SellerOrderFailed(S.RefundDataRequired));
      }
      if !approve || refund.None? {
        ResolveCancellationPlainly(i, j, k, approve, refund, restock);
        return Success(());
      }
      r := ApproveWithRefund(i, j, k, refund.value, restock);
    }
  }
}
