/** Every admissible transaction keeps the invariant of the shop. */
module OrderLaws {
  import opened Wrappers
  import opened ParentStatus
  import opened Orders
  import opened OrderInvariant
  import De = Detours
  import Le = Ledger
  import LeL = LedgerLaws
  import Lo = Loyalty
  import LoL = LoyaltyLaws
  import S = SellerOrders
  import SL = SellerOrderLaws
  import St = Stock
  import StL = StockLaws

  // ---------- The ledger grows by entries of one family ----------

  ghost predicate Grows(before: seq<Le.Entry>, after: seq<Le.Entry>, i: nat, n: nat) {
    && |after| >= |before| && after[..|before|] == before
    && (forall e <- after[|before|..] :: Le.SaleEntryOk(e) && e.key.seller.order == i && e.key.seller.index < n)
    && (Le.UniqueKeys(before) ==> Le.UniqueKeys(after))
  }

  lemma GrowsTrans(a: seq<Le.Entry>, b: seq<Le.Entry>, c: seq<Le.Entry>, i: nat, n: nat)
    requires Grows(a, b, i, n) && Grows(b, c, i, n)
    ensures Grows(a, c, i, n)
  {
  }

  lemma OwnedByInv(b: Le.Books)
    requires Le.Inv(b)
    ensures SL.Owned(b.entries)
  {
  }

  lemma GrowsOwned(before: seq<Le.Entry>, after: seq<Le.Entry>, i: nat, n: nat)
    requires Grows(before, after, i, n) && SL.Owned(before)
    ensures SL.Owned(after)
  {
  }

  /** One child's step leaves its siblings as valid as they were. */
  lemma FamilyStep(i: nat, f: Family, k: nat, t: S.Sale)
    requires FamilyOk(i, f.children, f.entries) && SL.Owned(f.entries) && k < |f.children|
    requires SL.Step(S.Sale(f.children[k], f.entries), t, Le.SellerOrderId(i, k)) && De.Sound(t.order) && S.RefundsOk(t.order)
    ensures FamilyOk(i, f.children[k := t.order], t.entries) && Grows(f.entries, t.entries, i, |f.children|)
  {
    var id := Le.SellerOrderId(i, k);
    forall j | 0 <= j < |f.children| ensures ChildOk(f.children[k := t.order][j], Le.SellerOrderId(i, j), t.entries) {
      if j != k {
        assert ChildOk(f.children[j], Le.SellerOrderId(i, j), f.entries);
        SL.OthersKeepInv(f.children[j], Le.SellerOrderId(i, j), f.entries, t.entries);
      }
    }
  }

  // ---------- What an order does to all its children ----------

  /** The new row of a child does not depend on the ledger. */
  ghost function Row(op: ParentOp, o: S.SellerOrder): S.SellerOrder {
    match op
    case Accredit => if o.status == S.PendingPayment then o.(status := S.Paid, version := o.version + 1) else o
    case Close => S.CloseUnpaid(o)
    case RefundAll => if o.status in {S.Cancelled, S.Refunded} then o else S.CloseAs(o, S.Refunded).(parentRefunded := true)
  }

  lemma AffectsRow(op: ParentOp, s: S.Sale, id: Le.SellerOrderId)
    ensures Affect(op, s, id).order == Row(op, s.order)
  {
  }

  lemma AffectKeeps(op: ParentOp, s: S.Sale, id: Le.SellerOrderId)
    requires ChildOk(s.order, id, s.entries) && SL.Owned(s.entries)
    ensures SL.Step(s, Affect(op, s, id), id) && De.Sound(Affect(op, s, id).order) && S.RefundsOk(Affect(op, s, id).order)
    ensures Affect(op, s, id).order == Row(op, s.order)
  {
    AffectsRow(op, s, id);
    De.ParentKeepsSound(s, id);
    SL.SameRefunds(s.order, Row(op, s.order));
    match op
    case Accredit => SL.AccreditKeepsInv(s, id);
    case Close => SL.CloseUnpaidKeepsInv(s.order, id, s.entries);
    case RefundAll => SL.RefundWithParentKeepsInv(s, id);
  }

  lemma OnceKeeps(op: ParentOp, i: nat, g: Family, k: nat)
    requires FamilyOk(i, g.children, g.entries) && SL.Owned(g.entries) && k < |g.children|
    ensures var h := Once(op, i, g, k);
            && FamilyOk(i, h.children, h.entries) && SL.Owned(h.entries)
            && Grows(g.entries, h.entries, i, |g.children|) && h.children == g.children[k := Row(op, g.children[k])]
  {
    var id := Le.SellerOrderId(i, k);
    assert ChildOk(g.children[k], id, g.entries);
    AffectKeeps(op, S.Sale(g.children[k], g.entries), id);
    var t := Affect(op, S.Sale(g.children[k], g.entries), id);
    FamilyStep(i, g, k, t);
    GrowsOwned(g.entries, t.entries, i, |g.children|);
  }

  lemma RefundWritesNoCredit(s: S.Sale, id: Le.SellerOrderId)
    requires ChildOk(s.order, id, s.entries) && SL.Owned(s.entries)
    ensures var t := S.RefundWithParent(s, id);
            forall e <- t.entries :: e.key.SaleKey? ==> e in s.entries
  {
    var t := S.RefundWithParent(s, id);
    if t.entries != s.entries {
      var a := s.order.affiliate.value;
      var tag := Le.ParentRefund(id.order);
      SL.FreshRefundOf(s.order, id, s.entries, tag);
      LeL.ReversalAppends(s.entries, id, a, s.order.net, tag);
      LeL.ReversalKeys(Le.Split(s.entries, id, a, s.order.net), id, a, tag);
    }
  }

  /** Only accreditation writes credits. */
  lemma OnceWritesNoCredit(op: ParentOp, i: nat, g: Family, k: nat)
    requires FamilyOk(i, g.children, g.entries) && SL.Owned(g.entries) && k < |g.children|
    ensures op != Accredit && NoCredit(g.entries, i) ==> NoCredit(Once(op, i, g, k).entries, i)
  {
    var id := Le.SellerOrderId(i, k);
    assert ChildOk(g.children[k], id, g.entries);
    if op == RefundAll { RefundWritesNoCredit(S.Sale(g.children[k], g.entries), id); }
  }

  /** The family once the first `n` children have been affected. */
  ghost predicate Affected(op: ParentOp, i: nat, f: Family, g: Family, n: nat) {
    && FamilyOk(i, g.children, g.entries) && SL.Owned(g.entries)
    && Grows(f.entries, g.entries, i, |f.children|) && |g.children| == |f.children|
    && (forall k | 0 <= k < |f.children| :: g.children[k] == if k < n then Row(op, f.children[k]) else f.children[k])
    && (op != Accredit && NoCredit(f.entries, i) ==> NoCredit(g.entries, i))
  }

  lemma AffectedNext(op: ParentOp, i: nat, f: Family, g: Family, k: nat)
    requires Affected(op, i, f, g, k) && k < |f.children|
    ensures Affected(op, i, f, Once(op, i, g, k), k + 1)
  {
    OnceKeeps(op, i, g, k);
    OnceWritesNoCredit(op, i, g, k);
    GrowsTrans(f.entries, g.entries, Once(op, i, g, k).entries, i, |f.children|);
  }

  lemma NoneAffected(op: ParentOp, i: nat, f: Family)
    requires FamilyOk(i, f.children, f.entries) && SL.Owned(f.entries)
    ensures Affected(op, i, f, f, 0)
  {
    assert f.entries[|f.entries|..] == [];
  }

  lemma {:induction false} EachKeeps(op: ParentOp, i: nat, f: Family, n: nat)
    requires FamilyOk(i, f.children, f.entries) && SL.Owned(f.entries) && n <= |f.children|
    ensures Affected(op, i, f, Each(op, i, f, n), n)
  {
    if n == 0 {
      NoneAffected(op, i, f);
    } else {
      EachKeeps(op, i, f, n - 1);
      AffectedNext(op, i, f, Each(op, i, f, n - 1), n - 1);
    }
  }

  // ---------- A transaction on one order ----------

  ghost predicate SameIdentity(o: Order, n: Order) {
    && n.user == o.user && n.number == o.number && n.key == o.key && n.hash == o.hash && n.payMethod == o.payMethod
    && n.total == o.total && n.providerAmount == o.providerAmount && n.expiresAt == o.expiresAt && |n.children| == |o.children|
  }

  ghost predicate SamePoints(l: Lo.Loyalty, m: Lo.Loyalty, i: nat) {
    && |m.orders| == |l.orders|
    && (forall j | 0 <= j < |l.orders| && j != i :: m.orders[j] == l.orders[j] && Lo.PhaseOf(m, j) == Lo.PhaseOf(l, j))
    && (i < |l.orders| ==> m.orders[i].user == l.orders[i].user && m.orders[i].redeemed == l.orders[i].redeemed && m.orders[i].earned == l.orders[i].earned)
  }

  /** A row keeps its product and quantity, is never active again, and once consumed never changes. */
  ghost predicate RowsMove(before: seq<St.Reservation>, after: seq<St.Reservation>) {
    && |after| == |before|
    && forall k | 0 <= k < |before| ::
         && after[k].product == before[k].product && after[k].quantity == before[k].quantity
         && (before[k].consumed ==> after[k] == before[k])
         && (after[k].Standing() == St.Active ==> before[k].Standing() == St.Active)
  }

  ghost predicate SameRows(s: St.Stock, t: St.Stock, i: nat) {
    && |t.reservations| == |s.reservations|
    && (forall j | 0 <= j < |s.reservations| && j != i :: t.reservations[j] == s.reservations[j])
    && (i < |s.reservations| ==> RowsMove(s.reservations[i], t.reservations[i]))
  }

  /** `t` differs from `s` only in what belongs to order `i`. */
  ghost predicate Turn(s: Shop, t: Shop, i: nat) {
    && s.Shape() && t.Shape() && i < |s.orders| == |t.orders|
    && (forall j | 0 <= j < |s.orders| && j != i :: t.orders[j] == s.orders[j])
    && SameIdentity(s.orders[i], t.orders[i])
    && SameRows(s.stock, t.stock, i)
    && SamePoints(s.loyalty, t.loyalty, i)
    && t.books.payouts == s.books.payouts
    && Grows(s.books.entries, t.books.entries, i, |s.orders[i].children|)
  }

  lemma OtherOrderOk(s: Shop, t: Shop, i: nat, j: nat)
    requires Inv(s) && Turn(s, t, i) && j < |s.orders| && j != i
    ensures OrderOk(t, j)
  {
    assert OrderOk(s, j);
    var stage :| InStage(s, j, stage);
    var o := s.orders[j];
    var es := t.books.entries[|s.books.entries|..];
    assert t.books.entries == s.books.entries + es;
    forall k | 0 <= k < |o.children| ensures ChildOk(o.children[k], Le.SellerOrderId(j, k), t.books.entries) {
      assert ChildOk(o.children[k], Le.SellerOrderId(j, k), s.books.entries);
      SL.OthersKeepInv(o.children[k], Le.SellerOrderId(j, k), s.books.entries, t.books.entries);
    }
    assert InStage(t, j, stage);
  }

  lemma TurnKeepsLedger(s: Shop, t: Shop, i: nat)
    requires Inv(s) && Turn(s, t, i)
    ensures LedgerOk(t)
  {
    var es := t.books.entries[|s.books.entries|..];
    assert t.books.entries == s.books.entries + es;
    LeL.SaleEntriesKeepInv(s.books, es);
    assert t.books == s.books.(entries := s.books.entries + es);
    forall e | e in t.books.entries && !e.key.PayoutKey?
      ensures e.key.seller.order < |t.orders| && e.key.seller.index < |t.orders[e.key.seller.order].children|
    {
      if e in es {} else { assert e in s.books.entries; }
    }
  }

  /** A transaction that leaves its order valid leaves the shop valid. */
  lemma TurnKeepsInv(s: Shop, t: Shop, i: nat)
    requires Inv(s) && Turn(s, t, i) && St.Inv(t.stock) && Lo.Inv(t.loyalty) && OrderOk(t, i)
    ensures Inv(t)
  {
    TurnKeepsLedger(s, t, i);
    forall j | 0 <= j < |t.orders| ensures OrderOk(t, j) {
      if j != i { OtherOrderOk(s, t, i, j); }
    }
    forall j, k | 0 <= j < k < |t.orders| ensures !(t.orders[j].user == t.orders[k].user && t.orders[j].key == t.orders[k].key) {
      assert !(s.orders[j].user == s.orders[k].user && s.orders[j].key == s.orders[k].key);
    }
  }

  // ---------- Rows ----------

  lemma RowsAfter(rows: seq<St.Reservation>, pass: St.Pass, from: St.Standing)
    requires St.All(rows, from)
    ensures St.Selects(pass, from) ==> St.All(St.MarkAll(rows, pass), if pass == St.Release then St.Released else St.Consumed)
    ensures !St.Selects(pass, from) ==> St.MarkAll(rows, pass) == rows
  {
  }

  /** A release is always possible and releases what is active. */
  lemma ReleaseStockFacts(s: St.Stock, i: nat, checked: bool)
    requires St.Inv(s) && i < |s.reservations|
    ensures ReleaseStock(s, i, checked) == Success(St.AfterPass(s, i, St.Release))
    ensures St.Inv(St.AfterPass(s, i, St.Release)) && SameRows(s, St.AfterPass(s, i, St.Release), i)
  {
    StL.ReleaseLoopsAgree(s, i);
    StL.PassKeepsInv(s, i, St.Release);
  }

  // ---------- Stages ----------

  lemma PendingIsOpen(s: Shop, i: nat)
    requires Inv(s) && i < |s.orders| && IsPaymentPending(s.orders[i].status)
    ensures InStage(s, i, Open)
  {
    assert OrderOk(s, i);
  }

  /** What one operation does to the children of an order, as a whole. */
  lemma AllKeeps(s: Shop, i: nat, op: ParentOp)
    requires Inv(s) && i < |s.orders|
    ensures var o := s.orders[i];
            var f := All(op, i, o.children, s.books.entries);
            && FamilyOk(i, f.children, f.entries) && Grows(s.books.entries, f.entries, i, |o.children|) && |f.children| == |o.children|
            && (forall k | 0 <= k < |o.children| :: f.children[k] == Row(op, o.children[k]))
            && (op != Accredit && NoCredit(s.books.entries, i) ==> NoCredit(f.entries, i))
  {
    var o := s.orders[i];
    OwnedByInv(s.books);
    assert OrderOk(s, i);
    EachKeeps(op, i, Family(o.children, s.books.entries), |o.children|);
  }

  lemma AllRows(s: Shop, i: nat, op: ParentOp)
    requires Inv(s) && i < |s.orders|
    ensures var o := s.orders[i];
            var children := All(op, i, o.children, s.books.entries).children;
            |children| == |o.children| && forall k | 0 <= k < |o.children| :: children[k] == Row(op, o.children[k])
  {
    AllKeeps(s, i, op);
  }

  /** An order in a stage, with its family valid, is valid. */
  lemma StageMakesOk(s: Shop, i: nat, stage: Stage)
    requires s.Shape() && i < |s.orders| && InStage(s, i, stage)
    requires s.stock.reservations[i] != [] && s.orders[i].children != [] && s.loyalty.orders[i].user == s.orders[i].user
    requires FamilyOk(i, s.orders[i].children, s.books.entries)
    ensures OrderOk(s, i)
  {
  }

  /** The parts of a transaction on order `i` put together: its rows, its points, its row and its family. */
  lemma AssembledKeepsInv(s: Shop, i: nat, op: ParentOp, o: Order, stock: St.Stock, loyalty: Lo.Loyalty, next: Stage)
    requires Inv(s) && i < |s.orders| && SameIdentity(s.orders[i], o)
    requires o.children == All(op, i, s.orders[i].children, s.books.entries).children
    requires St.Inv(stock) && SameRows(s.stock, stock, i) && stock.reservations[i] != [] && RowsFit(stock.reservations[i], next)
    requires Lo.Inv(loyalty) && SamePoints(s.loyalty, loyalty, i) && PointsFit(loyalty, i, next)
    requires StatusFits(o.status, next) && ChildrenFit(o, next) && PaymentFits(o, next)
    requires next != Taken ==> op != Accredit && NoCredit(s.books.entries, i)
    ensures var entries := All(op, i, s.orders[i].children, s.books.entries).entries;
            var t := Shop(stock, loyalty, s.books.(entries := entries), s.orders[i := o]);
            Turn(s, t, i) && Inv(t) && InStage(t, i, next)
  {
    assert OrderOk(s, i);
    AllKeeps(s, i, op);
    var entries := All(op, i, s.orders[i].children, s.books.entries).entries;
    var t := Shop(stock, loyalty, s.books.(entries := entries), s.orders[i := o]);
    assert InStage(t, i, next);
    StageMakesOk(t, i, next);
    TurnKeepsInv(s, t, i);
  }

  // ---------- Giving up ----------

  /** Giving up an open order never fails: rows, points and children are all released. */
  lemma GiveUpKeepsInv(s: Shop, i: nat, o: Order, checked: bool)
    requires Inv(s) && i < |s.orders| && InStage(s, i, Open)
    requires SameIdentity(s.orders[i], o) && o.children == s.orders[i].children && o.status in {Cancelled, Expired}
    ensures GiveUp(s, i, o, checked).Success?
    ensures var t := GiveUp(s, i, o, checked).value; Turn(s, t, i) && Inv(t) && InStage(t, i, Released) && t.orders[i].status == o.status
  {
    assert OrderOk(s, i);
    ReleaseStockFacts(s.stock, i, checked);
    RowsAfter(s.stock.reservations[i], St.Release, St.Active);
    ReleasedPoints(s.loyalty, i);
    var n := o.(children := All(Close, i, o.children, s.books.entries).children);
    ClosedChildren(s, i, n);
    AssembledKeepsInv(s, i, Close, n, St.AfterPass(s.stock, i, St.Release), Lo.Release(s.loyalty, i).value, Released);
  }

  lemma ClosedChildren(s: Shop, i: nat, n: Order)
    requires Inv(s) && i < |s.orders| && ChildrenPending(s.orders[i])
    requires n.children == All(Close, i, s.orders[i].children, s.books.entries).children && NoDetours(s.orders[i])
    ensures ChildrenClosed(n) && NoDetours(n)
  {
    AllRows(s, i, Close);
    forall c | c in n.children ensures c.status in {S.Cancelled, S.Refunded} && c.issues == [] && c.requests == [] {
      var k :| 0 <= k < |n.children| && n.children[k] == c;
      assert s.orders[i].children[k] in s.orders[i].children;
    }
  }

  lemma ReleasedPoints(l: Lo.Loyalty, i: nat)
    requires Lo.Inv(l) && i < |l.orders| && Lo.PhaseOf(l, i) == Lo.Open
    ensures Lo.Release(l, i).Success? && Lo.Inv(Lo.Release(l, i).value)
    ensures SamePoints(l, Lo.Release(l, i).value, i) && PointsFit(Lo.Release(l, i).value, i, Released)
  {
    LoL.ReleaseKeepsInv(l, i);
    assert Lo.OrderOk(l, i);
  }

  // ---------- Taking the stock ----------

  /** The status of an order whose children are all past payment. */
  lemma ReconciledStatus(o: Order)
    requires o.children != [] && NoChildPending(o)
    ensures var n := Reconcile(o);
            && n == o.(status := n.status, version := n.version)
            && Next(Statuses(o.children)) == Some(n.status)
            && n.status !in {PendingPayment, PaymentReview, Expired, PaymentRequiresReview, RefundRecorded}
  {
  }

  lemma AccreditedChildren(s: Shop, i: nat, o: Order)
    requires Inv(s) && i < |s.orders| && o.children == All(Accredit, i, s.orders[i].children, s.books.entries).children
    ensures NoChildPending(o) && o.children != []
  {
    assert OrderOk(s, i);
    AllKeeps(s, i, Accredit);
    forall c | c in o.children ensures c.status != S.PendingPayment {
      var k :| 0 <= k < |o.children| && o.children[k] == c;
    }
  }

  lemma SettledPoints(l: Lo.Loyalty, i: nat)
    requires Lo.Inv(l) && i < |l.orders| && Lo.Settle(l, i).Success?
    ensures var m := Lo.Settle(l, i).value; Lo.Inv(m) && SamePoints(l, m, i) && PointsFit(m, i, Taken)
  {
    LoL.SettleKeepsInv(l, i);
    LoL.EnsuredKeepsInv(l, l.orders[i].user);
  }

  /** Once the rows are consumed and the points settle, the order is taken and its children are accredited. */
  lemma AcceptKeepsInv(s: Shop, i: nat, o: Order, stock: St.Stock)
    requires Inv(s) && i < |s.orders| && SameIdentity(s.orders[i], o) && o.children == s.orders[i].children
    requires St.Inv(stock) && SameRows(s.stock, stock, i) && stock.reservations[i] != [] && St.All(stock.reservations[i], St.Consumed)
    requires Accept(s, i, o, stock).Success?
    ensures var t := Accept(s, i, o, stock).value;
            && Turn(s, t, i) && Inv(t) && InStage(t, i, Taken)
            && Next(Statuses(t.orders[i].children)) == Some(t.orders[i].status)
            && t.orders[i].status !in {PaymentRequiresReview, RefundRecorded}
            && t.stock == stock
            && (forall k | 0 <= k < |o.children| :: t.orders[i].children[k] == Row(Accredit, o.children[k]))
  {
    assert OrderOk(s, i);
    SettledPoints(s.loyalty, i);
    var n := o.(children := All(Accredit, i, o.children, s.books.entries).children);
    AccreditedChildren(s, i, n);
    ReconciledStatus(n);
    AssembledKeepsInv(s, i, Accredit, Reconcile(n), stock, Lo.Settle(s.loyalty, i).value, Taken);
    AllKeeps(s, i, Accredit);
  }

  /** The rows of an open order are consumed alike by a transfer approval, a provider approval and a late fulfilment. */
  lemma OpenRowsConsumed(s: Shop, i: nat)
    requires Inv(s) && i < |s.orders| && InStage(s, i, Open)
    ensures var stock := St.AfterPass(s.stock, i, St.Consume);
            && St.ConsumeOrderGuarded(s.stock, i) == St.ConsumeOnApproval(s.stock, i) == St.FulfillLateOrder(s.stock, i) == Success(stock)
            && St.Inv(stock) && SameRows(s.stock, stock, i) && stock.reservations[i] != [] && St.All(stock.reservations[i], St.Consumed)
  {
    assert OrderOk(s, i);
    StL.ConsumeLoopsAgree(s.stock, i);
    StL.PassKeepsInv(s.stock, i, St.Consume);
    RowsAfter(s.stock.reservations[i], St.Consume, St.Active);
  }

  /** Points that are held always settle. */
  lemma OpenPointsSettle(s: Shop, i: nat)
    requires Inv(s) && i < |s.orders| && InStage(s, i, Open)
    ensures Lo.Settle(s.loyalty, i).Success?
  {
    LoL.SettleSucceedsIff(s.loyalty, i);
  }

  lemma LateRowsConsumed(s: Shop, i: nat, stage: Stage)
    requires Inv(s) && i < |s.orders| && InStage(s, i, stage) && St.FulfillLateOrder(s.stock, i).Success?
    ensures var stock := St.FulfillLateOrder(s.stock, i).value;
            St.Inv(stock) && SameRows(s.stock, stock, i) && stock.reservations[i] != [] && St.All(stock.reservations[i], St.Consumed)
  {
    assert OrderOk(s, i);
    StL.PassKeepsInv(s.stock, i, St.Late);
    LateMarks(s.stock.reservations[i], stage);
  }

  lemma LateMarks(rows: seq<St.Reservation>, stage: Stage)
    requires RowsFit(rows, stage)
    ensures St.All(St.MarkAll(rows, St.Late), St.Consumed) && RowsMove(rows, St.MarkAll(rows, St.Late))
  {
    match stage
    case Released => RowsAfter(rows, St.Late, St.Released);
    case Taken => RowsAfter(rows, St.Late, St.Consumed);
    case _ => RowsAfter(rows, St.Late, St.Active);
  }

  // ---------- Changes of status and payment columns ----------

  /** A new status or payment column that still fits the order's stage keeps the shop valid. */
  lemma ColumnsKeepInv(s: Shop, i: nat, o: Order, stage: Stage)
    requires Inv(s) && i < |s.orders| && InStage(s, i, stage)
    requires SameIdentity(s.orders[i], o) && o.children == s.orders[i].children
    requires StatusFits(o.status, stage) && (o.status == RefundRecorded ==> s.orders[i].status == RefundRecorded)
    requires PaymentFits(o, stage)
    ensures var t := s.(orders := s.orders[i := o]); Turn(s, t, i) && Inv(t) && InStage(t, i, stage)
  {
    assert OrderOk(s, i);
    var t := s.(orders := s.orders[i := o]);
    assert s.books.entries[|s.books.entries|..] == [];
    assert InStage(t, i, stage);
    StageMakesOk(t, i, stage);
    TurnKeepsInv(s, t, i);
  }

  lemma ReviewKeepsInv(s: Shop, i: nat, o: Order)
    requires Inv(s) && i < |s.orders| && o == s.orders[i].(payment := o.payment) && o.payMethod == MercadoPago
    ensures Turn(s, s.(orders := s.orders[i := MoveToPaymentReview(o)]), i) && Inv(s.(orders := s.orders[i := MoveToPaymentReview(o)]))
    ensures Turn(s, s.(orders := s.orders[i := o]), i) && Inv(s.(orders := s.orders[i := o]))
  {
    assert OrderOk(s, i);
    var stage :| InStage(s, i, stage);
    ColumnsKeepInv(s, i, MoveToPaymentReview(o), stage);
    ColumnsKeepInv(s, i, o, stage);
  }

  // ---------- Refunds of the whole order ----------

  lemma RefundedChildren(s: Shop, i: nat, n: Order)
    requires Inv(s) && i < |s.orders| && n.children == All(RefundAll, i, s.orders[i].children, s.books.entries).children
    ensures ChildrenClosed(n) && (NoDetours(s.orders[i]) ==> NoDetours(n))
  {
    AllRows(s, i, RefundAll);
    forall c | c in n.children ensures c.status in {S.Cancelled, S.Refunded} && (NoDetours(s.orders[i]) ==> c.issues == [] && c.requests == []) {
      var k :| 0 <= k < |n.children| && n.children[k] == c;
      assert s.orders[i].children[k] in s.orders[i].children;
    }
  }

  /** Reversing points keeps an order in its stage: only settled points have anything to give back. */
  lemma ReversedPoints(l: Lo.Loyalty, i: nat, stage: Stage)
    requires Lo.Inv(l) && i < |l.orders| && PointsFit(l, i, stage)
    ensures Lo.Inv(Lo.Reverse(l, i)) && SamePoints(l, Lo.Reverse(l, i), i) && PointsFit(Lo.Reverse(l, i), i, stage)
  {
    LoL.ReverseKeepsInv(l, i);
    LoL.EnsuredKeepsInv(l, l.orders[i].user);
  }

  /** The shop after a refund of order `i`, given what became of its rows and points. */
  function AfterRefund(s: Shop, i: nat, o: Order, stock: St.Stock, loyalty: Lo.Loyalty): Shop
    requires i < |s.orders|
  {
    var f := All(RefundAll, i, o.children, s.books.entries);
    Shop(stock, loyalty, s.books.(entries := f.entries), s.orders[i := o.(children := f.children)])
  }

  lemma AfterRefundKeepsInv(s: Shop, i: nat, o: Order, stock: St.Stock, loyalty: Lo.Loyalty, stage: Stage, next: Stage)
    requires Inv(s) && i < |s.orders| && InStage(s, i, stage) && next != Open && (next == Taken <==> stage == Taken)
    requires SameIdentity(s.orders[i], o) && o.children == s.orders[i].children && o.status == RefundRecorded && PaymentFits(o, next)
    requires St.Inv(stock) && SameRows(s.stock, stock, i) && stock.reservations[i] != [] && RowsFit(stock.reservations[i], next)
    requires Lo.Inv(loyalty) && SamePoints(s.loyalty, loyalty, i) && PointsFit(loyalty, i, next)
    ensures var t := AfterRefund(s, i, o, stock, loyalty); Turn(s, t, i) && Inv(t) && InStage(t, i, next) && ChildrenClosed(t.orders[i])
  {
    assert OrderOk(s, i);
    var n := o.(children := All(RefundAll, i, o.children, s.books.entries).children);
    RefundedChildren(s, i, n);
    AssembledKeepsInv(s, i, RefundAll, n, stock, loyalty, next);
  }

  /** The back office's full refund keeps the shop valid; a refunded open order keeps its rows reserved. */
  lemma FullRefundKeepsInv(s: Shop, i: nat, expectedVersion: nat)
    requires Inv(s) && RecordFullRefund(s, i, expectedVersion).Success?
    ensures var t := RecordFullRefund(s, i, expectedVersion).value;
            && Turn(s, t, i) && Inv(t) && t.orders[i].status == RefundRecorded && ChildrenClosed(t.orders[i])
            && t.stock == s.stock && (InStage(s, i, Open) ==> InStage(t, i, Leaked))
  {
    assert OrderOk(s, i);
    var stage := Open;
    if !InStage(s, i, Open) { stage :| InStage(s, i, stage); }
    FullRefundInStage(s, i, expectedVersion, stage);
  }

  lemma FullRefundInStage(s: Shop, i: nat, expectedVersion: nat, stage: Stage)
    requires Inv(s) && RecordFullRefund(s, i, expectedVersion).Success? && InStage(s, i, stage)
    ensures var t := RecordFullRefund(s, i, expectedVersion).value;
            && Turn(s, t, i) && Inv(t) && t.orders[i].status == RefundRecorded && ChildrenClosed(t.orders[i])
            && t.stock == s.stock && InStage(t, i, if stage == Open then Leaked else stage)
  {
    assert OrderOk(s, i);
    var next := if stage == Open then Leaked else stage;
    ReversedPoints(s.loyalty, i, stage);
    AfterRefundKeepsInv(s, i, WithStatus(s.orders[i], RefundRecorded).(payment := Refunded, fullRefund := true),
                        s.stock, Lo.Reverse(s.loyalty, i), stage, next);
  }

  lemma ReleaseForRefund(s: Shop, i: nat, stage: Stage)
    requires Inv(s) && i < |s.orders| && InStage(s, i, stage)
    ensures St.ReleaseOrder(s.stock, i) == Success(St.AfterPass(s.stock, i, St.Release))
    ensures St.Inv(St.AfterPass(s.stock, i, St.Release)) && SameRows(s.stock, St.AfterPass(s.stock, i, St.Release), i)
    ensures St.AfterPass(s.stock, i, St.Release).reservations[i] != []
    ensures RowsFit(St.AfterPass(s.stock, i, St.Release).reservations[i], if stage == Taken then Taken else Released)
  {
    assert OrderOk(s, i);
    ReleaseStockFacts(s.stock, i, false);
    var rows := s.stock.reservations[i];
    match stage
    case Released => RowsAfter(rows, St.Release, St.Released);
    case Taken => RowsAfter(rows, St.Release, St.Consumed);
    case _ => RowsAfter(rows, St.Release, St.Active);
  }

  lemma RefundPoints(l: Lo.Loyalty, i: nat, stage: Stage)
    requires Lo.Inv(l) && i < |l.orders| && PointsFit(l, i, stage)
    ensures Lo.Release(l, i).Success?
    ensures var m := Lo.Reverse(Lo.Release(l, i).value, i);
            Lo.Inv(m) && SamePoints(l, m, i) && PointsFit(m, i, if stage == Taken then Taken else Released)
  {
    LoL.ReleaseKeepsInv(l, i);
    var r := Lo.Release(l, i).value;
    assert Lo.OrderOk(l, i);
    ReversedPoints(r, i, if stage == Taken then Taken else Released);
  }

  /** A provider refund releases what is still reserved, gives points back and closes the children; it never fails. */
  lemma ProviderRefundKeepsInv(s: Shop, i: nat, o: Order)
    requires Inv(s) && i < |s.orders| && SameIdentity(s.orders[i], o) && o.children == s.orders[i].children && o.status == s.orders[i].status
    ensures ProviderRefunded(s, i, o).Success?
    ensures var t := ProviderRefunded(s, i, o).value;
            && Turn(s, t, i) && Inv(t) && t.orders[i].status == RefundRecorded && (InStage(t, i, Released) || InStage(t, i, Taken))
  {
    assert OrderOk(s, i);
    var stage :| InStage(s, i, stage);
    var next := if stage == Taken then Taken else Released;
    ReleaseForRefund(s, i, stage);
    RefundPoints(s.loyalty, i, stage);
    AfterRefundKeepsInv(s, i, if o.status != RefundRecorded then WithStatus(o, RefundRecorded) else o,
                        St.AfterPass(s.stock, i, St.Release), Lo.Reverse(Lo.Release(s.loyalty, i).value, i), stage, next);
  }
}
