/** The transactions of an order, run against the tables: row by row, rolled back when one of them throws. */
module OrderService {
  import opened Wrappers
  import opened ParentStatus
  import opened Orders
  import C = Checkout
  import CL = CheckoutLaws
  import CLo = CheckoutLoops
  import I = OrderInvariant
  import OC = OrderCreation
  import OO = OrderOutcomes
  import OL = OrderLaws
  import Le = Ledger
  import LeT = LedgerTables
  import Lo = Loyalty
  import LoT = LoyaltyTables
  import S = SellerOrders
  import St = Stock
  import StT = StockTables

  /** A transaction either commits the state its specification gives, or leaves everything as it was. */
  ghost predicate Committed(before: Shop, outcome: Result<Shop, Error>, r: Result<(), Error>, after: Shop) {
    match outcome
    case Success(t) => r.Success? && after == t
    case Failure(e) => r == Failure(e) && after == before
  }

  /** Writing the row first makes no difference: every branch overwrites it. */
  lemma EventOnUpdatedRow(s: Shop, i: nat, o: Order, terminal: bool, now: int)
    requires s.Shape() && i < |s.orders|
    ensures ApplyStatus(s.(orders := s.orders[i := o]), i, o, terminal, now) == ApplyStatus(s, i, o, terminal, now)
  {
    assert forall x: Order {:trigger s.orders[i := o][i := x]} :: s.orders[i := o][i := x] == s.orders[i := x];
  }

  predicate PastWindow(o: Order, now: int) {
    IsPaymentPending(o.status) && o.expiresAt.Some? && o.expiresAt.value <= now
  }

  /** Expiring an order works exactly when it is past its window, and leaves every other order alone. */
  lemma ExpiryOutcome(s: Shop, i: nat, now: int)
    requires I.Inv(s) && i < |s.orders|
    ensures var r := Expire(s, i, now);
            && (r.Success? <==> PastWindow(s.orders[i], now))
            && (r.Success? ==>
                  && I.Inv(r.value) && |r.value.orders| == |s.orders| && r.value.orders[i].status == Expired
                  && St.All(r.value.stock.reservations[i], St.Released)
                  && forall j | 0 <= j < |s.orders| && j != i :: r.value.orders[j] == s.orders[j] && r.value.stock.reservations[j] == s.stock.reservations[j])
  {
    if PastWindow(s.orders[i], now) {
      OL.PendingIsOpen(s, i);
      OL.GiveUpKeepsInv(s, i, WithStatus(s.orders[i], Expired), false);
    }
  }

  lemma {:induction false} PreviousStays(orders: seq<Order>, k: nat, user: Lo.UserId, key: string)
    requires k <= |orders| && Previous(orders[..k], user, key).Some?
    ensures Previous(orders, user, key) == Previous(orders[..k], user, key)
    decreases |orders| - k
  {
    if k < |orders| {
      assert orders[..k + 1][..k] == orders[..k];
      PreviousStays(orders, k + 1, user, key);
    } else {
      assert orders[..k] == orders;
    }
  }

  /** An approved order whose rows are all reserved: they are consumed and the payment accepted. */
  ghost function Booked(s: Shop, i: nat, o: Order): Result<Shop, Error>
    requires s.Shape() && i < |s.orders| && St.All(s.stock.reservations[i], St.Active)
  {
    match St.ConsumeOnApproval(s.stock, i)
    case Failure(e) => Failure(StockFailed(e))
    case Success(taken) => Accept(s, i, o, taken)
  }

  lemma CancelMeaning(s: Shop, i: nat, v: nat)
    requires s.Shape()
    ensures I.Inv(s) && CustomerCancel(s, i).Success? ==> OO.GivenUp(s, CustomerCancel(s, i).value, i, Cancelled)
    ensures I.Inv(s) && AdminCancel(s, i, v).Success? ==> OO.GivenUp(s, AdminCancel(s, i, v).value, i, Cancelled)
  {
    if I.Inv(s) {
      OO.CustomerCancelOutcome(s, i);
      OO.AdminCancelOutcome(s, i, v);
    }
  }

  lemma ExpireMeaning(s: Shop, i: nat, now: int)
    requires s.Shape()
    ensures I.Inv(s) && Expire(s, i, now).Success? ==> OO.GivenUp(s, Expire(s, i, now).value, i, Expired)
  {
    if I.Inv(s) { OO.ExpireOutcome(s, i, now); }
  }

  lemma LateMeaning(s: Shop, i: nat, v: nat)
    requires s.Shape()
    ensures I.Inv(s) && FulfillLate(s, i, v).Success? ==> OO.LateFulfilled(s, FulfillLate(s, i, v).value, i)
  {
    if I.Inv(s) && FulfillLate(s, i, v).Success? { OO.LateOutcome(s, i, v); }
  }

  lemma FullRefundMeaning(s: Shop, i: nat, v: nat)
    requires s.Shape()
    ensures I.Inv(s) && RecordFullRefund(s, i, v).Success? ==> OO.FullyRefunded(s, RecordFullRefund(s, i, v).value, i)
  {
    if I.Inv(s) { OO.FullRefundOutcome(s, i, v); }
  }

  class OrderService {
    const stock: StT.StockTables
    const loyalty: LoT.LoyaltyTables
    const ledger: LeT.LedgerTables
    var orders: seq<Order>

    constructor ()
      ensures State() == Shop(St.Stock(map[], map[], [], []), Lo.Loyalty(map[], [], []), Le.Books([], []), [])
      ensures fresh(stock) && fresh(loyalty) && fresh(ledger)
    {
      stock := new StT.StockTables();
      loyalty := new LoT.LoyaltyTables();
      ledger := new LeT.LedgerTables();
      orders := [];
    }

    function State(): Shop
      reads this, stock, loyalty, ledger
    {
      Shop(stock.Snapshot(), loyalty.Snapshot(), ledger.Snapshot(), orders)
    }

    method Rollback(s: Shop)
      modifies this, stock, loyalty, ledger
      ensures State() == s
    {
      stock.Restore(s.stock);
      loyalty.Restore(s.loyalty);
      ledger.Restore(s.books);
      orders := s.orders;
    }

    // ---------- Order creation ----------

    method FindPrevious(user: Lo.UserId, key: string) returns (r: Option<nat>)
      ensures r == Previous(orders, user, key)
    {
      for k := 0 to |orders|
        invariant Previous(orders[..k], user, key) == None
      {
        assert orders[..k + 1][..k] == orders[..k];
        if orders[k].user == user && orders[k].key == key {
          PreviousStays(orders, k + 1, user, key);
          return Some(k);
        }
      }
      assert orders[..|orders|] == orders;
      r := None;
    }

    method CreateChildren(groups: seq<C.Group>) returns (children: seq<S.SellerOrder>)
      ensures |children| == |groups| && forall k | 0 <= k < |groups| :: children[k] == C.Child(groups[k])
    {
      children := [];
      for k := 0 to |groups|
        invariant |children| == k && forall j | 0 <= j < k :: children[j] == C.Child(groups[j])
      {
        children := children + [C.Child(groups[k])];
      }
    }

    /** Holds the points, reserves the stock line by line and writes the order with its children. */
    method RecordOrder(q: C.Quote, user: Lo.UserId, p: Placement, amount: Option<int>) returns (r: Result<(), Error>)
      requires State().Shape() && q.loyalty.pointsToEarn >= 0
      modifies this, stock, loyalty
      ensures match Record(old(State()), q, user, p, amount)
              case Success(t) => r.Success? && State() == t
              case Failure(e) => r == Failure(e)
    {
      var points := loyalty.PlaceOrderPoints(user, q.loyalty.pointsRedeemed, q.loyalty.pointsToEarn);
      if points.Failure? {
        return Failure(LoyaltyFailed(points.error));
      }
      var reserved := stock.ReserveLines(C.StockLines(q), p.now + Window(p.payMethod));
      if reserved.Failure? {
        return Failure(StockFailed(reserved.error));
      }
      var children := CreateChildren(q.groups);
      assert children == C.Children(q);
      orders := orders + [Order(user, p.number, p.key, p.hash, PendingPayment, 1, Some(p.now + Window(p.payMethod)),
                                p.payMethod, Pending, q.total, amount, false, [], children)];
      r := Success(());
    }

    /** Prices the basket and records it; a failure restores the tables. */
    method CreateNewOrder(c: C.Catalog, request: C.Request, p: Placement) returns (r: Result<(), Error>)
      requires State().Shape()
      modifies this, stock, loyalty
      ensures Committed(old(State()), CreateOrder(old(State()), c, request, p), r, State())
      ensures r.Success? ==> |orders| == |old(orders)| + 1
    {
      var before := State();
      var account := Lo.AccountOf(loyalty.Snapshot(), request.user);
      var quote := CLo.CalculateCheckout(c, stock.inventory, account, request);
      if quote.Failure? {
        return Failure(CheckoutFailed(quote.error));
      }
      var amount := ProviderAmount(p, quote.value.total);
      if amount.Failure? {
        return Failure(amount.error);
      }
      CL.QuoteChildren(c, stock.inventory, account, request);
      var recorded := RecordOrder(quote.value, request.user, p, amount.value);
      if recorded.Failure? {
        stock.Restore(before.stock);
        loyalty.Restore(before.loyalty);
        orders := before.orders;
        return Failure(recorded.error);
      }
      r := Success(());
    }

    /** A retry with a known key answers with the first order; otherwise the basket is priced and recorded. */
    method SubmitOrder(c: C.Catalog, request: C.Request, p: Placement) returns (r: Result<nat, Error>)
      requires State().Shape()
      modifies this, stock, loyalty
      ensures match Place(old(State()), c, request, p)
              case Success(placed) => r == Success(placed.1) && State() == placed.0
              case Failure(e) => r == Failure(e) && State() == old(State())
      ensures I.Inv(old(State())) && Previous(old(orders), request.user, p.key) == None && r.Success? ==>
                OC.Submitted(old(State()), State(), c, request, p)
    {
      var previous := FindPrevious(request.user, p.key);
      if previous.Some? {
        if orders[previous.value].hash != p.hash {
          return Failure(IdempotencyKeyReused);
        }
        return Success(previous.value);
      }
      ghost var before := State();
      var created := CreateNewOrder(c, request, p);
      if created.Failure? {
        return Failure(created.error);
      }
      OC.SubmitOutcome(before, c, request, p);
      r := Success(|orders| - 1);
    }

    // ---------- Children ----------

    method ReconcileParentOrder(i: nat)
      requires i < |orders|
      modifies this`orders
      ensures orders == old(orders)[i := Reconcile(old(orders)[i])]
    {
      var order := orders[i];
      var next := Next(Statuses(order.children));
      if next.None? || next.value == order.status {
        return;
      }
      orders := orders[i := order.(status := next.value, version := order.version + 1)];
    }

    /** Writes back one child row of an order. */
    method UpdateChild(i: nat, j: nat, child: S.SellerOrder)
      requires i < |orders| && j < |orders[i].children|
      modifies this`orders
      ensures orders == old(orders)[i := old(orders)[i].(children := old(orders)[i].children[j := child])]
    {
      orders := orders[i := orders[i].(children := orders[i].children[j := child])];
    }

    /** `settleSellerOrdersOnPayment`: pending children become paid, and affiliates are credited once. */
    method SettleSellerOrders(i: nat)
      requires i < |orders|
      modifies this`orders, ledger
      ensures var o := old(orders)[i];
              var f := All(Accredit, i, o.children, old(ledger.entries));
              orders == old(orders)[i := Reconcile(o.(children := f.children))]
              && ledger.Snapshot() == old(ledger.Snapshot()).(entries := f.entries)
    {
      ghost var f := Family(orders[i].children, ledger.entries);
      for j := 0 to |orders[i].children|
        invariant |orders| == |old(orders)| && |orders[i].children| == |f.children|
        invariant orders[i].children == Each(Accredit, i, f, j).children && ledger.entries == Each(Accredit, i, f, j).entries
        invariant orders == old(orders)[i := old(orders)[i].(children := orders[i].children)]
        invariant ledger.payouts == old(ledger.payouts)
      {
        var child := orders[i].children[j];
        var id := Le.SellerOrderId(i, j);
        if child.status == S.PendingPayment {
          UpdateChild(i, j, child.(status := S.Paid, version := child.version + 1));
          if child.affiliate.Some? && !Le.HasSale(ledger.entries, id) {
            ledger.entries := ledger.entries + [Le.SaleEntry(id, child.affiliate.value, child.net)];
          }
        } else {
          assert orders[i].children[j := child] == orders[i].children;
        }
      }
      ReconcileParentOrder(i);
    }

    method CloseUnpaidSellerOrders(i: nat)
      requires i < |orders|
      modifies this`orders
      ensures var o := old(orders)[i];
              orders == old(orders)[i := o.(children := All(Close, i, o.children, old(ledger.entries)).children)]
      ensures All(Close, i, old(orders)[i].children, old(ledger.entries)).entries == old(ledger.entries)
    {
      ghost var f := Family(orders[i].children, ledger.entries);
      for j := 0 to |orders[i].children|
        invariant |orders| == |old(orders)| && |orders[i].children| == |f.children|
        invariant orders[i].children == Each(Close, i, f, j).children && ledger.entries == Each(Close, i, f, j).entries
        invariant orders == old(orders)[i := old(orders)[i].(children := orders[i].children)]
      {
        var child := orders[i].children[j];
        if child.status == S.PendingPayment {
          UpdateChild(i, j, child.(status := S.Cancelled, version := child.version + 1));
        } else {
          assert orders[i].children[j := child] == orders[i].children;
        }
      }
    }

    /** `closeAndReverseAffiliateSellerOrdersOnParentRefund`. */
    method CloseAndReverseSellerOrders(i: nat)
      requires i < |orders|
      modifies this`orders, ledger
      ensures var o := old(orders)[i];
              var f := All(RefundAll, i, o.children, old(ledger.entries));
              orders == old(orders)[i := o.(children := f.children)]
              && ledger.Snapshot() == old(ledger.Snapshot()).(entries := f.entries)
    {
      ghost var f := Family(orders[i].children, ledger.entries);
      for j := 0 to |orders[i].children|
        invariant |orders| == |old(orders)| && |orders[i].children| == |f.children|
        invariant orders[i].children == Each(RefundAll, i, f, j).children && ledger.entries == Each(RefundAll, i, f, j).entries
        invariant orders == old(orders)[i := old(orders)[i].(children := orders[i].children)]
        invariant ledger.payouts == old(ledger.payouts)
      {
        var child := orders[i].children[j];
        var id := Le.SellerOrderId(i, j);
        if child.status != S.Cancelled && child.status != S.Refunded {
          if child.affiliate.Some? {
            ledger.ReverseAffiliateLiability(id, child.affiliate.value, child.net, Le.ParentRefund(i));
          }
          UpdateChild(i, j, child.(status := S.Refunded, autoCompleteAt := None, version := child.version + 1, parentRefunded := true));
        } else {
          assert orders[i].children[j := child] == orders[i].children;
        }
      }
    }

    // ---------- Giving an order up ----------

    /** Writes the order's new row, closes its children, releases its stock and its points. */
    method GiveUpOrder(i: nat, o: Order, checked: bool) returns (r: Result<(), Error>)
      requires State().Shape() && i < |orders|
      modifies this, stock, loyalty, ledger
      ensures match GiveUp(old(State()), i, o, checked)
              case Success(t) => r.Success? && State() == t
              case Failure(e) => r == Failure(e)
    {
      orders := orders[i := o];
      CloseUnpaidSellerOrders(i);
      var released;
      if checked {
        released := stock.ReleaseReservationsChecked(i);
      } else {
        released := stock.ReleaseReservations(i);
      }
      if released.Failure? {
        return Failure(StockFailed(released.error));
      }
      var points := loyalty.ReleaseOrderReservation(i);
      if points.Failure? {
        return Failure(LoyaltyFailed(points.error));
      }
      r := Success(());
    }

    /** Ends a transaction: a failure restores every table. */
    method Finish(before: Shop, outcome: Result<(), Error>) returns (r: Result<(), Error>)
      modifies this, stock, loyalty, ledger
      ensures r == outcome
      ensures State() == if outcome.Success? then old(State()) else before
    {
      r := outcome;
      if outcome.Failure? {
        Rollback(before);
      }
    }

    method GiveUpOrAbort(i: nat, o: Order, checked: bool) returns (r: Result<(), Error>)
      requires State().Shape() && i < |orders|
      modifies this, stock, loyalty, ledger
      ensures Committed(old(State()), GiveUp(old(State()), i, o, checked), r, State())
    {
      var before := State();
      r := GiveUpOrder(i, o, checked);
      r := Finish(before, r);
    }

    method CancelByCustomer(i: nat) returns (r: Result<(), Error>)
      requires State().Shape()
      modifies this, stock, loyalty, ledger
      ensures Committed(old(State()), CustomerCancel(old(State()), i), r, State())
      ensures I.Inv(old(State())) && r.Success? ==> OO.GivenUp(old(State()), State(), i, Cancelled)
    {
      if i >= |orders| {
        return Failure(NotFound);
      }
      var current := orders[i];
      if current.status != PendingPayment && current.status != PaymentReview {
        return Failure(NotCancellable);
      }
      ghost var before := State();
      r := GiveUpOrAbort(i, current.(status := Cancelled, version := current.version + 1), false);
      CancelMeaning(before, i, current.version);
    }

    method CancelByAdmin(i: nat, expectedVersion: nat) returns (r: Result<(), Error>)
      requires State().Shape()
      modifies this, stock, loyalty, ledger
      ensures Committed(old(State()), AdminCancel(old(State()), i, expectedVersion), r, State())
      ensures I.Inv(old(State())) && r.Success? ==> OO.GivenUp(old(State()), State(), i, Cancelled)
    {
      if i >= |orders| {
        return Failure(NotFound);
      }
      var order := orders[i];
      if order.status != PendingPayment && order.status != PaymentReview {
        return Failure(NotCancellable);
      }
      if order.version != expectedVersion {
        return Failure(OrderChanged);
      }
      ghost var before := State();
      r := GiveUpOrAbort(i, order.(status := Cancelled, version := order.version + 1), true);
      CancelMeaning(before, i, expectedVersion);
    }

    method ExpireOrder(i: nat, now: int) returns (r: Result<(), Error>)
      requires State().Shape()
      modifies this, stock, loyalty, ledger
      ensures Committed(old(State()), Expire(old(State()), i, now), r, State())
      ensures I.Inv(old(State())) && r.Success? ==> OO.GivenUp(old(State()), State(), i, Expired)
    {
      if i >= |orders| {
        return Failure(NotFound);
      }
      var current := orders[i];
      if (current.status != PendingPayment && current.status != PaymentReview) || current.expiresAt.None? || current.expiresAt.value > now {
        return Failure(NotExpired);
      }
      ghost var before := State();
      r := GiveUpOrAbort(i, current.(status := Expired, version := current.version + 1), false);
      ExpireMeaning(before, i, now);
    }

    /** The sweep: every order past its window expires, every other order keeps its row. */
    method ExpireReservations(now: int)
      requires I.Inv(State())
      modifies this, stock, loyalty, ledger
      ensures I.Inv(State()) && |orders| == |old(orders)|
      ensures forall i | 0 <= i < |orders| ::
                if PastWindow(old(orders)[i], now) then orders[i].status == Expired && St.All(stock.reservations[i], St.Released)
                else orders[i] == old(orders)[i]
    {
      for i := 0 to |orders|
        invariant I.Inv(State()) && |orders| == |old(orders)|
        invariant forall j | 0 <= j < i ::
                    if PastWindow(old(orders)[j], now) then orders[j].status == Expired && St.All(stock.reservations[j], St.Released)
                    else orders[j] == old(orders)[j]
        invariant forall j | i <= j < |orders| :: orders[j] == old(orders)[j]
      {
        ghost var before := State();
        ExpiryOutcome(before, i, now);
        var r := ExpireOrder(i, now);
      }
    }

    // ---------- Bank transfers ----------

    method UploadTransferReceipt(i: nat) returns (r: Result<(), Error>)
      modifies this`orders
      ensures Committed(old(State()), UploadReceipt(old(State()), i), r, State())
      ensures I.Inv(old(State())) && r.Success? ==> OO.ReceiptFiled(old(State()), State(), i)
    {
      if I.Inv(State()) { OO.UploadOutcome(State(), i); }
      if i >= |orders| || orders[i].payMethod != BankTransfer {
        return Failure(NotFound);
      }
      var current := orders[i];
      if current.status != PendingPayment && current.status != PaymentReview {
        return Failure(NotReceiptEligible);
      }
      var filed := current.(payment := UnderReview, receipts := current.receipts + [ReviewPending]);
      if current.status != PaymentReview {
        filed := filed.(status := PaymentReview, version := filed.version + 1);
      }
      orders := orders[i := filed];
      r := Success(());
    }

    /** The stock of order `i` is taken; its new row is written, points settle, children are accredited. */
    method AcceptPayment(i: nat, o: Order) returns (r: Result<(), Error>)
      requires State().Shape() && i < |orders|
      modifies this, loyalty, ledger
      ensures match Accept(old(State()), i, o, old(stock.Snapshot()))
              case Success(t) => r.Success? && State() == t
              case Failure(e) => r == Failure(e)
    {
      var points := loyalty.SettleOrder(i);
      if points.Failure? {
        return Failure(LoyaltyFailed(points.error));
      }
      orders := orders[i := o];
      SettleSellerOrders(i);
      r := Success(());
    }

    /** The compare-and-set on the order's version, then the acceptance. */
    method AcceptVersion(i: nat, expectedVersion: nat, o: Order) returns (r: Result<(), Error>)
      requires State().Shape() && i < |orders|
      modifies this, loyalty, ledger
      ensures match (if old(orders)[i].version != expectedVersion then Failure(OrderChanged) else Accept(old(State()), i, o, old(stock.Snapshot())))
              case Success(t) => r.Success? && State() == t
              case Failure(e) => r == Failure(e)
    {
      if orders[i].version != expectedVersion {
        return Failure(OrderChanged);
      }
      r := AcceptPayment(i, o);
    }

    /** The chosen receipt gets the decision; the other pending ones are superseded. */
    method DecideReceipts(receipts: seq<Review>, receipt: nat, review: Review) returns (rs: seq<Review>)
      requires receipt < |receipts|
      ensures rs == Decided(receipts, receipt, review)
    {
      rs := receipts[receipt := review];
      for k := 0 to |receipts|
        invariant |rs| == |receipts|
        invariant forall j | 0 <= j < |receipts| ::
                    rs[j] == if j == receipt then review else if j < k && receipts[j] == ReviewPending then ReviewRejected else receipts[j]
      {
        if k != receipt && rs[k] == ReviewPending {
          rs := rs[k := ReviewRejected];
        }
      }
    }

    method ApproveTransfer(i: nat, expectedVersion: nat, o: Order) returns (r: Result<(), Error>)
      requires State().Shape() && i < |orders|
      modifies this, stock, loyalty, ledger
      ensures match St.ConsumeOrderGuarded(old(stock.Snapshot()), i)
              case Failure(e) => r == Failure(StockFailed(e))
              case Success(taken) =>
                match (if old(orders)[i].version != expectedVersion then Failure(OrderChanged) else Accept(old(State()), i, o, taken))
                case Success(t) => r.Success? && State() == t
                case Failure(e) => r == Failure(e)
    {
      ghost var before := State();
      var consumed := stock.ConsumeReservationsChecked(i);
      if consumed.Failure? {
        return Failure(StockFailed(consumed.error));
      }
      assert State() == before.(stock := St.AfterPass(before.stock, i, St.Consume));
      r := AcceptVersion(i, expectedVersion, o);
    }

    method RejectTransfer(i: nat, expectedVersion: nat, o: Order) returns (r: Result<(), Error>)
      requires State().Shape() && i < |orders|
      modifies this, stock, loyalty, ledger
      ensures match (if old(orders)[i].version != expectedVersion then Failure(OrderChanged) else GiveUp(old(State()), i, o, true))
              case Success(t) => r.Success? && State() == t
              case Failure(e) => r == Failure(e)
    {
      if orders[i].version != expectedVersion {
        return Failure(OrderChanged);
      }
      r := GiveUpOrder(i, o, true);
    }

    /** The decision on a receipt that may be reviewed. */
    method DecideTransfer(i: nat, receipt: nat, expectedVersion: nat, approve: bool) returns (r: Result<(), Error>)
      requires State().Shape() && i < |orders| && orders[i].payMethod == BankTransfer && receipt < |orders[i].receipts|
      requires orders[i].receipts[receipt] == ReviewPending && IsPaymentPending(orders[i].status)
      modifies this, stock, loyalty, ledger
      ensures match ReviewTransfer(old(State()), i, receipt, expectedVersion, approve)
              case Success(t) => r.Success? && State() == t
              case Failure(e) => r == Failure(e)
    {
      var order := orders[i];
      var receipts := DecideReceipts(order.receipts, receipt, if approve then ReviewApproved else ReviewRejected);
      if approve {
        var paid := order.(status := Paid, version := order.version + 1, payment := Approved, receipts := receipts);
        assert paid == WithStatus(order, Paid).(payment := Approved, receipts := Decided(order.receipts, receipt, ReviewApproved));
        r := ApproveTransfer(i, expectedVersion, paid);
      } else {
        var cancelled := order.(status := Cancelled, version := order.version + 1, payment := Rejected, receipts := receipts);
        assert cancelled == WithStatus(order, Cancelled).(payment := Rejected, receipts := Decided(order.receipts, receipt, ReviewRejected));
        r := RejectTransfer(i, expectedVersion, cancelled);
      }
    }

    method ReviewBankTransfer(i: nat, receipt: nat, expectedVersion: nat, approve: bool) returns (r: Result<(), Error>)
      requires State().Shape()
      modifies this, stock, loyalty, ledger
      ensures Committed(old(State()), ReviewTransfer(old(State()), i, receipt, expectedVersion, approve), r, State())
      ensures I.Inv(old(State())) && r.Success? ==> OO.Reviewed(old(State()), State(), i, receipt, approve)
    {
      if I.Inv(State()) { OO.ReviewOutcome(State(), i, receipt, expectedVersion, approve); }
      if i >= |orders| || orders[i].payMethod != BankTransfer || receipt >= |orders[i].receipts| {
        return Failure(NotFound);
      }
      if orders[i].receipts[receipt] != ReviewPending || (orders[i].status != PendingPayment && orders[i].status != PaymentReview) {
        return Failure(NotReviewable);
      }
      var before := State();
      r := DecideTransfer(i, receipt, expectedVersion, approve);
      r := Finish(before, r);
    }

    // ---------- Provider events ----------

    method MoveOrderToPaymentReview(i: nat)
      requires i < |orders|
      modifies this`orders
      ensures orders == old(orders)[i := MoveToPaymentReview(old(orders)[i])]
    {
      var current := orders[i];
      if current.status in {Paid, Completed, RefundRecorded, PaymentRequiresReview} {
        return;
      }
      orders := orders[i := current.(status := PaymentRequiresReview, version := current.version + 1)];
    }

    method AcceptApproved(i: nat, o: Order) returns (r: Result<(), Error>)
      requires State().Shape() && i < |orders| && St.All(stock.reservations[i], St.Active)
      modifies this, stock, loyalty, ledger
      ensures match Booked(old(State()), i, o)
              case Success(t) => r.Success? && State() == t
              case Failure(e) => r == Failure(e)
    {
      ghost var before := State();
      var consumed := stock.ConsumeReservations(i);
      if consumed.Failure? {
        return Failure(StockFailed(consumed.error));
      }
      assert State() == before.(stock := St.AfterPass(before.stock, i, St.Consume));
      r := AcceptPayment(i, o);
    }

    /** An approval inside the window: it needs every reservation active and unexpired. */
    method ApproveOnTime(i: nat, now: int) returns (r: Result<(), Error>)
      requires State().Shape() && i < |orders|
      modifies this, stock, loyalty, ledger
      ensures if !St.ValidForApproval(old(stock.reservations)[i], now)
              then r.Success? && State() == old(State()).(orders := old(orders)[i := MoveToPaymentReview(old(orders)[i])])
              else match Booked(old(State()), i, WithStatus(old(orders)[i], Paid))
                   case Success(t) => r.Success? && State() == t
                   case Failure(e) => r == Failure(e)
    {
      if !St.ValidForApproval(stock.reservations[i], now) {
        MoveOrderToPaymentReview(i);
        return Success(());
      }
      r := AcceptApproved(i, orders[i].(status := Paid, version := orders[i].version + 1));
    }

    method ApplyApproved(i: nat, now: int) returns (r: Result<(), Error>)
      requires State().Shape() && i < |orders|
      modifies this, stock, loyalty, ledger
      ensures match ProviderApproved(old(State()), i, old(orders)[i], now)
              case Success(t) => r.Success? && State() == t
              case Failure(e) => r == Failure(e)
    {
      var current := orders[i];
      assert orders[i := current] == orders;
      r := Success(());
      if current.status == Expired || current.status == Cancelled || current.expiresAt.None? || current.expiresAt.value <= now {
        MoveOrderToPaymentReview(i);
      } else if current.status == PendingPayment || current.status == PaymentReview {
        r := ApproveOnTime(i, now);
      }
    }

    method ApplyRefunded(i: nat) returns (r: Result<(), Error>)
      requires State().Shape() && i < |orders|
      modifies this, stock, loyalty, ledger
      ensures match ProviderRefunded(old(State()), i, old(orders)[i])
              case Success(t) => r.Success? && State() == t
              case Failure(e) => r == Failure(e)
    {
      var released := stock.ReleaseReservations(i);
      if released.Failure? {
        return Failure(StockFailed(released.error));
      }
      var points := loyalty.ReleaseOrderReservation(i);
      if points.Failure? {
        return Failure(LoyaltyFailed(points.error));
      }
      MarkRefunded(i);
      loyalty.ReverseOrder(i);
      CloseAndReverseSellerOrders(i);
      r := Success(());
    }

    method MarkRefunded(i: nat)
      requires i < |orders|
      modifies this`orders
      ensures orders == old(orders)[i := if old(orders)[i].status != RefundRecorded then WithStatus(old(orders)[i], RefundRecorded) else old(orders)[i]]
    {
      if orders[i].status != RefundRecorded {
        orders := orders[i := orders[i].(status := RefundRecorded, version := orders[i].version + 1)];
      }
    }

    /** The branches of `applyMercadoProviderState`, after the payment row was updated. */
    method ApplyMapped(i: nat, terminal: bool, now: int) returns (r: Result<(), Error>)
      requires State().Shape() && i < |orders|
      modifies this, stock, loyalty, ledger
      ensures match ApplyStatus(old(State()), i, old(orders)[i], terminal, now)
              case Success(t) => r.Success? && State() == t
              case Failure(e) => r == Failure(e)
    {
      var current := orders[i];
      assert orders[i := current] == orders;
      if current.payment == RequiresReview || current.payment == Disputed || current.payment == PartiallyRefunded {
        MoveOrderToPaymentReview(i);
        return Success(());
      }
      r := Success(());
      if current.payment == Approved {
        r := ApplyApproved(i, now);
      } else if current.payment == Failed && terminal && (current.status == PendingPayment || current.status == PaymentReview) {
        r := GiveUpOrder(i, current.(status := Expired, version := current.version + 1), false);
      } else if current.payment == Refunded {
        r := ApplyRefunded(i);
      }
    }

    method ApplyMercadoProviderState(i: nat, st: ProviderState, collector: Option<string>, now: int) returns (r: Result<(), Error>)
      requires State().Shape()
      modifies this, stock, loyalty, ledger
      ensures Committed(old(State()), Provider(old(State()), i, st, collector, now), r, State())
      ensures I.Inv(old(State())) && r.Success? ==> OO.EventApplied(old(State()), State(), i, st, collector, now)
    {
      if i >= |orders| || orders[i].payMethod != MercadoPago {
        return Failure(NoPayment);
      }
      var before := State();
      var mapped := StatusForProvider(st, ExpectedAmount(orders[i]), orders[i].number, collector);
      orders := orders[i := orders[i].(payment := mapped)];
      EventOnUpdatedRow(before, i, orders[i], st.terminal, now);
      r := ApplyMapped(i, st.terminal, now);
      r := Finish(before, r);
      if I.Inv(before) { OO.ProviderOutcome(before, i, st, collector, now); }
    }

    // ---------- Late payments and full refunds ----------

    method AcceptLate(i: nat, expectedVersion: nat, o: Order) returns (r: Result<(), Error>)
      requires State().Shape() && i < |orders|
      modifies this, stock, loyalty, ledger
      ensures match St.FulfillLateOrder(old(stock.Snapshot()), i)
              case Failure(e) => r == Failure(StockFailed(e))
              case Success(taken) =>
                match (if old(orders)[i].version != expectedVersion then Failure(OrderChanged) else Accept(old(State()), i, o, taken))
                case Success(t) => r.Success? && State() == t
                case Failure(e) => r == Failure(e)
    {
      ghost var before := State();
      var taken := stock.FulfillLate(i);
      if taken.Failure? {
        return Failure(StockFailed(taken.error));
      }
      assert State() == before.(stock := St.FulfillLateOrder(before.stock, i).value);
      r := AcceptVersion(i, expectedVersion, o);
    }

    /** The transaction of a late payment: it is rolled back when the stock is gone or the version has moved. */
    method TakeLatePayment(i: nat, expectedVersion: nat) returns (r: Result<(), Error>)
      requires State().Shape() && i < |orders| && orders[i].status == PaymentRequiresReview && orders[i].payment == Approved
      modifies this, stock, loyalty, ledger
      ensures Committed(old(State()), FulfillLate(old(State()), i, expectedVersion), r, State())
    {
      var before := State();
      r := AcceptLate(i, expectedVersion, orders[i].(status := Paid, version := orders[i].version + 1));
      r := Finish(before, r);
    }

    method FulfillLatePayment(i: nat, expectedVersion: nat) returns (r: Result<(), Error>)
      requires State().Shape()
      modifies this, stock, loyalty, ledger
      ensures Committed(old(State()), FulfillLate(old(State()), i, expectedVersion), r, State())
      ensures I.Inv(old(State())) && r.Success? ==> OO.LateFulfilled(old(State()), State(), i)
    {
      LateMeaning(State(), i, expectedVersion);
      if i >= |orders| {
        return Failure(NotFound);
      }
      if orders[i].status != PaymentRequiresReview || orders[i].payment != Approved {
        return Failure(NotLateFulfillable);
      }
      r := TakeLatePayment(i, expectedVersion);
    }

    method RecordRefundOfOrder(i: nat, expectedVersion: nat) returns (r: Result<(), Error>)
      requires State().Shape()
      modifies this, loyalty, ledger
      ensures Committed(old(State()), RecordFullRefund(old(State()), i, expectedVersion), r, State())
      ensures I.Inv(old(State())) && r.Success? ==> OO.FullyRefunded(old(State()), State(), i)
    {
      ghost var before := State();
      if i >= |orders| {
        return Failure(NotFound);
      }
      var order := orders[i];
      if (order.payment != Approved && order.payment != RequiresReview) || HasRefunds(order) {
        return Failure(NotRefundable);
      }
      if order.version != expectedVersion {
        return Failure(OrderChanged);
      }
      orders := orders[i := order.(status := RefundRecorded, version := order.version + 1, payment := Refunded, fullRefund := true)];
      loyalty.ReverseOrder(i);
      CloseAndReverseSellerOrders(i);
      r := Success(());
      FullRefundMeaning(before, i, expectedVersion);
    }
  }
}
