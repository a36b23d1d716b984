/** What a submitted basket becomes: the order row, its children, its reservations and its points. */
module OrderCreation {
  import opened Arithmetic
  import opened Wrappers
  import opened ParentStatus
  import opened Orders
  import opened OrderInvariant
  import C = Checkout
  import CL = CheckoutLaws
  import D = Decimal
  import Lo = Loyalty
  import LoL = LoyaltyLaws
  import S = SellerOrders
  import St = Stock
  import StL = StockLaws

  /** How many units of a product the items ask for. */
  function Ordered(items: seq<C.Item>, p: St.ProductId): nat {
    if items == [] then 0 else
      Ordered(items[..|items| - 1], p) + if items[|items| - 1].product == p then items[|items| - 1].quantity else 0
  }

  /** A transfer may be paid for 24 hours, a provider payment for 30 minutes. */
  function PaymentWindow(m: Method): int {
    match m
    case BankTransfer => 86_400_000
    case MercadoPago => 1_800_000
  }

  /** A provider payment is charged in pesos, to the nearest cent of the total at the quoted rate. */
  ghost predicate ChargedInPesos(p: Placement, total: int, amount: Option<int>) {
    match p.payMethod
    case BankTransfer => amount == None
    case MercadoPago =>
      && p.rateMicros.Some? && amount.Some? && amount.value > 0
      && -500_000 <= total * p.rateMicros.value - amount.value * 1_000_000 < 500_000
  }

  /** One row per item, in order, held until the payment window closes. */
  ghost predicate RowsReserved(items: seq<C.Item>, rows: seq<St.Reservation>, until: int) {
    && |rows| == |items|
    && forall k | 0 <= k < |items| :: rows[k] == St.Reservation(items[k].product, items[k].quantity, until, false, false)
  }

  /** The units of the basket are set aside; nothing leaves the shop. */
  ghost predicate StockReserved(s: St.Stock, t: St.Stock, items: seq<C.Item>, rows: seq<St.Reservation>) {
    && t.reservations == s.reservations + [rows] && t.inventory.Keys == s.inventory.Keys
    && t.adjustments == s.adjustments && t.baseline == s.baseline
    && forall p <- s.inventory ::
         && t.inventory[p].onHand == s.inventory[p].onHand
         && t.inventory[p].reserved == s.inventory[p].reserved + Ordered(items, p) <= s.inventory[p].onHand
  }

  /** The points to redeem are held on the buyer's account. */
  ghost predicate PointsHeld(l: Lo.Loyalty, m: Lo.Loyalty, user: Lo.UserId, points: nat, earned: int) {
    && (forall v | v != user :: Lo.AccountOf(m, v) == Lo.AccountOf(l, v))
    && var (a, b) := (Lo.AccountOf(l, user), Lo.AccountOf(m, user));
    && b == a.(reserved := a.reserved + points, version := b.version)
    && (points > 0 ==> points <= a.balance - a.reserved)
    && m.log == l.log && |m.orders| == |l.orders| + 1 && m.orders[..|l.orders|] == l.orders
    && earned >= 0 && m.orders[|l.orders|] == Lo.OrderPoints(user, points, earned, if points > 0 then Lo.Held else Lo.NoPoints)
  }

  /** One unpaid child for each group, with the amounts of the group. */
  ghost predicate ChildrenOf(groups: seq<C.Group>, children: seq<S.SellerOrder>) {
    && |children| == |groups|
    && forall k | 0 <= k < |groups| ::
         var (g, c) := (groups[k], children[k]);
         && c.status == S.PendingPayment && c.affiliate == (if g.key == C.Store then None else Some(g.key.affiliate))
         && c.subtotal == g.subtotal && c.shipping == g.shipping && c.commission == g.commission && c.net == g.net
         && (c.fulfillment == S.Fulfillment.Pickup <==> g.delivery.Pickup?)
         && c.issues == [] && c.requests == [] && c.refunds == [] && !c.parentRefunded && c.autoCompleteAt == None
  }

  /** A new unpaid order of the buyer. */
  ghost predicate NewRow(o: Order, user: Lo.UserId, p: Placement, total: int) {
    && o.user == user && o.number == p.number && o.key == p.key && o.hash == p.hash && o.payMethod == p.payMethod
    && o.status == PendingPayment && o.version == 1 && o.payment == Pending && o.total == total
    && o.expiresAt == Some(p.now + PaymentWindow(p.payMethod)) && !o.fullRefund && o.receipts == []
    && ChargedInPesos(p, total, o.providerAmount)
  }

  // ---------- Stock ----------

  lemma {:induction false} RowsAreOrdered(items: seq<C.Item>, rows: seq<St.Reservation>, until: int, p: St.ProductId)
    requires RowsReserved(items, rows, until)
    ensures St.Qty(rows, p, St.Active) == Ordered(items, p)
  {
    if items != [] {
      RowsAreOrdered(items[..|items| - 1], rows[..|rows| - 1], until, p);
    }
  }

  lemma BasketReserved(s: St.Stock, items: seq<C.Item>, lines: seq<St.Line>, until: int)
    requires St.Inv(s) && |lines| == |items| && forall k | 0 <= k < |items| :: lines[k] == St.Line(items[k].product, items[k].quantity) && items[k].quantity >= 1
    requires St.PlaceOrder(s, lines, until).Success?
    ensures var rows := St.RowsFor(lines, until);
            RowsReserved(items, rows, until) && StockReserved(s, St.PlaceOrder(s, lines, until).value, items, rows)
  {
    var rows := St.RowsFor(lines, until);
    var t := St.PlaceOrder(s, lines, until).value;
    StL.PlaceOrderKeepsInv(s, lines, until);
    forall p | p in s.inventory
      ensures t.inventory[p].onHand == s.inventory[p].onHand
      ensures t.inventory[p].reserved == s.inventory[p].reserved + Ordered(items, p) <= s.inventory[p].onHand
    {
      RowsAreOrdered(items, rows, until, p);
      StL.NeverOversold(t, p);
    }
  }

  // ---------- Points and amounts ----------

  lemma PointsReserved(l: Lo.Loyalty, user: Lo.UserId, points: nat, earned: nat)
    requires Lo.Inv(l) && Lo.PlaceOrder(l, user, points, earned).Success?
    ensures PointsHeld(l, Lo.PlaceOrder(l, user, points, earned).value, user, points, earned)
  {
    LoL.PlaceOrderKeepsInv(l, user, points, earned);
  }

  lemma AmountCharged(p: Placement, total: int)
    requires ProviderAmount(p, total).Success?
    ensures ChargedInPesos(p, total, ProviderAmount(p, total).value)
  {
    if p.payMethod == MercadoPago {
      D.ConversionIsNearest(total, p.rateMicros.value, ProviderAmount(p, total).value.value);
    }
  }

  lemma GroupsBecomeChildren(q: C.Quote)
    ensures ChildrenOf(q.groups, C.Children(q))
  {
  }

  // ---------- The order ----------

  /** What a new order is, given its quote. */
  ghost predicate Created(s: Shop, t: Shop, r: C.Request, p: Placement, q: C.Quote) {
    && |t.orders| == |s.orders| + 1 && t.orders[..|s.orders|] == s.orders && t.books == s.books
    && var o := t.orders[|s.orders|];
    && NewRow(o, r.user, p, q.total) && ChildrenOf(q.groups, o.children)
    && |t.stock.reservations| == |s.stock.reservations| + 1
    && var rows := t.stock.reservations[|s.stock.reservations|];
    && RowsReserved(r.items, rows, p.now + PaymentWindow(p.payMethod))
    && StockReserved(s.stock, t.stock, r.items, rows)
    && PointsHeld(s.loyalty, t.loyalty, r.user, r.pointsToRedeem, q.loyalty.pointsToEarn)
  }

  lemma QuoteLines(s: Shop, c: C.Catalog, r: C.Request)
    requires C.Calculate(c, s.stock.inventory, Lo.AccountOf(s.loyalty, r.user), r).Success?
    ensures var q := C.Calculate(c, s.stock.inventory, Lo.AccountOf(s.loyalty, r.user), r).value;
            var lines := C.StockLines(q);
            |lines| == |r.items| && forall k | 0 <= k < |r.items| :: lines[k] == St.Line(r.items[k].product, r.items[k].quantity) && r.items[k].quantity >= 1
  {
    var account := Lo.AccountOf(s.loyalty, r.user);
    CL.LineProducts(c, s.stock.inventory, account, r);
    assert forall k | 0 <= k < |r.items| :: r.items[k] in r.items;
  }

  /** A submitted basket becomes one order with the quoted total, a row per item, a child per seller and its points held. */
  lemma CreateOutcome(s: Shop, c: C.Catalog, r: C.Request, p: Placement)
    requires Inv(s) && CreateOrder(s, c, r, p).Success?
    ensures C.Calculate(c, s.stock.inventory, Lo.AccountOf(s.loyalty, r.user), r).Success?
    ensures Created(s, CreateOrder(s, c, r, p).value, r, p, C.Calculate(c, s.stock.inventory, Lo.AccountOf(s.loyalty, r.user), r).value)
  {
    var account := Lo.AccountOf(s.loyalty, r.user);
    CL.QuoteChildren(c, s.stock.inventory, account, r);
    var q := C.Calculate(c, s.stock.inventory, account, r).value;
    QuoteLines(s, c, r);
    AmountCharged(p, q.total);
    RecordOutcome(s, q, r, p, ProviderAmount(p, q.total).value);
  }

  /** A request under a new key ends in a new order of the quoted basket, if in anything. */
  ghost predicate Submitted(s: Shop, t: Shop, c: C.Catalog, r: C.Request, p: Placement) {
    var quote := C.Calculate(c, s.stock.inventory, Lo.AccountOf(s.loyalty, r.user), r);
    quote.Success? && Created(s, t, r, p, quote.value)
  }

  lemma SubmitOutcome(s: Shop, c: C.Catalog, r: C.Request, p: Placement)
    requires s.Shape()
    ensures Inv(s) && CreateOrder(s, c, r, p).Success? ==> Submitted(s, CreateOrder(s, c, r, p).value, c, r, p)
  {
    if Inv(s) && CreateOrder(s, c, r, p).Success? { CreateOutcome(s, c, r, p); }
  }

  lemma RecordOutcome(s: Shop, q: C.Quote, r: C.Request, p: Placement, amount: Option<int>)
    requires Inv(s) && q.loyalty.pointsToEarn >= 0 && q.loyalty.pointsRedeemed == r.pointsToRedeem && ChargedInPesos(p, q.total, amount)
    requires |q.lines| == |r.items|
    requires forall k | 0 <= k < |r.items| :: C.StockLines(q)[k] == St.Line(r.items[k].product, r.items[k].quantity) && r.items[k].quantity >= 1
    requires Record(s, q, r.user, p, amount).Success?
    ensures Created(s, Record(s, q, r.user, p, amount).value, r, p, q)
  {
    var until := p.now + Window(p.payMethod);
    var o := NewOrder(p, q, r.user, amount);
    BasketReserved(s.stock, r.items, C.StockLines(q), until);
    PointsReserved(s.loyalty, r.user, q.loyalty.pointsRedeemed, q.loyalty.pointsToEarn);
    NewOrderRow(p, q, r.user, amount);
    var stock := St.PlaceOrder(s.stock, C.StockLines(q), until).value;
    var loyalty := Lo.PlaceOrder(s.loyalty, r.user, q.loyalty.pointsRedeemed, q.loyalty.pointsToEarn).value;
    assert Record(s, q, r.user, p, amount) == Success(Shop(stock, loyalty, s.books, s.orders + [o]));
    assert stock.reservations[|s.stock.reservations|] == St.RowsFor(C.StockLines(q), until);
  }

  lemma NewOrderRow(p: Placement, q: C.Quote, user: Lo.UserId, amount: Option<int>)
    requires ChargedInPesos(p, q.total, amount)
    ensures NewRow(NewOrder(p, q, user, amount), user, p, q.total) && ChildrenOf(q.groups, NewOrder(p, q, user, amount).children)
    ensures Window(p.payMethod) == PaymentWindow(p.payMethod)
  {
    GroupsBecomeChildren(q);
  }

  // ---------- Which baskets become orders ----------

  /** Beyond a quote, an order needs a rate for a provider payment and a basket that lists each product once. */
  lemma CreateSucceedsIff(s: Shop, c: C.Catalog, r: C.Request, p: Placement)
    requires Inv(s) && C.Calculate(c, s.stock.inventory, Lo.AccountOf(s.loyalty, r.user), r).Success?
    ensures var q := C.Calculate(c, s.stock.inventory, Lo.AccountOf(s.loyalty, r.user), r).value;
            CreateOrder(s, c, r, p).Success? <==>
              && (forall j, k | 0 <= j < k < |r.items| :: r.items[j].product != r.items[k].product)
              && (p.payMethod == MercadoPago ==> p.rateMicros.Some? && p.rateMicros.value > 0 && q.total * p.rateMicros.value >= 500_000)
  {
    var account := Lo.AccountOf(s.loyalty, r.user);
    var q := C.Calculate(c, s.stock.inventory, account, r).value;
    CL.QuoteChildren(c, s.stock.inventory, account, r);
    QuotedPointsHeld(s, c, r);
    AmountExistsIff(p, q.total) by { TotalNotNegative(s, c, r); }
    if ProviderAmount(p, q.total).Success? {
      RecordSucceedsIff(s, q, r, p, ProviderAmount(p, q.total).value) by { QuoteLines(s, c, r); QuotedStockAvailable(s, c, r); }
    }
  }

  lemma RecordSucceedsIff(s: Shop, q: C.Quote, r: C.Request, p: Placement, amount: Option<int>)
    requires q.loyalty.pointsToEarn >= 0 && Lo.PlaceOrder(s.loyalty, r.user, q.loyalty.pointsRedeemed, q.loyalty.pointsToEarn).Success?
    requires St.Available(s.stock.inventory, C.StockLines(q)) && |q.lines| == |r.items|
    requires forall k | 0 <= k < |r.items| :: C.StockLines(q)[k] == St.Line(r.items[k].product, r.items[k].quantity)
    ensures Record(s, q, r.user, p, amount).Success? <==> forall j, k | 0 <= j < k < |r.items| :: r.items[j].product != r.items[k].product
  {
    var lines := C.StockLines(q);
    assert St.Distinct(lines) <==> forall j, k | 0 <= j < k < |r.items| :: r.items[j].product != r.items[k].product by {
      assert forall k | 0 <= k < |lines| :: lines[k].product == r.items[k].product;
    }
  }

  lemma TotalNotNegative(s: Shop, c: C.Catalog, r: C.Request)
    requires C.Calculate(c, s.stock.inventory, Lo.AccountOf(s.loyalty, r.user), r).Success?
    ensures C.Calculate(c, s.stock.inventory, Lo.AccountOf(s.loyalty, r.user), r).value.total >= 0
  {
    CL.QuoteConserves(c, s.stock.inventory, Lo.AccountOf(s.loyalty, r.user), r);
  }

  lemma AmountExistsIff(p: Placement, total: int)
    requires total >= 0
    ensures ProviderAmount(p, total).Success? <==>
              (p.payMethod == MercadoPago ==> p.rateMicros.Some? && p.rateMicros.value > 0 && total * p.rateMicros.value >= 500_000)
  {
    if p.payMethod == MercadoPago && p.rateMicros.Some? {
      DivAtLeast(total * p.rateMicros.value + D.SCALE / 2, D.SCALE, 1);
    }
  }

  lemma QuotedStockAvailable(s: Shop, c: C.Catalog, r: C.Request)
    requires Inv(s) && C.Calculate(c, s.stock.inventory, Lo.AccountOf(s.loyalty, r.user), r).Success?
    ensures var lines := C.StockLines(C.Calculate(c, s.stock.inventory, Lo.AccountOf(s.loyalty, r.user), r).value);
            St.Available(s.stock.inventory, lines)
  {
    CL.BasketPricedIff(c, s.stock.inventory, r.user, r.items);
    QuoteLines(s, c, r);
  }

  lemma QuotedPointsHeld(s: Shop, c: C.Catalog, r: C.Request)
    requires Inv(s) && C.Calculate(c, s.stock.inventory, Lo.AccountOf(s.loyalty, r.user), r).Success?
    ensures var q := C.Calculate(c, s.stock.inventory, Lo.AccountOf(s.loyalty, r.user), r).value;
            q.loyalty.pointsToEarn >= 0 && Lo.PlaceOrder(s.loyalty, r.user, q.loyalty.pointsRedeemed, q.loyalty.pointsToEarn).Success?
  {
    var account := Lo.AccountOf(s.loyalty, r.user);
    var q := C.Calculate(c, s.stock.inventory, account, r).value;
    CL.QuoteChildren(c, s.stock.inventory, account, r);
    if r.pointsToRedeem > 0 { LoL.QuoteAcceptsIff(c.program, account, C.StoreSubtotal(q.groups), r.pointsToRedeem); }
  }
}
