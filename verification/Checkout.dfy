/** Pricing of a basket: one group per seller, delivery, commission and the loyalty discount. */
module Checkout {
  import opened Wrappers
  import Ledger
  import Loyalty
  import SellerOrders
  import Stock

  /** The settings forms accept 0 to 10000 basis points. */
  type Bps = x: nat | x <= 10000

  datatype Seller = Seller(id: Ledger.AffiliateId, user: Loyalty.UserId, active: bool, listingApproved: bool, bpsOverride: Option<Bps>)

  datatype Product = Product(published: bool, version: nat, price: nat, seller: Option<Seller>)

  datatype SellerKey = Store | Of(affiliate: Ledger.AffiliateId)

  datatype Delivery = Pickup(point: nat) | Shipment(rate: nat, province: string)

  /** Provinces are compared in lower case; both sides are kept lowered here. */
  datatype Rate = Rate(active: bool, zoneActive: bool, owner: Option<Ledger.AffiliateId>, provinces: set<string>, price: nat)

  datatype Point = Point(active: bool, owner: Option<Ledger.AffiliateId>)

  /** What the checkout reads besides the stock and the buyer's points. */
  datatype Catalog = Catalog(products: map<Stock.ProductId, Product>, defaultBps: Bps, rates: map<nat, Rate>, points: map<nat, Point>, program: Loyalty.Program)

  datatype Item = Item(product: Stock.ProductId, quantity: nat, version: nat)

  datatype Request = Request(user: Loyalty.UserId, items: seq<Item>, delivery: Delivery, perSeller: map<SellerKey, Delivery>, pointsToRedeem: nat)

  datatype Priced = Priced(item: Item, product: Product, amount: nat)
  {
    function Key(): SellerKey {
      if product.seller.None? then Store else Of(product.seller.value.id)
    }
  }

  datatype Group = Group(key: SellerKey, lines: seq<Priced>, subtotal: nat, shipping: nat, bps: Bps, commission: nat, net: int, delivery: Delivery)

  datatype Quote = Quote(lines: seq<Priced>, groups: seq<Group>, subtotal: nat, shipping: nat, discount: int, total: int, loyalty: Loyalty.Quote)

  datatype Error =
    | InvalidRequest | ProductUnavailable | ListingUnavailable | OwnProduct | ProductChanged | OutOfStock
    | DeliveryRequired | InvalidShippingRate | InvalidPickupPoint | LoyaltyError(error: Loyalty.Error)

  // ---------- Lines ----------

  function Available(inv: map<Stock.ProductId, Stock.Inventory>, p: Stock.ProductId): int {
    if p in inv then inv[p].onHand - inv[p].reserved else 0
  }

  function PriceItem(c: Catalog, inv: map<Stock.ProductId, Stock.Inventory>, user: Loyalty.UserId, item: Item): Result<Priced, Error> {
    if item.product !in c.products || !c.products[item.product].published then Failure(ProductUnavailable) else
    var p := c.products[item.product];
    if p.seller.Some? && (!p.seller.value.active || !p.seller.value.listingApproved) then Failure(ListingUnavailable)
    else if p.seller.Some? && p.seller.value.user == user then Failure(OwnProduct)
    else if p.version != item.version then Failure(ProductChanged)
    else if Available(inv, item.product) < item.quantity then Failure(OutOfStock)
    else Success(Priced(item, p, p.price * item.quantity))
  }

  /** The lines of the basket, or the error of its first bad item. */
  function PriceItems(c: Catalog, inv: map<Stock.ProductId, Stock.Inventory>, user: Loyalty.UserId, items: seq<Item>): Result<seq<Priced>, Error> {
    if items == [] then Success([]) else
    match PriceItems(c, inv, user, items[..|items| - 1])
    case Failure(e) => Failure(e)
    case Success(front) =>
      match PriceItem(c, inv, user, items[|items| - 1])
      case Failure(e) => Failure(e)
      case Success(line) => Success(front + [line])
  }

  function Amounts(lines: seq<Priced>): nat {
    if lines == [] then 0 else Amounts(lines[..|lines| - 1]) + lines[|lines| - 1].amount
  }

  // ---------- Groups ----------

  /** The lines of one seller, in basket order. */
  function LinesOf(lines: seq<Priced>, key: SellerKey): seq<Priced> {
    if lines == [] then [] else
      LinesOf(lines[..|lines| - 1], key) + if lines[|lines| - 1].Key() == key then [lines[|lines| - 1]] else []
  }

  /** The sellers of the basket, in order of first appearance. */
  function Keys(lines: seq<Priced>): seq<SellerKey> {
    if lines == [] then [] else
      var front := Keys(lines[..|lines| - 1]);
      var key := lines[|lines| - 1].Key();
      if key in front then front else front + [key]
  }

  function BpsOf(c: Catalog, p: Product): Bps {
    match p.seller
    case None => 0
    case Some(s) => if s.bpsOverride.Some? then s.bpsOverride.value else c.defaultBps
  }

  /** The group of a seller before delivery; its commission rate is that of its first line. */
  function GroupOf(c: Catalog, r: Request, lines: seq<Priced>, key: SellerKey): Group {
    var own := LinesOf(lines, key);
    Group(key, own, Amounts(own), 0, if own == [] then 0 else BpsOf(c, own[0].product), 0, 0, r.delivery)
  }

  function GroupAll(c: Catalog, r: Request, lines: seq<Priced>): (gs: seq<Group>)
    ensures |gs| == |Keys(lines)|
    ensures forall k | 0 <= k < |gs| :: gs[k] == GroupOf(c, r, lines, Keys(lines)[k])
  {
    var keys := Keys(lines);
    seq(|keys|, k requires 0 <= k < |keys| => GroupOf(c, r, lines, keys[k]))
  }

  // ---------- Delivery and commission ----------

  function Owner(key: SellerKey): Option<Ledger.AffiliateId> {
    match key
    case Store => None
    case Of(a) => Some(a)
  }

  function DeliveryFor(r: Request, key: SellerKey, sellers: nat): Option<Delivery> {
    if key in r.perSeller then Some(r.perSeller[key]) else if sellers == 1 then Some(r.delivery) else None
  }

  function ShippingPrice(c: Catalog, key: SellerKey, d: Delivery): Result<nat, Error> {
    match d
    case Shipment(rate, province) =>
      if rate in c.rates && c.rates[rate].active && c.rates[rate].zoneActive && c.rates[rate].owner == Owner(key) && province in c.rates[rate].provinces
      then Success(c.rates[rate].price) else Failure(InvalidShippingRate)
    case Pickup(point) =>
      if point in c.points && c.points[point].active && c.points[point].owner == Owner(key) then Success(0) else Failure(InvalidPickupPoint)
  }

  function Commission(key: SellerKey, subtotal: nat, bps: Bps): nat {
    if key == Store then 0 else (subtotal * bps + 9999) / 10000
  }

  function Deliver(c: Catalog, r: Request, g: Group, sellers: nat): Result<Group, Error> {
    match DeliveryFor(r, g.key, sellers)
    case None => Failure(DeliveryRequired)
    case Some(d) =>
      match ShippingPrice(c, g.key, d)
      case Failure(e) => Failure(e)
      case Success(price) =>
        var commission := Commission(g.key, g.subtotal, g.bps);
        Success(g.(shipping := price, commission := commission, net := g.subtotal + price - commission, delivery := d))
  }

  function DeliverAll(c: Catalog, r: Request, gs: seq<Group>, sellers: nat): Result<seq<Group>, Error> {
    if gs == [] then Success([]) else
    match DeliverAll(c, r, gs[..|gs| - 1], sellers)
    case Failure(e) => Failure(e)
    case Success(front) =>
      match Deliver(c, r, gs[|gs| - 1], sellers)
      case Failure(e) => Failure(e)
      case Success(g) => Success(front + [g])
  }

  function StoreSubtotal(gs: seq<Group>): nat {
    if gs == [] then 0 else StoreSubtotal(gs[..|gs| - 1]) + if gs[|gs| - 1].key == Store then gs[|gs| - 1].subtotal else 0
  }

  function Shipping(gs: seq<Group>): nat {
    if gs == [] then 0 else Shipping(gs[..|gs| - 1]) + gs[|gs| - 1].shipping
  }

  function QuoteOf(c: Catalog, account: Loyalty.Account, r: Request, lines: seq<Priced>, groups: seq<Group>): Result<Quote, Error> {
    match Loyalty.CalculateQuote(c.program, account, StoreSubtotal(groups), r.pointsToRedeem)
    case Failure(e) => Failure(LoyaltyError(e))
    case Success(points) =>
      Success(Quote(lines, groups, Amounts(lines), Shipping(groups), points.discount,
                    Amounts(lines) + Shipping(groups) - points.discount, points))
  }

  /** What the request schema demands of the items. */
  predicate ValidItems(items: seq<Item>) {
    1 <= |items| <= 50 && forall i <- items :: 1 <= i.quantity <= 100
  }

  /** `calculateCheckout`. */
  function Calculate(c: Catalog, inv: map<Stock.ProductId, Stock.Inventory>, account: Loyalty.Account, r: Request): Result<Quote, Error> {
    if !ValidItems(r.items) then Failure(InvalidRequest) else
    match PriceItems(c, inv, r.user, r.items)
    case Failure(e) => Failure(e)
    case Success(lines) =>
      match DeliverAll(c, r, GroupAll(c, r, lines), |Keys(lines)|)
      case Failure(e) => Failure(e)
      case Success(groups) => QuoteOf(c, account, r, lines, groups)
  }

  // ---------- What order creation takes from a quote ----------

  function StockLines(q: Quote): (ls: seq<Stock.Line>)
    ensures |ls| == |q.lines|
    ensures forall k | 0 <= k < |ls| :: ls[k] == Stock.Line(q.lines[k].item.product, q.lines[k].item.quantity)
  {
    seq(|q.lines|, k requires 0 <= k < |q.lines| => Stock.Line(q.lines[k].item.product, q.lines[k].item.quantity))
  }

  function Child(g: Group): SellerOrders.SellerOrder {
    SellerOrders.SellerOrder(Owner(g.key), SellerOrders.PendingPayment, 1, g.subtotal, g.shipping, g.commission, g.net,
      if g.delivery.Pickup? then SellerOrders.Fulfillment.Pickup else SellerOrders.Fulfillment.Shipment, None, [], [], [], false)
  }

  function Children(q: Quote): (cs: seq<SellerOrders.SellerOrder>)
    ensures |cs| == |q.groups|
    ensures forall k | 0 <= k < |cs| :: cs[k] == Child(q.groups[k])
  {
    seq(|q.groups|, k requires 0 <= k < |q.groups| => Child(q.groups[k]))
  }
}
