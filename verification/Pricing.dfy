/** What a quote costs, said of the items asked for and the catalogue. */
module Pricing {
  import opened Wrappers
  import opened Checkout
  import CL = CheckoutLaws
  import Loyalty
  import LoyaltyLaws
  import Stock

  predicate Listed(c: Catalog, items: seq<Item>) {
    forall i <- items :: i.product in c.products
  }

  /** Price times quantity. */
  function Cost(c: Catalog, i: Item): nat
    requires i.product in c.products
  {
    c.products[i.product].price * i.quantity
  }

  function SellerOf(c: Catalog, i: Item): SellerKey
    requires i.product in c.products
  {
    match c.products[i.product].seller
    case None => Store
    case Some(seller) => Of(seller.id)
  }

  /** What the items cost together. */
  function CostOf(c: Catalog, items: seq<Item>): nat
    requires Listed(c, items)
  {
    if items == [] then 0 else CostOf(c, items[..|items| - 1]) + Cost(c, items[|items| - 1])
  }

  /** What the items of one seller cost together. */
  function CostFor(c: Catalog, items: seq<Item>, key: SellerKey): nat
    requires Listed(c, items)
  {
    if items == [] then 0 else
      CostFor(c, items[..|items| - 1], key) + if SellerOf(c, items[|items| - 1]) == key then Cost(c, items[|items| - 1]) else 0
  }

  /** The commission rate of a product: its seller's own, or the program's. */
  function RateOf(c: Catalog, i: Item): nat
    requires i.product in c.products && c.products[i.product].seller.Some?
  {
    var seller := c.products[i.product].seller.value;
    if seller.bpsOverride.Some? then seller.bpsOverride.value else c.defaultBps
  }

  /** Each line is its item at price times quantity. */
  ghost predicate LinesPriced(c: Catalog, items: seq<Item>, lines: seq<Priced>) {
    && Listed(c, items) && |lines| == |items|
    && forall k | 0 <= k < |items| :: lines[k] == Priced(items[k], c.products[items[k].product], c.products[items[k].product].price * items[k].quantity)
  }

  /** The first item of the seller decides the rate; the commission is that share rounded up, and the rest is the seller's. */
  ghost predicate SellerPaid(c: Catalog, items: seq<Item>, g: Group)
    requires Listed(c, items)
  {
    && g.net == g.subtotal + g.shipping - g.commission
    && (g.key == Store ==> g.commission == 0)
    && (g.key != Store ==>
          exists k | 0 <= k < |items| ::
            && SellerOf(c, items[k]) == g.key && (forall j | 0 <= j < k :: SellerOf(c, items[j]) != g.key)
            && g.commission * 10000 >= g.subtotal * RateOf(c, items[k]) && (g.commission - 1) * 10000 < g.subtotal * RateOf(c, items[k]))
  }

  /** The delivery chosen for the seller, or the common one of a basket with a single seller, at that seller's own rate. */
  ghost predicate Shipped(c: Catalog, r: Request, g: Group, sellers: nat) {
    var owner := if g.key == Store then None else Some(g.key.affiliate);
    && (if g.key in r.perSeller then g.delivery == r.perSeller[g.key] else sellers == 1 && g.delivery == r.delivery)
    && match g.delivery
       case Pickup(point) => g.shipping == 0 && point in c.points && c.points[point].active && c.points[point].owner == owner
       case Shipment(rate, province) =>
         && rate in c.rates && c.rates[rate].active && c.rates[rate].zoneActive && c.rates[rate].owner == owner
         && province in c.rates[rate].provinces && g.shipping == c.rates[rate].price
  }

  // ---------- Sums ----------

  lemma {:induction false} CostIsAmounts(c: Catalog, items: seq<Item>, lines: seq<Priced>)
    requires LinesPriced(c, items, lines)
    ensures Amounts(lines) == CostOf(c, items)
  {
    if items != [] { CostIsAmounts(c, items[..|items| - 1], lines[..|lines| - 1]); }
  }

  lemma {:induction false} CostIsAmountsOf(c: Catalog, items: seq<Item>, lines: seq<Priced>, key: SellerKey)
    requires LinesPriced(c, items, lines)
    ensures Amounts(LinesOf(lines, key)) == CostFor(c, items, key)
  {
    if items != [] {
      var n := |items| - 1;
      CostIsAmountsOf(c, items[..n], lines[..n], key);
      assert lines == lines[..n] + [lines[n]] && lines[n].Key() == SellerOf(c, items[n]);
      CL.LinesOfAppend(lines[..n], lines[n], key);
      CL.AmountsAppend(LinesOf(lines[..n], key), lines[n]);
    }
  }

  lemma {:induction false} FirstLine(c: Catalog, items: seq<Item>, lines: seq<Priced>, key: SellerKey)
    requires LinesPriced(c, items, lines) && key in Keys(lines)
    ensures LinesOf(lines, key) != []
    ensures exists k | 0 <= k < |items| ::
              SellerOf(c, items[k]) == key && LinesOf(lines, key)[0] == lines[k] && (forall j | 0 <= j < k :: SellerOf(c, items[j]) != key)
  {
    var n := |items| - 1;
    if key in Keys(lines[..n]) {
      FirstLine(c, items[..n], lines[..n], key);
      var k :| 0 <= k < n && SellerOf(c, items[k]) == key && LinesOf(lines[..n], key)[0] == lines[k] && (forall j | 0 <= j < k :: SellerOf(c, items[..n][j]) != key);
      assert forall j | 0 <= j < k :: SellerOf(c, items[j]) == SellerOf(c, items[..n][j]);
    } else {
      LastIsFirst(c, items, lines, key);
    }
  }

  /** The last line of a basket is the first of a seller who has none before it. */
  lemma LastIsFirst(c: Catalog, items: seq<Item>, lines: seq<Priced>, key: SellerKey)
    requires LinesPriced(c, items, lines) && items != [] && key in Keys(lines) && key !in Keys(lines[..|items| - 1])
    ensures LinesOf(lines, key) == [lines[|items| - 1]] && SellerOf(c, items[|items| - 1]) == key
    ensures forall j | 0 <= j < |items| - 1 :: SellerOf(c, items[j]) != key
  {
    var n := |items| - 1;
    CL.KeysFacts(lines[..n]);
    CL.LinesOfFacts(lines[..n], key);
    forall j | 0 <= j < n ensures SellerOf(c, items[j]) != key { assert lines[j] in lines[..n]; }
  }

  // ---------- Refusals ----------

  /** Why the product of an item cannot be ordered by this buyer now; the first reason in this order counts. */
  function Reason(c: Catalog, inv: map<Stock.ProductId, Stock.Inventory>, user: Loyalty.UserId, item: Item): Option<Error> {
    if item.product !in c.products then Some(ProductUnavailable) else
    match c.products[item.product]
    case Product(published, version, _, seller) =>
      if !published then Some(ProductUnavailable)
      else if seller.Some? && !(seller.value.active && seller.value.listingApproved) then Some(ListingUnavailable)
      else if seller.Some? && seller.value.user == user then Some(OwnProduct)
      else if version != item.version then Some(ProductChanged)
      else if item.product in inv && inv[item.product].onHand >= inv[item.product].reserved + item.quantity then None
      else if item.quantity > 0 || item.product in inv then Some(OutOfStock)
      else None
  }

  /** A basket is refused with the reason of the first item that has one. */
  lemma BasketRefusal(c: Catalog, inv: map<Stock.ProductId, Stock.Inventory>, user: Loyalty.UserId, items: seq<Item>) returns (k: nat)
    requires PriceItems(c, inv, user, items).Failure?
    ensures k < |items| && Reason(c, inv, user, items[k]) == Some(PriceItems(c, inv, user, items).error)
    ensures forall j | 0 <= j < k :: Reason(c, inv, user, items[j]) == None
  {
    k := CL.FirstBadItemDecides(c, inv, user, items);
  }

  // ---------- Quotes ----------

  lemma ItemsPriced(c: Catalog, inv: map<Stock.ProductId, Stock.Inventory>, user: Loyalty.UserId, items: seq<Item>)
    requires PriceItems(c, inv, user, items).Success?
    ensures LinesPriced(c, items, PriceItems(c, inv, user, items).value)
  {
    CL.PriceItemsFacts(c, inv, user, items);
    CL.BasketPricedIff(c, inv, user, items);
  }

  lemma GroupPriced(c: Catalog, r: Request, items: seq<Item>, lines: seq<Priced>, key: SellerKey, sellers: nat)
    requires LinesPriced(c, items, lines) && key in Keys(lines)
    requires Deliver(c, r, GroupOf(c, r, lines, key), sellers).Success?
    ensures var g := Deliver(c, r, GroupOf(c, r, lines, key), sellers).value;
            g.key == key && g.subtotal == CostFor(c, items, key) && SellerPaid(c, items, g) && Shipped(c, r, g, sellers)
  {
    CostIsAmountsOf(c, items, lines, key);
    FirstLine(c, items, lines, key);
    var before := GroupOf(c, r, lines, key);
    CL.CommissionIsCeiling(key, before.subtotal, before.bps);
  }

  /**
   Every accepted quote: a line for each item at price times quantity, their sum as the subtotal, one group
   a seller with the sum over his items, delivered and paid as the catalogue says, and the total.
   */
  lemma QuotePrices(c: Catalog, inv: map<Stock.ProductId, Stock.Inventory>, account: Loyalty.Account, r: Request)
    requires Calculate(c, inv, account, r).Success?
    ensures var q := Calculate(c, inv, account, r).value;
            && LinesPriced(c, r.items, q.lines) && q.subtotal == CostOf(c, r.items)
            && (forall j, k | 0 <= j < k < |q.groups| :: q.groups[j].key != q.groups[k].key)
            && (forall i <- r.items :: exists g <- q.groups :: g.key == SellerOf(c, i))
            && (forall g <- q.groups ::
                  g.subtotal == CostFor(c, r.items, g.key) && SellerPaid(c, r.items, g) && Shipped(c, r, g, |q.groups|))
            && q.total == q.subtotal + q.shipping - q.discount && q.shipping == ShippingOf(q.groups)
  {
    var q := Calculate(c, inv, account, r).value;
    ItemsPriced(c, inv, r.user, r.items);
    CostIsAmounts(c, r.items, q.lines);
    CL.KeysFacts(q.lines);
    CL.DeliverAllFacts(c, r, GroupAll(c, r, q.lines), |Keys(q.lines)|);
    GroupsPriced(c, r, r.items, q.lines, q.groups);
    ShippingIsSum(q.groups);
  }

  lemma GroupsPriced(c: Catalog, r: Request, items: seq<Item>, lines: seq<Priced>, groups: seq<Group>)
    requires LinesPriced(c, items, lines) && |groups| == |Keys(lines)|
    requires forall k | 0 <= k < |groups| :: Deliver(c, r, GroupAll(c, r, lines)[k], |Keys(lines)|) == Success(groups[k])
    ensures forall j, k | 0 <= j < k < |groups| :: groups[j].key != groups[k].key
    ensures forall i <- items :: exists g <- groups :: g.key == SellerOf(c, i)
    ensures forall g <- groups :: g.subtotal == CostFor(c, items, g.key) && SellerPaid(c, items, g) && Shipped(c, r, g, |groups|)
  {
    CL.KeysFacts(lines);
    forall k | 0 <= k < |groups|
      ensures groups[k].key == Keys(lines)[k] && groups[k].subtotal == CostFor(c, items, groups[k].key)
      ensures SellerPaid(c, items, groups[k]) && Shipped(c, r, groups[k], |groups|)
    {
      assert GroupAll(c, r, lines)[k] == GroupOf(c, r, lines, Keys(lines)[k]);
      GroupPriced(c, r, items, lines, Keys(lines)[k], |Keys(lines)|);
    }
    forall i | i in items ensures exists g <- groups :: g.key == SellerOf(c, i) {
      var n :| 0 <= n < |items| && items[n] == i;
      assert lines[n] in lines && lines[n].Key() == SellerOf(c, i);
      var k :| 0 <= k < |Keys(lines)| && Keys(lines)[k] == lines[n].Key();
      assert groups[k] in groups;
    }
  }

  function ShippingOf(groups: seq<Group>): nat {
    if groups == [] then 0 else groups[0].shipping + ShippingOf(groups[1..])
  }

  lemma {:induction false} ShippingIsSum(groups: seq<Group>)
    ensures Shipping(groups) == ShippingOf(groups)
  {
    if |groups| > 0 {
      ShippingIsSum(groups[1..]);
      ShippingFront(groups);
    }
  }

  lemma {:induction false} ShippingFront(groups: seq<Group>)
    requires groups != []
    ensures Shipping(groups) == groups[0].shipping + Shipping(groups[1..])
  {
    if |groups| > 1 {
      ShippingFront(groups[..|groups| - 1]);
      assert groups[..|groups| - 1][1..] == groups[1..][..|groups| - 2];
    }
  }

  /** The discount is the value of the points, and each full step of what the store's own products still cost earns points. */
  lemma QuoteRewards(c: Catalog, inv: map<Stock.ProductId, Stock.Inventory>, account: Loyalty.Account, r: Request, steps: nat)
    requires Calculate(c, inv, account, r).Success? && c.program.enabled
    ensures var q := Calculate(c, inv, account, r).value;
            && Listed(c, r.items)
            && q.loyalty.pointsRedeemed == r.pointsToRedeem && q.discount == r.pointsToRedeem * c.program.pointValue
            && var eligible := CostFor(c, r.items, Store) - q.discount;
            && eligible >= 0
            && (c.program.spendPerPoint > 0 && steps * c.program.spendPerPoint <= eligible < (steps + 1) * c.program.spendPerPoint ==>
                  q.loyalty.pointsToEarn == steps * c.program.pointsPerStep)
            && (c.program.spendPerPoint <= 0 ==> q.loyalty.pointsToEarn == 0)
  {
    var q := Calculate(c, inv, account, r).value;
    QuotePrices(c, inv, account, r);
    StoreGroup(c, r.items, q.groups);
    LoyaltyLaws.QuoteValues(c.program, account, StoreSubtotal(q.groups), r.pointsToRedeem, steps);
  }

  lemma StoreGroup(c: Catalog, items: seq<Item>, groups: seq<Group>)
    requires Listed(c, items) && forall g <- groups :: g.subtotal == CostFor(c, items, g.key)
    requires forall j, k | 0 <= j < k < |groups| :: groups[j].key != groups[k].key
    requires forall i <- items :: exists g <- groups :: g.key == SellerOf(c, i)
    ensures StoreSubtotal(groups) == CostFor(c, items, Store)
  {
    StoreOnce(groups);
    if forall g <- groups :: g.key != Store {
      forall i | i in items ensures SellerOf(c, i) != Store {
        var g :| g in groups && g.key == SellerOf(c, i);
      }
      NoStoreCost(c, items);
    }
  }

  lemma {:induction false} NoStoreCost(c: Catalog, items: seq<Item>)
    requires Listed(c, items) && forall i <- items :: SellerOf(c, i) != Store
    ensures CostFor(c, items, Store) == 0
  {
    if items != [] {
      NoStoreCost(c, items[..|items| - 1]);
      assert items[|items| - 1] in items;
    }
  }

  lemma {:induction false} StoreOnce(groups: seq<Group>)
    requires forall j, k | 0 <= j < k < |groups| :: groups[j].key != groups[k].key
    ensures forall g <- groups :: g.key == Store ==> StoreSubtotal(groups) == g.subtotal
    ensures (forall g <- groups :: g.key != Store) ==> StoreSubtotal(groups) == 0
  {
    if groups != [] {
      var n := |groups| - 1;
      StoreOnce(groups[..n]);
      assert groups == groups[..n] + [groups[n]];
    }
  }
}
