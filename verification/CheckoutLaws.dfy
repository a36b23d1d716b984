/** Laws of the checkout and the loops that compute it. */
module CheckoutLaws {
  import opened Arithmetic
  import opened Wrappers
  import opened Checkout
  import Loyalty
  import LoyaltyLaws
  import SellerOrders
  import Stock

  // ---------- Sellers partition the basket ----------

  lemma {:induction false} KeysFacts(lines: seq<Priced>)
    ensures forall j, k | 0 <= j < k < |Keys(lines)| :: Keys(lines)[j] != Keys(lines)[k]
    ensures forall l <- lines :: l.Key() in Keys(lines)
    ensures lines != [] ==> Keys(lines) != []
  {
    if lines != [] {
      KeysFacts(lines[..|lines| - 1]);
      assert lines == lines[..|lines| - 1] + [lines[|lines| - 1]];
    }
  }

  lemma {:induction false} LinesOfMembers(lines: seq<Priced>, key: SellerKey, l: Priced)
    ensures l in LinesOf(lines, key) <==> l in lines && l.Key() == key
  {
    if lines != [] {
      var n := |lines| - 1;
      LinesOfMembers(lines[..n], key, l);
      assert l in lines <==> l in lines[..n] || l == lines[n];
    }
  }

  lemma LinesOfFacts(lines: seq<Priced>, key: SellerKey)
    ensures forall l <- LinesOf(lines, key) :: l.Key() == key
    ensures (LinesOf(lines, key) != []) <==> (exists l <- lines :: l.Key() == key)
  {
    forall l ensures l in LinesOf(lines, key) <==> l in lines && l.Key() == key {
      LinesOfMembers(lines, key, l);
    }
    if LinesOf(lines, key) != [] { assert LinesOf(lines, key)[0] in LinesOf(lines, key); }
  }

  lemma LinesOfAppend(lines: seq<Priced>, l: Priced, key: SellerKey)
    ensures LinesOf(lines + [l], key) == if l.Key() == key then LinesOf(lines, key) + [l] else LinesOf(lines, key)
  {
  }

  lemma KeysAppend(lines: seq<Priced>, l: Priced)
    ensures Keys(lines + [l]) == if l.Key() in Keys(lines) then Keys(lines) else Keys(lines) + [l.Key()]
  {
  }

  lemma AmountsAppend(lines: seq<Priced>, l: Priced)
    ensures Amounts(lines + [l]) == Amounts(lines) + l.amount
  {
  }

  /**
   The sellers partition the basket: they are distinct, each line's seller is among them, and a
   seller's group holds each line as often as the basket does if the line is his, and never otherwise.
   */
  lemma {:induction false} GroupsPartition(lines: seq<Priced>, key: SellerKey, l: Priced)
    ensures multiset(LinesOf(lines, key))[l] == if l.Key() == key then multiset(lines)[l] else 0
    ensures l in lines ==> l.Key() in Keys(lines)
    ensures forall j, k | 0 <= j < k < |Keys(lines)| :: Keys(lines)[j] != Keys(lines)[k]
  {
    KeysFacts(lines);
    if lines != [] {
      var front := lines[..|lines| - 1];
      assert lines == front + [lines[|lines| - 1]];
      GroupsPartition(front, key, l);
      LinesOfAppend(front, lines[|lines| - 1], key);
    }
  }

  /** The subtotals of the given sellers, added up. */
  function SumOver(lines: seq<Priced>, keys: seq<SellerKey>): nat {
    if keys == [] then 0 else SumOver(lines, keys[..|keys| - 1]) + Amounts(LinesOf(lines, keys[|keys| - 1]))
  }

  lemma {:induction false} SumOverAppend(lines: seq<Priced>, keys: seq<SellerKey>, l: Priced)
    requires forall j, k | 0 <= j < k < |keys| :: keys[j] != keys[k]
    ensures SumOver(lines + [l], keys) == SumOver(lines, keys) + if l.Key() in keys then l.amount else 0
  {
    if keys != [] {
      var n := |keys| - 1;
      SumOverAppend(lines, keys[..n], l);
      assert l.Key() in keys <==> l.Key() in keys[..n] || l.Key() == keys[n];
      LinesOfAppend(lines, l, keys[n]);
      AmountsAppend(LinesOf(lines, keys[n]), l);
    }
  }

  /** The groups' subtotals add up to the basket. */
  lemma {:induction false} GroupsConserve(lines: seq<Priced>)
    ensures SumOver(lines, Keys(lines)) == Amounts(lines)
  {
    if lines != [] {
      var front := lines[..|lines| - 1];
      var l := lines[|lines| - 1];
      assert lines == front + [l];
      GroupsConserve(front);
      ConserveStep(front, l);
    }
  }

  lemma ConserveStep(front: seq<Priced>, l: Priced)
    requires SumOver(front, Keys(front)) == Amounts(front)
    ensures SumOver(front + [l], Keys(front + [l])) == Amounts(front + [l])
  {
    KeysFacts(front);
    KeysAppend(front, l);
    AmountsAppend(front, l);
    SumOverAppend(front, Keys(front), l);
    if l.Key() !in Keys(front) { NewKeyAmount(front, l); }
  }

  lemma NewKeyAmount(front: seq<Priced>, l: Priced)
    requires l.Key() !in Keys(front)
    ensures SumOver(front + [l], Keys(front) + [l.Key()]) == SumOver(front + [l], Keys(front)) + l.amount
  {
    var keys := Keys(front) + [l.Key()];
    assert keys[..|keys| - 1] == Keys(front);
    KeysFacts(front);
    LinesOfFacts(front, l.Key());
    LinesOfAppend(front, l, l.Key());
    AmountsAppend([], l);
    assert [] + [l] == [l];
  }

  // ---------- Commission ----------

  /** The commission is the exact ceiling of subtotal × bps / 10000 and never exceeds the subtotal. */
  lemma CommissionIsCeiling(key: SellerKey, subtotal: nat, bps: Bps)
    ensures var c := Commission(key, subtotal, bps);
            && c <= subtotal
            && (key != Store ==> c * 10000 >= subtotal * bps && (c - 1) * 10000 < subtotal * bps)
            && (key == Store ==> c == 0)
  {
    MulMonotone(bps, 10000, subtotal);
    assert subtotal * bps <= subtotal * 10000;
    DivAtMost(subtotal * bps + 9999, 10000, subtotal);
  }

  // ---------- Groups after delivery ----------

  lemma {:induction false} DeliverAllFacts(c: Catalog, r: Request, gs: seq<Group>, sellers: nat)
    requires DeliverAll(c, r, gs, sellers).Success?
    ensures var ds := DeliverAll(c, r, gs, sellers).value;
            |ds| == |gs| && forall k | 0 <= k < |gs| :: Deliver(c, r, gs[k], sellers) == Success(ds[k])
  {
    if gs != [] {
      DeliverAllFacts(c, r, gs[..|gs| - 1], sellers);
    }
  }

  function NetAndCommission(gs: seq<Group>): int {
    if gs == [] then 0 else NetAndCommission(gs[..|gs| - 1]) + gs[|gs| - 1].net + gs[|gs| - 1].commission
  }

  function AffiliateSubtotal(gs: seq<Group>): nat {
    if gs == [] then 0 else AffiliateSubtotal(gs[..|gs| - 1]) + if gs[|gs| - 1].key == Store then 0 else gs[|gs| - 1].subtotal
  }

  ghost predicate Delivered(g: Group) {
    g.net == g.subtotal + g.shipping - g.commission && g.commission == Commission(g.key, g.subtotal, g.bps)
  }

  lemma {:induction false} GroupSums(gs: seq<Group>, lines: seq<Priced>, keys: seq<SellerKey>)
    requires |gs| == |keys| && forall k | 0 <= k < |gs| :: Delivered(gs[k]) && gs[k].subtotal == Amounts(LinesOf(lines, keys[k]))
    ensures NetAndCommission(gs) == SumOver(lines, keys) + Shipping(gs)
    ensures StoreSubtotal(gs) + AffiliateSubtotal(gs) == SumOver(lines, keys)
  {
    if gs != [] {
      var n := |gs| - 1;
      GroupSums(gs[..n], lines, keys[..n]);
    }
  }

  lemma {:induction false} PriceItemsFacts(c: Catalog, inv: map<Stock.ProductId, Stock.Inventory>, user: Loyalty.UserId, items: seq<Item>)
    requires PriceItems(c, inv, user, items).Success?
    ensures var lines := PriceItems(c, inv, user, items).value;
            |lines| == |items| && forall k | 0 <= k < |items| :: PriceItem(c, inv, user, items[k]) == Success(lines[k])
  {
    if items != [] {
      PriceItemsFacts(c, inv, user, items[..|items| - 1]);
    }
  }

  /**
   Every accepted quote conserves money: what sellers net plus commissions is what the basket and the
   shipping cost; the discount stays within the configured part of the store's own products, so the
   total always covers the affiliates' products and the shipping.
   */
  lemma QuoteConserves(c: Catalog, inv: map<Stock.ProductId, Stock.Inventory>, account: Loyalty.Account, r: Request)
    requires Calculate(c, inv, account, r).Success?
    ensures var q := Calculate(c, inv, account, r).value;
            && NetAndCommission(q.groups) == q.subtotal + q.shipping
            && StoreSubtotal(q.groups) + AffiliateSubtotal(q.groups) == q.subtotal
            && 0 <= q.discount <= StoreSubtotal(q.groups)
            && q.discount * 100 <= StoreSubtotal(q.groups) * c.program.maximumPercent
            && q.total == q.subtotal + q.shipping - q.discount >= AffiliateSubtotal(q.groups) + q.shipping
  {
    var q := Calculate(c, inv, account, r).value;
    var gs := GroupAll(c, r, q.lines);
    DeliverAllFacts(c, r, gs, |Keys(q.lines)|);
    forall k | 0 <= k < |gs| ensures Delivered(q.groups[k]) && q.groups[k].subtotal == Amounts(LinesOf(q.lines, Keys(q.lines)[k])) {
      assert Deliver(c, r, gs[k], |Keys(q.lines)|) == Success(q.groups[k]);
    }
    GroupSums(q.groups, q.lines, Keys(q.lines));
    GroupsConserve(q.lines);
    LoyaltyLaws.QuoteBounds(c.program, account, StoreSubtotal(q.groups), r.pointsToRedeem);
  }

  lemma ChildOk(c: Catalog, r: Request, g: Group, sellers: nat)
    requires Deliver(c, r, g, sellers).Success?
    ensures var o := Child(Deliver(c, r, g, sellers).value);
            SellerOrders.AmountsOk(o) && o.status == SellerOrders.PendingPayment
  {
    CommissionIsCeiling(g.key, g.subtotal, g.bps);
  }

  lemma GroupChildren(c: Catalog, r: Request, gs: seq<Group>, sellers: nat)
    requires DeliverAll(c, r, gs, sellers).Success?
    ensures var ds := DeliverAll(c, r, gs, sellers).value;
            |ds| == |gs| && forall k | 0 <= k < |ds| :: SellerOrders.AmountsOk(Child(ds[k]))
  {
  }

  lemma LineQuantities(c: Catalog, inv: map<Stock.ProductId, Stock.Inventory>, user: Loyalty.UserId, items: seq<Item>)
    requires ValidItems(items) && PriceItems(c, inv, user, items).Success?
    ensures var lines := PriceItems(c, inv, user, items).value;
            lines != [] && forall k | 0 <= k < |lines| :: lines[k].item.quantity >= 1
  {
  }

  lemma PricedItems(c: Catalog, inv: map<Stock.ProductId, Stock.Inventory>, user: Loyalty.UserId, items: seq<Item>)
    requires PriceItems(c, inv, user, items).Success?
    ensures var lines := PriceItems(c, inv, user, items).value;
            |lines| == |items| && forall k | 0 <= k < |items| :: lines[k].item == items[k]
  {
  }

  /** Line by line, a quote is about the items asked for. */
  lemma LineProducts(c: Catalog, inv: map<Stock.ProductId, Stock.Inventory>, account: Loyalty.Account, r: Request)
    requires Calculate(c, inv, account, r).Success?
    ensures var q := Calculate(c, inv, account, r).value;
            |q.lines| == |r.items| && forall k | 0 <= k < |r.items| :: q.lines[k].item == r.items[k]
  {
    PricedItems(c, inv, r.user, r.items);
  }

  /** What order creation may rely on: one or more children with consistent amounts, and positive quantities. */
  lemma QuoteChildren(c: Catalog, inv: map<Stock.ProductId, Stock.Inventory>, account: Loyalty.Account, r: Request)
    requires Calculate(c, inv, account, r).Success?
    ensures var q := Calculate(c, inv, account, r).value;
            && q.groups != [] && q.lines != []
            && (forall k | 0 <= k < |q.groups| :: SellerOrders.AmountsOk(Child(q.groups[k])))
            && (forall k | 0 <= k < |q.lines| :: q.lines[k].item.quantity >= 1)
            && q.loyalty.pointsRedeemed == r.pointsToRedeem && q.loyalty.pointsToEarn >= 0
  {
    var q := Calculate(c, inv, account, r).value;
    LineQuantities(c, inv, r.user, r.items);
    KeysFacts(q.lines);
    GroupChildren(c, r, GroupAll(c, r, q.lines), |Keys(q.lines)|);
    DeliverAllFacts(c, r, GroupAll(c, r, q.lines), |Keys(q.lines)|);
    QuotePoints(c, account, r, q);
  }

  lemma QuotePoints(c: Catalog, account: Loyalty.Account, r: Request, q: Quote)
    requires QuoteOf(c, account, r, q.lines, q.groups) == Success(q)
    ensures q.loyalty.pointsRedeemed == r.pointsToRedeem && q.loyalty.pointsToEarn >= 0
  {
    LoyaltyLaws.QuoteBounds(c.program, account, StoreSubtotal(q.groups), r.pointsToRedeem);
  }

  // ---------- Which baskets are accepted ----------

  /** An item the buyer may order: on sale by a seller in good standing who is not the buyer, as seen, and available. */
  predicate Orderable(c: Catalog, inv: map<Stock.ProductId, Stock.Inventory>, user: Loyalty.UserId, i: Item) {
    && i.product in c.products
    && var p := c.products[i.product];
    && p.published && p.version == i.version && i.quantity <= Available(inv, i.product)
    && (p.seller.Some? ==> p.seller.value.active && p.seller.value.listingApproved && p.seller.value.user != user)
  }

  predicate FirstBad(c: Catalog, inv: map<Stock.ProductId, Stock.Inventory>, user: Loyalty.UserId, items: seq<Item>, k: nat)
    requires k < |items|
  {
    forall j | 0 <= j < k :: Orderable(c, inv, user, items[j])
  }

  /** A basket is priced exactly when every item may be ordered. */
  lemma {:induction false} BasketPricedIff(c: Catalog, inv: map<Stock.ProductId, Stock.Inventory>, user: Loyalty.UserId, items: seq<Item>)
    ensures PriceItems(c, inv, user, items).Success? <==> forall i <- items :: Orderable(c, inv, user, i)
  {
    if items != [] {
      var n := |items| - 1;
      BasketPricedIff(c, inv, user, items[..n]);
      assert items == items[..n] + [items[n]];
      assert (forall i <- items :: Orderable(c, inv, user, i)) <==> (forall i <- items[..n] :: Orderable(c, inv, user, i)) && Orderable(c, inv, user, items[n]);
    }
  }

  /** The first item that may not be ordered decides the error. */
  lemma {:induction false} FirstBadItemDecides(c: Catalog, inv: map<Stock.ProductId, Stock.Inventory>, user: Loyalty.UserId, items: seq<Item>) returns (k: nat)
    requires PriceItems(c, inv, user, items).Failure?
    ensures k < |items| && FirstBad(c, inv, user, items, k) && PriceItem(c, inv, user, items[k]) == Failure(PriceItems(c, inv, user, items).error)
  {
    var n := |items| - 1;
    if PriceItems(c, inv, user, items[..n]).Success? {
      k := n;
      BasketPricedIff(c, inv, user, items[..n]);
      forall j | 0 <= j < n ensures Orderable(c, inv, user, items[j]) { assert items[j] in items[..n]; }
    } else {
      k := FirstBadItemDecides(c, inv, user, items[..n]);
      assert forall j | 0 <= j < k :: items[..n][j] == items[j];
    }
  }
}
