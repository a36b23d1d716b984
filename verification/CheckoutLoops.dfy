/** The loops that price a basket, group it by seller and deliver the groups. */
module CheckoutLoops {
  import opened Wrappers
  import opened Checkout
  import opened CheckoutLaws
  import Loyalty
  import P = Pricing
  import Stock

  lemma PriceItemsStep(c: Catalog, inv: map<Stock.ProductId, Stock.Inventory>, user: Loyalty.UserId, items: seq<Item>, k: nat)
    requires k < |items|
    ensures PriceItems(c, inv, user, items[..k + 1]) ==
              match PriceItems(c, inv, user, items[..k])
              case Failure(e) => Failure(e)
              case Success(front) =>
                match PriceItem(c, inv, user, items[k])
                case Failure(e) => Failure(e)
                case Success(line) => Success(front + [line])
  {
    assert items[..k + 1][..k] == items[..k];
  }

  /** A failure among the first items is the failure of the basket. */
  lemma {:induction false} FirstFailureWins(c: Catalog, inv: map<Stock.ProductId, Stock.Inventory>, user: Loyalty.UserId, items: seq<Item>, k: nat)
    requires k <= |items| && PriceItems(c, inv, user, items[..k]).Failure?
    ensures PriceItems(c, inv, user, items) == PriceItems(c, inv, user, items[..k])
    decreases |items| - k
  {
    if k < |items| {
      PriceItemsStep(c, inv, user, items, k);
      FirstFailureWins(c, inv, user, items, k + 1);
    } else {
      assert items[..k] == items;
    }
  }

  /** The pricing loop accumulates the lines and the basket subtotal. */
  method PriceBasket(c: Catalog, inv: map<Stock.ProductId, Stock.Inventory>, user: Loyalty.UserId, items: seq<Item>)
    returns (r: Result<seq<Priced>, Error>, subtotal: nat)
    ensures r == PriceItems(c, inv, user, items)
    ensures r.Success? ==> subtotal == Amounts(r.value)
    ensures r.Success? ==> P.LinesPriced(c, items, r.value) && subtotal == P.CostOf(c, items)
  {
    var lines := [];
    subtotal := 0;
    for k := 0 to |items|
      invariant PriceItems(c, inv, user, items[..k]) == Success(lines) && subtotal == Amounts(lines)
    {
      PriceItemsStep(c, inv, user, items, k);
      var priced := PriceItem(c, inv, user, items[k]);
      if priced.Failure? {
        FirstFailureWins(c, inv, user, items, k + 1);
        return Failure(priced.error), subtotal;
      }
      AmountsAppend(lines, priced.value);
      lines := lines + [priced.value];
      subtotal := subtotal + priced.value.amount;
    }
    assert items[..|items|] == items;
    r := Success(lines);
    P.ItemsPriced(c, inv, user, items);
    P.CostIsAmounts(c, items, lines);
  }

  method Find(groups: seq<Group>, key: SellerKey) returns (at: nat)
    ensures at <= |groups|
    ensures at < |groups| ==> groups[at].key == key
    ensures forall k | 0 <= k < at :: groups[k].key != key
  {
    at := 0;
    while at < |groups| && groups[at].key != key
      invariant at <= |groups|
      invariant forall k | 0 <= k < at :: groups[k].key != key
    {
      at := at + 1;
    }
  }

  lemma {:induction false} KeyHasLine(lines: seq<Priced>, key: SellerKey)
    requires key in Keys(lines)
    ensures LinesOf(lines, key) != []
  {
    var front := lines[..|lines| - 1];
    if key in Keys(front) { KeyHasLine(front, key); }
  }

  function Extend(g: Group, l: Priced): Group {
    g.(lines := g.lines + [l], subtotal := g.subtotal + l.amount)
  }

  function Fresh(c: Catalog, r: Request, l: Priced): Group {
    Group(l.Key(), [l], l.amount, 0, BpsOf(c, l.product), 0, 0, r.delivery)
  }

  lemma OtherGroup(c: Catalog, r: Request, lines: seq<Priced>, l: Priced, key: SellerKey)
    requires key != l.Key()
    ensures GroupOf(c, r, lines + [l], key) == GroupOf(c, r, lines, key)
  {
    LinesOfAppend(lines, l, key);
  }

  lemma ExtendedGroup(c: Catalog, r: Request, lines: seq<Priced>, l: Priced)
    requires l.Key() in Keys(lines)
    ensures GroupOf(c, r, lines + [l], l.Key()) == Extend(GroupOf(c, r, lines, l.Key()), l)
  {
    KeyHasLine(lines, l.Key());
    LinesOfAppend(lines, l, l.Key());
    AmountsAppend(LinesOf(lines, l.Key()), l);
  }

  lemma NewGroup(c: Catalog, r: Request, lines: seq<Priced>, l: Priced)
    requires l.Key() !in Keys(lines)
    ensures GroupOf(c, r, lines + [l], l.Key()) == Fresh(c, r, l)
  {
    KeysFacts(lines);
    LinesOfFacts(lines, l.Key());
    LinesOfAppend(lines, l, l.Key());
    AmountsAppend([], l);
    assert [] + [l] == [l];
  }

  lemma OtherGroups(c: Catalog, r: Request, lines: seq<Priced>, l: Priced, k: nat)
    requires k < |Keys(lines)| && Keys(lines)[k] != l.Key()
    ensures k < |Keys(lines + [l])| && GroupAll(c, r, lines + [l])[k] == GroupAll(c, r, lines)[k]
  {
    KeysAppend(lines, l);
    OtherGroup(c, r, lines, l, Keys(lines)[k]);
  }

  /** One more line of a known seller extends that seller's group. */
  lemma GroupExtends(c: Catalog, r: Request, lines: seq<Priced>, l: Priced, at: nat)
    requires at < |Keys(lines)| && Keys(lines)[at] == l.Key()
    ensures GroupAll(c, r, lines + [l]) == GroupAll(c, r, lines)[at := Extend(GroupAll(c, r, lines)[at], l)]
  {
    ExtendedAt(c, r, lines, l, at);
    var before, after := GroupAll(c, r, lines), GroupAll(c, r, lines + [l]);
    forall k | 0 <= k < |before| && k != at ensures after[k] == before[k] {
      KeysFacts(lines);
      OtherGroups(c, r, lines, l, k);
    }
    OneChanged(before, after, at);
  }

  lemma ExtendedAt(c: Catalog, r: Request, lines: seq<Priced>, l: Priced, at: nat)
    requires at < |Keys(lines)| && Keys(lines)[at] == l.Key()
    ensures |GroupAll(c, r, lines + [l])| == |GroupAll(c, r, lines)|
    ensures GroupAll(c, r, lines + [l])[at] == Extend(GroupAll(c, r, lines)[at], l)
  {
    KeysAppend(lines, l);
    ExtendedGroup(c, r, lines, l);
  }

  lemma OneChanged(before: seq<Group>, after: seq<Group>, at: nat)
    requires at < |before| == |after| && forall k | 0 <= k < |before| && k != at :: after[k] == before[k]
    ensures after == before[at := after[at]]
  {
  }

  /** The first line of a seller starts a group at the end. */
  lemma GroupStarts(c: Catalog, r: Request, lines: seq<Priced>, l: Priced)
    requires l.Key() !in Keys(lines)
    ensures GroupAll(c, r, lines + [l]) == GroupAll(c, r, lines) + [Fresh(c, r, l)]
  {
    StartedLast(c, r, lines, l);
    var before, after := GroupAll(c, r, lines), GroupAll(c, r, lines + [l]);
    forall k | 0 <= k < |before| ensures after[k] == before[k] {
      assert Keys(lines)[k] in Keys(lines);
      OtherGroups(c, r, lines, l, k);
    }
    OneAdded(before, after);
  }

  lemma StartedLast(c: Catalog, r: Request, lines: seq<Priced>, l: Priced)
    requires l.Key() !in Keys(lines)
    ensures |GroupAll(c, r, lines + [l])| == |GroupAll(c, r, lines)| + 1
    ensures GroupAll(c, r, lines + [l])[|GroupAll(c, r, lines)|] == Fresh(c, r, l)
  {
    KeysAppend(lines, l);
    NewGroup(c, r, lines, l);
  }

  lemma OneAdded(before: seq<Group>, after: seq<Group>)
    requires |after| == |before| + 1 && forall k | 0 <= k < |before| :: after[k] == before[k]
    ensures after == before + [after[|before|]]
  {
  }

  /** The grouping loop: an insertion-ordered table of sellers, updated line by line. */
  method GroupBySeller(c: Catalog, r: Request, lines: seq<Priced>) returns (groups: seq<Group>)
    ensures groups == GroupAll(c, r, lines)
  {
    groups := [];
    for k := 0 to |lines|
      invariant groups == GroupAll(c, r, lines[..k])
    {
      var l := lines[k];
      var at := Find(groups, l.Key());
      assert lines[..k + 1] == lines[..k] + [l];
      assert forall j | 0 <= j < |groups| :: groups[j].key == Keys(lines[..k])[j];
      if at < |groups| {
        GroupExtends(c, r, lines[..k], l, at);
        groups := groups[at := Extend(groups[at], l)];
      } else {
        GroupStarts(c, r, lines[..k], l);
        groups := groups + [Fresh(c, r, l)];
      }
    }
    assert lines[..|lines|] == lines;
  }

  lemma DeliverStep(c: Catalog, r: Request, gs: seq<Group>, sellers: nat, k: nat)
    requires k < |gs|
    ensures DeliverAll(c, r, gs[..k + 1], sellers) ==
              match DeliverAll(c, r, gs[..k], sellers)
              case Failure(e) => Failure(e)
              case Success(front) =>
                match Deliver(c, r, gs[k], sellers)
                case Failure(e) => Failure(e)
                case Success(g) => Success(front + [g])
  {
    assert gs[..k + 1][..k] == gs[..k];
  }

  lemma {:induction false} FirstDeliveryFailureWins(c: Catalog, r: Request, gs: seq<Group>, sellers: nat, k: nat)
    requires k <= |gs| && DeliverAll(c, r, gs[..k], sellers).Failure?
    ensures DeliverAll(c, r, gs, sellers) == DeliverAll(c, r, gs[..k], sellers)
    decreases |gs| - k
  {
    if k < |gs| {
      DeliverStep(c, r, gs, sellers, k);
      FirstDeliveryFailureWins(c, r, gs, sellers, k + 1);
    } else {
      assert gs[..k] == gs;
    }
  }

  /** The delivery loop fills shipping, commission and net of each group in turn. */
  method DeliverGroups(c: Catalog, r: Request, gs: seq<Group>) returns (res: Result<seq<Group>, Error>)
    ensures res == DeliverAll(c, r, gs, |gs|)
  {
    var done := [];
    for k := 0 to |gs|
      invariant DeliverAll(c, r, gs[..k], |gs|) == Success(done)
    {
      DeliverStep(c, r, gs, |gs|, k);
      var g := Deliver(c, r, gs[k], |gs|);
      if g.Failure? {
        FirstDeliveryFailureWins(c, r, gs, |gs|, k + 1);
        return Failure(g.error);
      }
      done := done + [g.value];
    }
    assert gs[..|gs|] == gs;
    res := Success(done);
  }

  /** `calculateCheckout`. */
  method CalculateCheckout(c: Catalog, inv: map<Stock.ProductId, Stock.Inventory>, account: Loyalty.Account, r: Request)
    returns (res: Result<Quote, Error>)
    ensures res == Calculate(c, inv, account, r)
    ensures res.Success? ==>
              && P.LinesPriced(c, r.items, res.value.lines) && res.value.subtotal == P.CostOf(c, r.items)
              && forall g <- res.value.groups :: g.subtotal == P.CostFor(c, r.items, g.key) && P.SellerPaid(c, r.items, g)
  {
    if Calculate(c, inv, account, r).Success? { P.QuotePrices(c, inv, account, r); }
    if !ValidItems(r.items) {
      return Failure(InvalidRequest);
    }
    var priced, subtotal := PriceBasket(c, inv, r.user, r.items);
    if priced.Failure? {
      return Failure(priced.error);
    }
    var grouped := GroupBySeller(c, r, priced.value);
    assert |grouped| == |Keys(priced.value)|;
    var delivered := DeliverGroups(c, r, grouped);
    if delivered.Failure? {
      return Failure(delivered.error);
    }
    res := FinishQuote(c, account, r, priced.value, delivered.value, subtotal);
  }

  method FinishQuote(c: Catalog, account: Loyalty.Account, r: Request, lines: seq<Priced>, groups: seq<Group>, subtotal: nat)
    returns (res: Result<Quote, Error>)
    requires subtotal == Amounts(lines)
    ensures res == QuoteOf(c, account, r, lines, groups)
  {
    var points := Loyalty.CalculateQuote(c.program, account, StoreSubtotal(groups), r.pointsToRedeem);
    if points.Failure? {
      return Failure(LoyaltyError(points.error));
    }
    var shipping := Shipping(groups);
    res := Success(Quote(lines, groups, subtotal, shipping, points.value.discount, subtotal + shipping - points.value.discount, points.value));
  }
}
