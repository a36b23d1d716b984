/** Laws of the reservation accounting: every transaction keeps `Stock.Inv`. */
module StockLaws {
  import opened Wrappers
  import opened Stock

  // ---------- Sums ----------

  lemma {:induction false} MarkedQty(rs: seq<Reservation>, p: ProductId, pass: Pass)
    ensures Qty(MarkAll(rs, pass), p, Active) == 0
    ensures Qty(MarkAll(rs, pass), p, Consumed) == Qty(rs, p, Consumed) + OnHandOut(rs, p, pass)
  {
    if rs != [] {
      MarkedQty(rs[..|rs| - 1], p, pass);
      assert MarkAll(rs, pass)[..|rs| - 1] == MarkAll(rs[..|rs| - 1], pass);
    }
  }

  lemma {:induction false} MarkedRows(rs: seq<Reservation>, p: ProductId, pass: Pass)
    requires All(rs, Active)
    ensures Rows(rs, p, Released) == 0 && Qty(rs, p, Released) == 0
  {
    if rs != [] {
      MarkedRows(rs[..|rs| - 1], p, pass);
      assert rs[|rs| - 1] in rs;
    }
  }

  lemma {:induction false} NoneStanding(rs: seq<Reservation>, p: ProductId, s: Standing)
    requires forall r <- rs :: r.product == p ==> r.Standing() != s
    ensures Qty(rs, p, s) == 0 && Rows(rs, p, s) == 0
  {
    if rs != [] {
      NoneStanding(rs[..|rs| - 1], p, s);
      assert rs[|rs| - 1] in rs;
    }
  }

  lemma {:induction false} PrefixQty(rs: seq<Reservation>, k: nat, p: ProductId, s: Standing)
    requires k < |rs|
    ensures Qty(rs[..k], p, s) + (if rs[k].product == p && rs[k].Standing() == s then rs[k].quantity else 0) <= Qty(rs, p, s)
    decreases |rs|
  {
    var front := rs[..|rs| - 1];
    if k < |rs| - 1 {
      PrefixQty(front, k, p, s);
      assert front[..k] == rs[..k];
    }
  }

  lemma {:induction false} TotalUpdate(table: seq<seq<Reservation>>, i: nat, rs: seq<Reservation>, p: ProductId, s: Standing)
    requires i < |table|
    ensures Total(table[i := rs], p, s) == Total(table, p, s) - Qty(table[i], p, s) + Qty(rs, p, s)
  {
    var n := |table| - 1;
    if i < n {
      TotalUpdate(table[..n], i, rs, p, s);
      assert table[i := rs][..n] == table[..n][i := rs];
    } else {
      assert table[i := rs][..n] == table[..n];
    }
  }

  lemma {:induction false} TotalAtLeast(table: seq<seq<Reservation>>, i: nat, p: ProductId, s: Standing)
    requires i < |table|
    ensures Qty(table[i], p, s) <= Total(table, p, s)
  {
    if i < |table| - 1 {
      TotalAtLeast(table[..|table| - 1], i, p, s);
    }
  }

  lemma {:induction false} NoHistory(table: seq<seq<Reservation>>, log: seq<Adjustment>, p: ProductId, s: Standing)
    requires forall i, k {:trigger table[i][k]} | 0 <= i < |table| && 0 <= k < |table[i]| :: table[i][k].product != p
    requires forall a <- log :: a.product != p
    ensures Total(table, p, s) == 0 && Adjusted(log, p) == 0
    decreases |table| + |log|
  {
    if table != [] {
      NoHistory(table[..|table| - 1], log, p, s);
      NoneStanding(table[|table| - 1], p, s);
    }
    if log != [] {
      NoHistory(table, log[..|log| - 1], p, s);
      assert log[|log| - 1] in log;
    }
  }

  lemma {:induction false} AdjustedConcat(a: seq<Adjustment>, b: seq<Adjustment>, p: ProductId)
    ensures Adjusted(a + b, p) == Adjusted(a, p) + Adjusted(b, p)
  {
    if b == [] {
      assert a + b == a;
    } else {
      AdjustedConcat(a, b[..|b| - 1], p);
      assert (a + b)[..|a + b| - 1] == a + b[..|b| - 1];
    }
  }

  // ---------- The guards never fire ----------

  /** The checks of the admin release and consume loops hold in every valid state. */
  lemma GuardsNeverFire(s: Stock, i: nat, pass: Pass)
    requires Inv(s) && i < |s.reservations| && pass != Late
    ensures GuardsPass(s.inventory, s.reservations[i], pass)
  {
    var rs := s.reservations[i];
    forall k | 0 <= k < |rs| ensures GuardAt(s.inventory, rs, k, pass)
    {
      var p := s.reservations[i][k].product;
      PrefixQty(rs, k, p, Active);
      TotalAtLeast(s.reservations, i, p, Active);
    }
  }

  /** The three release loops have one effect, and none of them fails. */
  lemma ReleaseLoopsAgree(s: Stock, i: nat)
    requires Inv(s) && i < |s.reservations|
    ensures ReleaseOrder(s, i) == ReleaseOrderGuarded(s, i) == Success(AfterPass(s, i, Release))
  {
    GuardsNeverFire(s, i, Release);
    CoveredByInv(s, i, Release);
  }

  lemma CoveredByInv(s: Stock, i: nat, pass: Pass)
    requires Inv(s) && i < |s.reservations|
    ensures Covered(s.inventory, s.reservations[i], pass)
  {
  }

  lemma ActiveLateGuards(s: Stock, i: nat)
    requires Inv(s) && i < |s.reservations| && All(s.reservations[i], Active)
    ensures GuardsPass(s.inventory, s.reservations[i], Late)
  {
    var rs := s.reservations[i];
    GuardsNeverFire(s, i, Consume);
    forall k | 0 <= k < |rs| ensures GuardAt(s.inventory, rs, k, Late) {
      assert rs[k] in rs && GuardAt(s.inventory, rs, k, Consume);
      ActiveLateIsConsume(s.inventory, rs[..k]);
    }
  }

  lemma ActiveMarksAgree(rs: seq<Reservation>)
    requires All(rs, Active)
    ensures MarkAll(rs, Late) == MarkAll(rs, Consume)
  {
  }

  /** While all rows are active, transfer approval, provider approval and late fulfilment deduct the same stock. */
  lemma ConsumeLoopsAgree(s: Stock, i: nat)
    requires Inv(s) && i < |s.reservations| && s.reservations[i] != [] && All(s.reservations[i], Active)
    ensures ConsumeOrderGuarded(s, i) == ConsumeOnApproval(s, i) == FulfillLateOrder(s, i) == Success(AfterPass(s, i, Consume))
  {
    var rs := s.reservations[i];
    assert rs[0] in rs;
    GuardsNeverFire(s, i, Consume);
    CoveredByInv(s, i, Consume);
    ActiveLateGuards(s, i);
    ActiveLateIsConsume(s.inventory, rs);
    ActiveMarksAgree(rs);
  }

  lemma ActiveLateIsConsume(inv: map<ProductId, Inventory>, rs: seq<Reservation>)
    requires All(rs, Active)
    ensures Counters(inv, rs, Late) == Counters(inv, rs, Consume)
  {
    forall p | p in inv ensures Counters(inv, rs, Late)[p] == Counters(inv, rs, Consume)[p] {
      MarkedRows(rs, p, Late);
    }
  }

  // ---------- Every transaction keeps the invariant ----------

  /** Late fulfilment never leaves a product with more reserved than on hand. */
  lemma {:induction false} LateGuardsSuffice(inv: map<ProductId, Inventory>, rs: seq<Reservation>, p: ProductId)
    requires GuardsPass(inv, rs, Late)
    requires p in inv && inv[p].reserved <= inv[p].onHand
    ensures var c := Counters(inv, rs, Late)[p]; c.reserved <= c.onHand
    decreases |rs|
  {
    if rs != [] {
      var front := rs[..|rs| - 1];
      forall k | 0 <= k < |front| ensures GuardAt(inv, front, k, Late) {
        assert front[..k] == rs[..k] && GuardAt(inv, rs, k, Late);
      }
      assert GuardAt(inv, rs, |front|, Late);
      LateGuardsSuffice(inv, front, p);
      assert rs[..|rs| - 1] == front;
    }
  }

  lemma PassKeepsInv(s: Stock, i: nat, pass: Pass)
    requires Inv(s) && i < |s.reservations|
    requires pass == Late ==> GuardsPass(s.inventory, s.reservations[i], Late)
    ensures Inv(AfterPass(s, i, pass))
  {
    var rs := s.reservations[i];
    var t := AfterPass(s, i, pass);
    forall p | p in t.inventory
      ensures t.inventory[p].onHand == RecomputedOnHand(t, p)
      ensures t.inventory[p].reserved == Total(t.reservations, p, Active) <= t.inventory[p].onHand
    {
      MarkedQty(rs, p, pass);
      TotalUpdate(s.reservations, i, MarkAll(rs, pass), p, Active);
      TotalUpdate(s.reservations, i, MarkAll(rs, pass), p, Consumed);
      TotalAtLeast(s.reservations, i, p, Active);
      if pass == Late { LateGuardsSuffice(s.inventory, rs, p); }
    }
    assert RowsOk(t) by {
      forall j, k | 0 <= j < |t.reservations| && 0 <= k < |t.reservations[j]|
        ensures var r := t.reservations[j][k];
                r.product in t.inventory && r.quantity >= 1 && !(r.released && r.consumed)
      {
        var old_ := s.reservations[j][k];
        assert t.reservations[j][k] == if i == j then Mark(old_, pass) else old_;
      }
    }
  }

  lemma {:induction false} NewRowsQty(lines: seq<Line>, expiresAt: int, p: ProductId, k: nat)
    requires Distinct(lines) && k <= |lines|
    ensures var rs := RowsFor(lines, expiresAt)[..k];
            && Qty(rs, p, Consumed) == 0
            && Qty(rs, p, Active) == (if exists j :: 0 <= j < k && lines[j].product == p
                                      then (var j :| 0 <= j < k && lines[j].product == p; lines[j].quantity) else 0)
    decreases k
  {
    var all := RowsFor(lines, expiresAt);
    if k > 0 {
      NewRowsQty(lines, expiresAt, p, k - 1);
      assert all[..k][..k - 1] == all[..k - 1];
      assert all[..k][k - 1] == all[k - 1];
      assert lines[k - 1].product == p ==> forall j | 0 <= j < k - 1 :: lines[j].product != p;
    }
  }

  lemma PlaceOrderKeepsInv(s: Stock, lines: seq<Line>, expiresAt: int)
    requires Inv(s) && PlaceOrder(s, lines, expiresAt).Success?
    requires forall l <- lines :: l.quantity >= 1
    ensures Inv(PlaceOrder(s, lines, expiresAt).value)
  {
    var t := PlaceOrder(s, lines, expiresAt).value;
    var rs := RowsFor(lines, expiresAt);
    forall p | p in t.inventory
      ensures t.inventory[p].onHand == RecomputedOnHand(t, p)
      ensures t.inventory[p].reserved == Total(t.reservations, p, Active) <= t.inventory[p].onHand
    {
      NewRowsQty(lines, expiresAt, p, |lines|);
      assert rs[..|lines|] == rs;
      assert t.reservations[..|s.reservations|] == s.reservations;
      if j :| 0 <= j < |lines| && lines[j].product == p {
        assert lines[j] in lines;
      }
    }
    assert RowsOk(t) by {
      forall j, k | 0 <= j < |t.reservations| && 0 <= k < |t.reservations[j]|
        ensures var r := t.reservations[j][k];
                r.product in t.inventory && r.quantity >= 1 && !(r.released && r.consumed)
      {
        if j < |s.reservations| {
          assert t.reservations[j][k] == s.reservations[j][k];
        } else {
          assert t.reservations[j][k] == rs[k] && lines[k] in lines;
        }
      }
    }
  }

  lemma SameRowsOk(s: Stock, t: Stock)
    requires RowsOk(s) && t.reservations == s.reservations && s.inventory.Keys <= t.inventory.Keys
    ensures RowsOk(t)
  {
  }

  lemma AdjustKeepsInv(s: Stock, p: ProductId, delta: int, unique: bool)
    requires Inv(s) && Adjust(s, p, delta, unique).Success?
    ensures Inv(Adjust(s, p, delta, unique).value)
  {
    var t := Adjust(s, p, delta, unique).value;
    forall q ensures Adjusted(t.adjustments, q) == Adjusted(s.adjustments, q) + if q == p then delta else 0 {
      assert t.adjustments[..|s.adjustments|] == s.adjustments;
    }
    SameRowsOk(s, t);
  }

  /**
   The affiliate stock edit does not compare the new stock with what is reserved: from a valid
   state it leads to a valid state exactly when the new stock covers the reservations.
   */
  lemma AffiliateEditKeepsInvIff(s: Stock, p: ProductId, stock: nat, unique: bool)
    requires Inv(s) && AffiliateEdit(s, p, stock, unique).Success?
    ensures Inv(AffiliateEdit(s, p, stock, unique).value) <==> stock >= s.inventory[p].reserved
  {
    var t := AffiliateEdit(s, p, stock, unique).value;
    forall q ensures Adjusted(t.adjustments, q) == Adjusted(s.adjustments, q) + if q == p then stock - s.inventory[p].onHand else 0 {
      if stock != s.inventory[p].onHand {
        assert t.adjustments[..|s.adjustments|] == s.adjustments;
      }
    }
    SameRowsOk(s, t);
    assert p in t.inventory;
  }

  /** One active unit, then an edit to zero: the edit is accepted and the counters are no longer valid. */
  lemma AffiliateEditCanOversell()
    ensures exists s: Stock, p: ProductId ::
              Inv(s) && AffiliateEdit(s, p, 0, false).Success? && !Inv(AffiliateEdit(s, p, 0, false).value)
  {
    var empty := Stock(map[], map[], [], []);
    var s := AddProduct(empty, 0, 1, false).value;
    AddProductKeepsInv(empty, 0, 1, false);
    var t := PlaceOrder(s, [Line(0, 1)], 0).value;
    PlaceOrderKeepsInv(s, [Line(0, 1)], 0);
    NewRowsQty([Line(0, 1)], 0, 0, 1);
    assert RowsFor([Line(0, 1)], 0)[..1] == RowsFor([Line(0, 1)], 0);
    assert t.inventory[0].reserved == 1;
    AffiliateEditKeepsInvIff(t, 0, 0, false);
  }

  lemma {:induction false} RestockedRow(inv: map<ProductId, Inventory>, lines: seq<Line>, p: ProductId)
    requires forall l <- lines :: l.product in inv
    requires p in inv
    ensures var row := RestockedRows(inv, lines)[p];
            && row.onHand == inv[p].onHand + Adjusted(RestockLog(lines), p)
            && row.reserved == inv[p].reserved
            && row.onHand >= inv[p].onHand
  {
    if lines != [] {
      RestockedRow(inv, lines[..|lines| - 1], p);
      assert RestockLog(lines)[..|lines| - 1] == RestockLog(lines[..|lines| - 1]);
    }
  }

  lemma RestockKeepsInv(s: Stock, lines: seq<Line>)
    requires Inv(s) && Restock(s, lines).Success?
    ensures Inv(Restock(s, lines).value)
  {
    var t := Restock(s, lines).value;
    forall p | p in t.inventory
      ensures p in s.inventory && t.inventory[p].onHand == RecomputedOnHand(t, p) && t.inventory[p].reserved == s.inventory[p].reserved <= t.inventory[p].onHand
    {
      assert p in s.inventory.Keys;
      RestockedRow(s.inventory, lines, p);
      AdjustedConcat(s.adjustments, RestockLog(lines), p);
    }
    SameRowsOk(s, t);
    forall a | a in t.adjustments ensures a.product in t.inventory {
      if a !in s.adjustments {
        var k :| 0 <= k < |lines| && RestockLog(lines)[k] == a;
        assert lines[k] in lines && lines[k].product in s.inventory.Keys;
      }
    }
    assert t.inventory.Keys == s.inventory.Keys;
  }

  lemma UnknownHasNoHistory(s: Stock, p: ProductId)
    requires Inv(s) && p !in s.inventory
    ensures Total(s.reservations, p, Active) == 0 && Total(s.reservations, p, Consumed) == 0 && Adjusted(s.adjustments, p) == 0
  {
    forall i, k {:trigger s.reservations[i][k]} | 0 <= i < |s.reservations| && 0 <= k < |s.reservations[i]|
      ensures s.reservations[i][k].product != p {
      assert s.reservations[i][k].product in s.inventory;
    }
    NoHistory(s.reservations, s.adjustments, p, Active);
    NoHistory(s.reservations, s.adjustments, p, Consumed);
  }

  lemma AdjustedAppend(log: seq<Adjustment>, a: Adjustment, q: ProductId)
    ensures Adjusted(log + [a], q) == Adjusted(log, q) + if a.product == q then a.delta else 0
  {
  }

  lemma AddedCounters(s: Stock, p: ProductId, stock: nat, logged: bool, q: ProductId)
    requires Inv(s) && AddProduct(s, p, stock, logged).Success? && q in AddProduct(s, p, stock, logged).value.inventory
    ensures var t := AddProduct(s, p, stock, logged).value;
            && q in t.baseline && t.inventory[q].onHand == RecomputedOnHand(t, q)
            && t.inventory[q].reserved == Total(t.reservations, q, Active) <= t.inventory[q].onHand
  {
    UnknownHasNoHistory(s, p);
    if logged && stock > 0 { AdjustedAppend(s.adjustments, Adjustment(p, stock), q); }
  }

  lemma AddProductKeepsInv(s: Stock, p: ProductId, stock: nat, logged: bool)
    requires Inv(s) && AddProduct(s, p, stock, logged).Success?
    ensures Inv(AddProduct(s, p, stock, logged).value)
  {
    var t := AddProduct(s, p, stock, logged).value;
    SameRowsOk(s, t);
    forall q | q in t.inventory
      ensures q in t.baseline && t.inventory[q].onHand == RecomputedOnHand(t, q)
      ensures t.inventory[q].reserved == Total(t.reservations, q, Active) <= t.inventory[q].onHand
    {
      AddedCounters(s, p, stock, logged, q);
    }
  }

  // ---------- Consequences ----------

  /** Units promised or delivered never exceed the units that ever entered the shop. */
  lemma NeverOversold(s: Stock, p: ProductId)
    requires Inv(s) && p in s.inventory
    ensures Total(s.reservations, p, Active) + Total(s.reservations, p, Consumed) <= s.baseline[p] + Adjusted(s.adjustments, p)
    ensures 0 <= s.inventory[p].reserved <= s.inventory[p].onHand
  {
  }

  /** Late fulfilment of released rows succeeds exactly when free stock covers them, product by product. */
  lemma LateFulfilmentIff(s: Stock, i: nat)
    requires Inv(s) && i < |s.reservations| && s.reservations[i] != [] && All(s.reservations[i], Released)
    ensures FulfillLateOrder(s, i).Success? <==>
              forall p <- s.inventory :: Qty(s.reservations[i], p, Released) <= s.inventory[p].onHand - s.inventory[p].reserved
  {
    var rs := s.reservations[i];
    if FulfillLateOrder(s, i).Success? {
      forall p | p in s.inventory ensures Qty(rs, p, Released) <= s.inventory[p].onHand - s.inventory[p].reserved {
        LateGuardsSuffice(s.inventory, rs, p);
        NoneStanding(rs, p, Active);
      }
    }
    if forall p <- s.inventory :: Qty(rs, p, Released) <= s.inventory[p].onHand - s.inventory[p].reserved {
      forall k | 0 <= k < |rs| ensures GuardAt(s.inventory, rs, k, Late) {
        var p := s.reservations[i][k].product;
        assert rs[k] in rs;
        PrefixQty(rs, k, p, Released);
        NoneStanding(rs[..k], p, Active);
      }
    }
  }

  // ---------- What edits of the stock do ----------

  /** How many units of a product the lines bring back. */
  function Units(lines: seq<Line>, p: ProductId): nat {
    if lines == [] then 0 else
      Units(lines[..|lines| - 1], p) + if lines[|lines| - 1].product == p then lines[|lines| - 1].quantity else 0
  }

  /** Only the given product's stock on hand changed, by a logged amount. */
  ghost predicate OnHandMoved(s: Stock, t: Stock, p: ProductId, onHand: int, log: seq<Adjustment>) {
    && p in s.inventory && t.inventory == s.inventory[p := Inventory(onHand, s.inventory[p].reserved, s.inventory[p].version + 1)]
    && t.adjustments == s.adjustments + log && t.reservations == s.reservations && t.baseline == s.baseline
  }

  /**
   A stock adjustment moves the stock on hand by its amount, never below what is reserved; an affiliate's
   edit sets it, whatever is reserved; a unique product has at most one unit in both.
   */
  lemma EditOutcome(s: Stock, p: ProductId, delta: int, stock: nat, unique: bool)
    ensures Adjust(s, p, delta, unique).Success? <==>
              p in s.inventory && s.inventory[p].onHand + delta >= s.inventory[p].reserved && (unique ==> s.inventory[p].onHand + delta <= 1)
    ensures Adjust(s, p, delta, unique).Success? ==>
              OnHandMoved(s, Adjust(s, p, delta, unique).value, p, s.inventory[p].onHand + delta, [Adjustment(p, delta)])
    ensures AffiliateEdit(s, p, stock, unique).Success? <==> p in s.inventory && (unique ==> stock <= 1)
    ensures AffiliateEdit(s, p, stock, unique).Success? ==>
              var before := s.inventory[p].onHand;
              OnHandMoved(s, AffiliateEdit(s, p, stock, unique).value, p, stock, if stock == before then [] else [Adjustment(p, stock - before)])
  {
    assert s.adjustments + [] == s.adjustments;
  }

  /** A new product starts with its stock and nothing reserved, and disturbs no other product. */
  lemma AddOutcome(s: Stock, p: ProductId, stock: nat, logged: bool)
    requires Inv(s)
    ensures AddProduct(s, p, stock, logged).Success? <==> p !in s.inventory
    ensures AddProduct(s, p, stock, logged).Success? ==>
              var t := AddProduct(s, p, stock, logged).value;
              && t.inventory == s.inventory[p := Inventory(stock, 0, 1)] && t.reservations == s.reservations
              && RecomputedOnHand(t, p) == stock
              && t.adjustments == s.adjustments + if logged && stock > 0 then [Adjustment(p, stock)] else []
  {
    if p !in s.inventory {
      var t := AddProduct(s, p, stock, logged).value;
      AddProductKeepsInv(s, p, stock, logged);
      assert p in t.inventory;
      assert s.adjustments + [] == s.adjustments;
    }
  }

  lemma {:induction false} RestockedUnits(inv: map<ProductId, Inventory>, lines: seq<Line>, p: ProductId)
    requires (forall l <- lines :: l.product in inv) && p in inv
    ensures RestockedRows(inv, lines)[p] == inv[p].(onHand := inv[p].onHand + Units(lines, p))
  {
    if lines != [] { RestockedUnits(inv, lines[..|lines| - 1], p); }
  }

  /** A restock puts back exactly the units of its lines, product by product, with one adjustment each. */
  lemma RestockOutcome(s: Stock, lines: seq<Line>)
    ensures Restock(s, lines).Success? <==> forall l <- lines :: l.product in s.inventory
    ensures Restock(s, lines).Success? ==>
              var t := Restock(s, lines).value;
              && t.inventory.Keys == s.inventory.Keys && t.reservations == s.reservations && t.baseline == s.baseline
              && (forall p <- s.inventory :: t.inventory[p] == s.inventory[p].(onHand := s.inventory[p].onHand + Units(lines, p)))
              && |t.adjustments| == |s.adjustments| + |lines| && t.adjustments[..|s.adjustments|] == s.adjustments
              && forall k | 0 <= k < |lines| :: t.adjustments[|s.adjustments| + k] == Adjustment(lines[k].product, lines[k].quantity)
  {
    if Restock(s, lines).Success? {
      forall p | p in s.inventory ensures Restock(s, lines).value.inventory[p] == s.inventory[p].(onHand := s.inventory[p].onHand + Units(lines, p)) {
        RestockedUnits(s.inventory, lines, p);
      }
    }
  }
}
