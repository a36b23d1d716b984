/** Laws of the loyalty program: quotes respect their caps and the account always matches its history. */
module LoyaltyLaws {
  import opened Wrappers
  import opened Arithmetic
  import opened Loyalty

  // ---------- The quote ----------

  /**
   A redemption is accepted exactly when the program is on, the request reaches the minimum, the
   account can spend it, and its value stays within the configured percentage of the subtotal
   (and the subtotal itself), unless the purchase would earn more points than the limit.
   */
  lemma QuoteAcceptsIff(program: Program, account: Account, subtotal: nat, requested: nat)
    requires requested > 0
    ensures var q := CalculateQuote(program, account, subtotal, requested);
            var cap := Min(subtotal * program.maximumPercent / 100, subtotal);
            (q.Success? || q == Failure(PointsOverflow)) <==>
              && program.enabled && program.pointValue > 0
              && program.minimumPoints <= requested <= Spendable(account)
              && requested * program.pointValue <= cap
  {
    var cap := Min(subtotal * program.maximumPercent / 100, subtotal);
    CapNonNegative(subtotal, program.maximumPercent);
    if program.pointValue > 0 {
      DivAtLeast(cap, program.pointValue, requested);
    }
  }

  lemma CapNonNegative(subtotal: nat, percent: nat)
    ensures 0 <= subtotal * percent / 100
    ensures subtotal * percent / 100 * 100 <= subtotal * percent
  {
  }

  /** The discount is the value of the points; each full step of what is still to pay earns the points of a step. */
  lemma QuoteValues(program: Program, account: Account, subtotal: nat, requested: nat, steps: nat)
    requires CalculateQuote(program, account, subtotal, requested).Success? && program.enabled
    ensures var q := CalculateQuote(program, account, subtotal, requested).value;
            && q.pointsRedeemed == requested && q.discount == requested * program.pointValue <= subtotal
            && (program.spendPerPoint > 0 && steps * program.spendPerPoint <= subtotal - q.discount < (steps + 1) * program.spendPerPoint ==>
                  q.pointsToEarn == steps * program.pointsPerStep)
            && (program.spendPerPoint <= 0 ==> q.pointsToEarn == 0)
  {
    QuoteBounds(program, account, subtotal, requested);
    var eligible := subtotal - requested * program.pointValue;
    if program.spendPerPoint > 0 {
      DivAtLeast(eligible, program.spendPerPoint, steps);
      DivAtMost(eligible, program.spendPerPoint, steps);
    }
  }

  /** The discount never exceeds the configured percentage of the subtotal, nor the subtotal. */
  lemma QuoteBounds(program: Program, account: Account, subtotal: nat, requested: nat)
    requires CalculateQuote(program, account, subtotal, requested).Success?
    ensures var q := CalculateQuote(program, account, subtotal, requested).value;
            && q.pointsRedeemed == requested
            && 0 <= q.discount <= subtotal
            && q.discount * 100 <= subtotal * program.maximumPercent
            && 0 <= q.pointsToEarn <= POINTS_LIMIT
  {
    CapNonNegative(subtotal, program.maximumPercent);
    assert 0 <= subtotal * program.maximumPercent;
    if requested > 0 {
      QuoteAcceptsIff(program, account, subtotal, requested);
    }
    var q := CalculateQuote(program, account, subtotal, requested).value;
    if program.enabled && program.spendPerPoint > 0 {
      var steps := (subtotal - q.discount) / program.spendPerPoint;
      assert steps >= 0 && steps * program.pointsPerStep >= 0;
    }
  }

  // ---------- Sums ----------

  lemma HasTxAppend(log: seq<Tx>, t: Tx)
    ensures forall i, kind :: HasTx(log + [t], i, kind) <==> HasTx(log, i, kind) || (t.order == i && t.kind == kind)
  {
  }

  lemma PointsAppend(log: seq<Tx>, t: Tx)
    ensures forall u :: Points(log + [t], u) == Points(log, u) + if t.user == u then t.points else 0
    ensures forall i :: Net(log + [t], i) == Net(log, i) + if t.order == i then t.points else 0
  {
  }

  lemma {:induction false} HeldUpdate(orders: seq<OrderPoints>, i: nat, o: OrderPoints, u: UserId)
    requires i < |orders| && o.user == orders[i].user && o.redeemed == orders[i].redeemed
    ensures HeldFor(orders[i := o], u) == HeldFor(orders, u)
              + (if o.user == u && o.status == Held then o.redeemed else 0)
              - (if o.user == u && orders[i].status == Held then o.redeemed else 0)
  {
    var n := |orders| - 1;
    if i < n {
      HeldUpdate(orders[..n], i, o, u);
      assert orders[i := o][..n] == orders[..n][i := o];
    } else {
      assert orders[i := o][..n] == orders[..n];
    }
  }

  lemma {:induction false} HeldAtLeast(orders: seq<OrderPoints>, i: nat)
    requires i < |orders| && orders[i].status == Held
    ensures HeldFor(orders, orders[i].user) >= orders[i].redeemed
  {
    if i < |orders| - 1 {
      HeldAtLeast(orders[..|orders| - 1], i);
    }
  }

  // ---------- Steps keep the invariant ----------

  /** Posting a transaction of a new kind keeps the log consistent with the balances. */
  lemma PostFacts(l: Loyalty, i: nat, kind: Kind, a: Account)
    requires LogOk(l) && BalanceSums(l) && i < |l.orders| && !HasTx(l.log, i, kind)
    requires a.balance == AccountOf(l, l.orders[i].user).balance + Amount(l.orders[i], kind)
    ensures var m := Post(l, i, kind, Amount(l.orders[i], kind), a);
            && LogOk(m) && BalanceSums(m)
            && (forall j, kd :: HasTx(m.log, j, kd) <==> HasTx(l.log, j, kd) || (j == i && kd == kind))
  {
    var t := Tx(l.orders[i].user, i, kind, Amount(l.orders[i], kind), a.balance);
    var m := Post(l, i, kind, Amount(l.orders[i], kind), a);
    PointsAppend(l.log, t);
    HasTxAppend(l.log, t);
    forall k | 0 <= k < |m.log| ensures TxOk(m, k) {
      if k < |l.log| {
        assert TxOk(l, k) && m.log[..k + 1] == l.log[..k + 1];
      } else {
        assert m.log[..k + 1] == m.log;
      }
    }
    forall j | 0 <= j < |l.log| ensures !(l.log[j].order == i && l.log[j].kind == kind) {
      assert l.log[j] in l.log;
    }
  }

  /** A posting followed by a change of redemption status keeps the held points in step. */
  lemma PostHeld(l: Loyalty, i: nat, kind: Kind, points: int, a: Account, status: Redemption)
    requires HeldSums(l) && i < |l.orders|
    requires a.reserved == AccountOf(l, l.orders[i].user).reserved
               + (if status == Held then l.orders[i].redeemed else 0)
               - (if l.orders[i].status == Held then l.orders[i].redeemed else 0)
    ensures HeldSums(WithStatus(Post(l, i, kind, points, a), i, status))
  {
    var m := WithStatus(Post(l, i, kind, points, a), i, status);
    forall u: UserId ensures AccountOf(m, u).reserved == HeldFor(m.orders, u) {
      HeldUpdate(l.orders, i, m.orders[i], u);
    }
  }

  /** The log refers only to columns of an order that never change. */
  lemma SameLogOk(l: Loyalty, m: Loyalty)
    requires LogOk(l) && m.log == l.log && |m.orders| >= |l.orders|
    requires forall j | 0 <= j < |l.orders| ::
               m.orders[j].user == l.orders[j].user && m.orders[j].redeemed == l.orders[j].redeemed && m.orders[j].earned == l.orders[j].earned
    ensures LogOk(m)
  {
    forall k | 0 <= k < |m.log| ensures TxOk(m, k) {
      assert TxOk(l, k);
    }
  }

  lemma StatusFacts(l: Loyalty, i: nat, status: Redemption)
    requires LogOk(l) && BalanceSums(l) && i < |l.orders|
    ensures LogOk(WithStatus(l, i, status)) && BalanceSums(WithStatus(l, i, status))
  {
    var m := WithStatus(l, i, status);
    SameLogOk(l, m);
    forall u: UserId ensures AccountOf(m, u).balance == Points(m.log, u) {
      assert AccountOf(m, u) == AccountOf(l, u);
    }
  }

  lemma EnsuredKeepsInv(l: Loyalty, u: UserId)
    requires Inv(l)
    ensures Inv(Ensured(l, u)) && forall v: UserId :: AccountOf(Ensured(l, u), v) == AccountOf(l, v)
  {
    var m := Ensured(l, u);
    SameLogOk(l, m);
    forall i | 0 <= i < |m.orders| ensures OrderOk(m, i) {
      assert OrderOk(l, i);
    }
  }

  lemma PlaceOrderKeepsInv(l: Loyalty, u: UserId, points: nat, earned: nat)
    requires Inv(l) && PlaceOrder(l, u, points, earned).Success?
    ensures var m := PlaceOrder(l, u, points, earned).value;
            && Inv(m) && |m.orders| == |l.orders| + 1 && m.log == l.log
            && (forall i | 0 <= i < |l.orders| :: m.orders[i] == l.orders[i])
            && m.orders[|l.orders|] == OrderPoints(u, points, earned, if points > 0 then Held else NoPoints)
            && PhaseOf(m, |l.orders|) == Open
  {
    var m := PlaceOrder(l, u, points, earned).value;
    var n := |l.orders|;
    assert m.orders[..n] == l.orders;
    forall v: UserId ensures HeldFor(m.orders, v) == HeldFor(l.orders, v) + if v == u then points else 0 {
      assert m.orders[..|m.orders| - 1] == l.orders;
    }
    forall t | t in l.log ensures t.order < n {
      var k :| 0 <= k < |l.log| && l.log[k] == t;
      assert TxOk(l, k);
    }
    SameLogOk(l, m);
    forall i | 0 <= i < |m.orders| ensures OrderOk(m, i) {
      if i < n { assert OrderOk(l, i); }
    }
  }

  /** Releasing the points of an order never fails and only returns them to the spendable balance. */
  lemma ReleaseKeepsInv(l: Loyalty, i: nat)
    requires Inv(l) && i < |l.orders|
    ensures Release(l, i).Success?
    ensures var m := Release(l, i).value;
            && Inv(m) && |m.orders| == |l.orders| && m.log == l.log
            && (forall j | 0 <= j < |l.orders| && j != i :: m.orders[j] == l.orders[j])
            && m.orders[i] == l.orders[i].(status := if l.orders[i].status == Held then Released else l.orders[i].status)
  {
    assert OrderOk(l, i);
    var o := l.orders[i];
    if o.status == Held {
      HeldAtLeast(l.orders, i);
    }
    var m := Release(l, i).value;
    SameLogOk(l, m);
    if o.redeemed > 0 && o.status == Held {
      forall u: UserId ensures AccountOf(m, u).reserved == HeldFor(m.orders, u) {
        HeldUpdate(l.orders, i, m.orders[i], u);
      }
      forall j | 0 <= j < |m.orders| ensures OrderOk(m, j) {
        assert OrderOk(l, j);
        assert forall kind :: HasTx(m.log, j, kind) == HasTx(l.log, j, kind);
      }
    }
  }

  lemma OthersOk(l: Loyalty, m: Loyalty, i: nat)
    requires Inv(l) && i < |l.orders| == |m.orders|
    requires forall j | 0 <= j < |l.orders| && j != i :: m.orders[j] == l.orders[j]
    requires forall j, kind | j != i :: HasTx(m.log, j, kind) == HasTx(l.log, j, kind)
    ensures forall j | 0 <= j < |m.orders| && j != i :: OrderOk(m, j) && PhaseOf(m, j) == PhaseOf(l, j)
  {
    forall j | 0 <= j < |m.orders| && j != i ensures OrderOk(m, j) && PhaseOf(m, j) == PhaseOf(l, j) {
      assert OrderOk(l, j);
    }
  }

  /** A posting of a new kind together with the status it leaves keeps balances, holds and log in step. */
  lemma PostedFacts(l: Loyalty, i: nat, kind: Kind, a: Account, status: Redemption)
    requires BalanceSums(l) && HeldSums(l) && LogOk(l) && i < |l.orders| && !HasTx(l.log, i, kind)
    requires a.balance == AccountOf(l, l.orders[i].user).balance + Amount(l.orders[i], kind)
    requires a.reserved == AccountOf(l, l.orders[i].user).reserved
               + (if status == Held then l.orders[i].redeemed else 0)
               - (if l.orders[i].status == Held then l.orders[i].redeemed else 0)
    ensures var m := WithStatus(Post(l, i, kind, Amount(l.orders[i], kind), a), i, status);
            && BalanceSums(m) && HeldSums(m) && LogOk(m)
            && (forall j, kd :: HasTx(m.log, j, kd) <==> HasTx(l.log, j, kd) || (j == i && kd == kind))
  {
    PostFacts(l, i, kind, a);
    StatusFacts(Post(l, i, kind, Amount(l.orders[i], kind), a), i, status);
    PostHeld(l, i, kind, Amount(l.orders[i], kind), a, status);
  }

  lemma SettleRedeemFacts(l: Loyalty, i: nat)
    requires Inv(l) && i < |l.orders|
    requires SettleRedeem(l, i).Success?
    requires l.orders[i].redeemed > 0 && PhaseOf(l, i) == Open
    ensures var m := SettleRedeem(l, i).value;
            && BalanceSums(m) && HeldSums(m) && LogOk(m)
            && m.orders == l.orders[i := l.orders[i].(status := Redeemed)]
            && (forall j, kind :: HasTx(m.log, j, kind) <==> HasTx(l.log, j, kind) || (j == i && kind == Redeem))
  {
    assert OrderOk(l, i);
    var o := l.orders[i];
    var a := AccountOf(l, o.user);
    var held := o.status == Held;
    var a' := a.(balance := a.balance - o.redeemed,
                 reserved := if held then a.reserved - o.redeemed else a.reserved,
                 lifetimeRedeemed := a.lifetimeRedeemed + o.redeemed, version := a.version + 1);
    assert SettleRedeem(l, i).value == WithStatus(Post(l, i, Redeem, Amount(o, Redeem), a'), i, Redeemed);
    PostedFacts(l, i, Redeem, a', Redeemed);
  }

  lemma SameStatus(l: Loyalty, i: nat)
    requires i < |l.orders|
    ensures WithStatus(l, i, l.orders[i].status) == l
  {
  }

  /** A posting that leaves the redemption status alone. */
  lemma PostedAlone(l: Loyalty, i: nat, kind: Kind, a: Account)
    requires BalanceSums(l) && HeldSums(l) && LogOk(l) && i < |l.orders| && !HasTx(l.log, i, kind)
    requires a.balance == AccountOf(l, l.orders[i].user).balance + Amount(l.orders[i], kind)
    requires a.reserved == AccountOf(l, l.orders[i].user).reserved
    ensures var m := Post(l, i, kind, Amount(l.orders[i], kind), a);
            && BalanceSums(m) && HeldSums(m) && LogOk(m) && m.orders == l.orders
            && (forall j, kd :: HasTx(m.log, j, kd) <==> HasTx(l.log, j, kd) || (j == i && kd == kind))
  {
    PostedFacts(l, i, kind, a, l.orders[i].status);
    SameStatus(Post(l, i, kind, Amount(l.orders[i], kind), a), i);
  }

  lemma SettleEarnFacts(l: Loyalty, i: nat)
    requires BalanceSums(l) && HeldSums(l) && LogOk(l) && i < |l.orders|
    ensures var m := SettleEarn(l, i);
            && BalanceSums(m) && HeldSums(m) && LogOk(m) && m.orders == l.orders
            && (forall j, kind :: HasTx(m.log, j, kind) <==> HasTx(l.log, j, kind) || (j == i && kind == Earn && l.orders[i].earned > 0))
  {
    var o := l.orders[i];
    if o.earned > 0 && !HasTx(l.log, i, Earn) {
      var a := AccountOf(l, o.user);
      var a' := a.(balance := a.balance + o.earned, lifetimeEarned := a.lifetimeEarned + o.earned, version := a.version + 1);
      PostedAlone(l, i, Earn, a');
      assert SettleEarn(l, i) == Post(l, i, Earn, Amount(o, Earn), a');
    }
  }

  /** Settling can fail only for points that are no longer held: it never fails for a held redemption. */
  lemma SettleSucceedsIff(l: Loyalty, i: nat)
    requires Inv(l) && i < |l.orders|
    ensures Settle(l, i).Failure? <==>
              && l.orders[i].status == Released && PhaseOf(l, i) == Open
              && Spendable(AccountOf(l, l.orders[i].user)) < l.orders[i].redeemed
  {
    EnsuredKeepsInv(l, l.orders[i].user);
    assert OrderOk(l, i);
    if l.orders[i].status == Held {
      HeldAtLeast(l.orders, i);
    }
  }

  lemma SettleOpen(l: Loyalty, i: nat)
    requires Inv(l) && i < |l.orders| && SettleRedeem(l, i).Success?
    requires PhaseOf(l, i) == Open && l.orders[i].redeemed + l.orders[i].earned > 0
    ensures var m := SettleEarn(SettleRedeem(l, i).value, i);
            && Inv(m) && PhaseOf(m, i) == Settled
            && m.orders == l.orders[i := l.orders[i].(status := if l.orders[i].redeemed > 0 then Redeemed else l.orders[i].status)]
            && (forall j | 0 <= j < |l.orders| && j != i :: PhaseOf(m, j) == PhaseOf(l, j))
  {
    RedeemedFirst(l, i);
    SettleEarnFacts(SettleRedeem(l, i).value, i);
    SettledOk(l, SettleEarn(SettleRedeem(l, i).value, i), i);
  }

  lemma RedeemedFirst(l: Loyalty, i: nat)
    requires Inv(l) && i < |l.orders| && SettleRedeem(l, i).Success? && PhaseOf(l, i) == Open
    ensures var r := SettleRedeem(l, i).value;
            && BalanceSums(r) && HeldSums(r) && LogOk(r)
            && r.orders == l.orders[i := l.orders[i].(status := if l.orders[i].redeemed > 0 then Redeemed else l.orders[i].status)]
            && (forall j, kind :: HasTx(r.log, j, kind) <==> HasTx(l.log, j, kind) || (j == i && kind == Redeem && l.orders[i].redeemed > 0))
  {
    if l.orders[i].redeemed > 0 { SettleRedeemFacts(l, i); } else { SameStatus(l, i); }
  }

  /** Both transactions recorded and the status moved: the order is settled. */
  lemma SettledOk(l: Loyalty, m: Loyalty, i: nat)
    requires Inv(l) && i < |l.orders| && PhaseOf(l, i) == Open && l.orders[i].redeemed + l.orders[i].earned > 0
    requires BalanceSums(m) && HeldSums(m) && LogOk(m)
    requires m.orders == l.orders[i := l.orders[i].(status := if l.orders[i].redeemed > 0 then Redeemed else l.orders[i].status)]
    requires forall j, kind :: HasTx(m.log, j, kind) <==>
               || HasTx(l.log, j, kind)
               || (j == i && ((kind == Redeem && l.orders[i].redeemed > 0) || (kind == Earn && l.orders[i].earned > 0)))
    ensures Inv(m) && PhaseOf(m, i) == Settled
    ensures forall j | 0 <= j < |l.orders| && j != i :: PhaseOf(m, j) == PhaseOf(l, j)
  {
    assert OrderOk(l, i);
    OthersOk(l, m, i);
    assert OrderOk(m, i);
  }

  /** Settling an open order moves it to the settled phase; in any later phase it changes nothing. */
  lemma SettleKeepsInv(l: Loyalty, i: nat)
    requires Inv(l) && i < |l.orders| && Settle(l, i).Success?
    ensures var m := Settle(l, i).value;
            && Inv(m) && |m.orders| == |l.orders|
            && (forall j | 0 <= j < |l.orders| && j != i :: m.orders[j] == l.orders[j] && PhaseOf(m, j) == PhaseOf(l, j))
            && m.orders[i].user == l.orders[i].user && m.orders[i].redeemed == l.orders[i].redeemed && m.orders[i].earned == l.orders[i].earned
            && (PhaseOf(l, i) != Open ==> m == Ensured(l, l.orders[i].user))
            && (PhaseOf(l, i) == Open && l.orders[i].redeemed + l.orders[i].earned > 0 ==> PhaseOf(m, i) == Settled)
            && (l.orders[i].redeemed + l.orders[i].earned == 0 ==> m == Ensured(l, l.orders[i].user))
  {
    var e := Ensured(l, l.orders[i].user);
    EnsuredKeepsInv(l, l.orders[i].user);
    assert OrderOk(l, i) && OrderOk(e, i);
    assert forall j | 0 <= j < |l.orders| :: PhaseOf(e, j) == PhaseOf(l, j);
    if PhaseOf(l, i) == Open && l.orders[i].redeemed + l.orders[i].earned > 0 {
      SettleOpen(e, i);
    }
  }

  /** One side of a reversal: the balance moves back and the status may change with it. */
  lemma ReversalFacts(l: Loyalty, i: nat, kind: Kind, status: Redemption)
    requires BalanceSums(l) && HeldSums(l) && LogOk(l) && i < |l.orders|
    requires !HasTx(l.log, i, kind) && (status == l.orders[i].status || Held !in {status, l.orders[i].status})
    ensures var a := AccountOf(l, l.orders[i].user);
            var amount := Amount(l.orders[i], kind);
            var m := WithStatus(Post(l, i, kind, amount, a.(balance := a.balance + amount, version := a.version + 1)), i, status);
            && BalanceSums(m) && HeldSums(m) && LogOk(m)
            && (forall j, kd :: HasTx(m.log, j, kd) <==> HasTx(l.log, j, kd) || (j == i && kd == kind))
  {
    var a := AccountOf(l, l.orders[i].user);
    var amount := Amount(l.orders[i], kind);
    var a' := a.(balance := a.balance + amount, version := a.version + 1);
    PostedFacts(l, i, kind, a', status);
  }

  lemma ReverseEarnFacts(l: Loyalty, i: nat)
    requires BalanceSums(l) && HeldSums(l) && LogOk(l) && i < |l.orders|
    requires l.orders[i].earned > 0 ==> HasTx(l.log, i, Earn) && !HasTx(l.log, i, EarnReversal)
    ensures var m := ReverseEarn(l, i);
            && BalanceSums(m) && HeldSums(m) && LogOk(m) && m.orders == l.orders
            && (forall j, kd :: HasTx(m.log, j, kd) <==> (HasTx(l.log, j, kd) || (j == i && kd == EarnReversal && l.orders[i].earned > 0)))
  {
    if l.orders[i].earned > 0 {
      var m := ReverseEarn(l, i);
      ReversalFacts(l, i, EarnReversal, l.orders[i].status);
      assert m == WithStatus(m, i, l.orders[i].status);
    } else {
      assert ReverseEarn(l, i) == l;
    }
  }

  lemma ReverseRedeemFacts(l: Loyalty, i: nat)
    requires BalanceSums(l) && HeldSums(l) && LogOk(l) && i < |l.orders|
    requires l.orders[i].redeemed > 0 ==> HasTx(l.log, i, Redeem) && !HasTx(l.log, i, RedeemReversal) && l.orders[i].status != Held
    ensures var m := ReverseRedeem(l, i);
            && BalanceSums(m) && HeldSums(m) && LogOk(m)
            && m.orders == l.orders[i := l.orders[i].(status := if l.orders[i].redeemed > 0 then Restored else l.orders[i].status)]
            && (forall j, kd :: HasTx(m.log, j, kd) <==> (HasTx(l.log, j, kd) || (j == i && kd == RedeemReversal && l.orders[i].redeemed > 0)))
  {
    var o := l.orders[i];
    if o.redeemed > 0 {
      var a := AccountOf(l, o.user);
      assert ReverseRedeem(l, i) == WithStatus(Post(l, i, RedeemReversal, o.redeemed, a.(balance := a.balance + o.redeemed, version := a.version + 1)), i, Restored);
      ReversalFacts(l, i, RedeemReversal, Restored);
    } else {
      assert ReverseRedeem(l, i) == l;
    }
  }

  /** Reversing a settled order gives everything back once; in any other phase it changes nothing. */
  lemma ReverseKeepsInv(l: Loyalty, i: nat)
    requires Inv(l) && i < |l.orders|
    ensures var m := Reverse(l, i);
            && Inv(m) && |m.orders| == |l.orders|
            && (forall j | 0 <= j < |l.orders| && j != i :: m.orders[j] == l.orders[j] && PhaseOf(m, j) == PhaseOf(l, j))
            && m.orders[i].user == l.orders[i].user && m.orders[i].redeemed == l.orders[i].redeemed && m.orders[i].earned == l.orders[i].earned
            && PhaseOf(m, i) == (if PhaseOf(l, i) == Settled then Reversed else PhaseOf(l, i))
            && (PhaseOf(l, i) != Settled ==> m == Ensured(l, l.orders[i].user))
  {
    EnsuredKeepsInv(l, l.orders[i].user);
    var e := Ensured(l, l.orders[i].user);
    var m := Reverse(l, i);
    assert OrderOk(l, i) && OrderOk(e, i);
    if PhaseOf(l, i) == Settled {
      ReverseEarnFacts(e, i);
      ReverseRedeemFacts(ReverseEarn(e, i), i);
      OthersOk(l, m, i);
      assert OrderOk(m, i);
    } else {
      forall j | 0 <= j < |m.orders| && j != i ensures PhaseOf(m, j) == PhaseOf(l, j) {}
    }
  }

  /** What reversing comes to: a settled order's points go back both ways, in the balance and nowhere else. */
  lemma ReverseOutcome(l: Loyalty, i: nat)
    requires Inv(l) && i < |l.orders|
    ensures var (m, p, settled) := (Reverse(l, i), l.orders[i], PhaseOf(l, i) == Settled);
            && i < |m.orders|
            && var (a, b) := (AccountOf(l, p.user), AccountOf(m, p.user));
            && b == a.(balance := if settled then a.balance - p.earned + p.redeemed else a.balance, version := b.version)
            && (forall u | u != p.user :: AccountOf(m, u) == AccountOf(l, u))
            && m.orders[i] == p.(status := if settled && p.redeemed > 0 then Restored else p.status)
  {
    assert OrderOk(l, i) && OrderOk(Ensured(l, l.orders[i].user), i) by { EnsuredKeepsInv(l, l.orders[i].user); }
  }

  // ---------- What an order adds up to ----------

  ghost function ByKinds(log: seq<Tx>, i: nat, o: OrderPoints): int {
    (if HasTx(log, i, Earn) then o.earned else 0) - (if HasTx(log, i, Redeem) then o.redeemed else 0)
    - (if HasTx(log, i, EarnReversal) then o.earned else 0) + (if HasTx(log, i, RedeemReversal) then o.redeemed else 0)
  }

  lemma {:induction false} NetByKinds(log: seq<Tx>, i: nat, o: OrderPoints)
    requires OncePerKind(log)
    requires forall t <- log :: t.order == i ==> t.points == Amount(o, t.kind)
    ensures Net(log, i) == ByKinds(log, i, o)
  {
    if log != [] {
      var front := log[..|log| - 1];
      var t := log[|log| - 1];
      assert log == front + [t];
      NetByKinds(front, i, o);
      assert t in log;
      forall x | x in front ensures !(x.order == t.order && x.kind == t.kind) {
        var k :| 0 <= k < |front| && front[k] == x;
        assert log[k] == x;
      }
      ByKindsStep(front, t, i, o);
    }
  }

  lemma ByKindsStep(log: seq<Tx>, t: Tx, i: nat, o: OrderPoints)
    requires !HasTx(log, t.order, t.kind) && (t.order == i ==> t.points == Amount(o, t.kind))
    ensures ByKinds(log + [t], i, o) == ByKinds(log, i, o) + if t.order == i then t.points else 0
  {
  }

  /** In every valid state an order's transactions sum to earned − redeemed if settled, and to zero otherwise. */
  lemma NetOfOrder(l: Loyalty, i: nat)
    requires Inv(l) && i < |l.orders|
    ensures Net(l.log, i) == if PhaseOf(l, i) == Settled then l.orders[i].earned - l.orders[i].redeemed else 0
  {
    assert OrderOk(l, i);
    forall t | t in l.log && t.order == i ensures t.points == Amount(l.orders[i], t.kind) {
      var k :| 0 <= k < |l.log| && l.log[k] == t;
      assert TxOk(l, k);
    }
    NetByKinds(l.log, i, l.orders[i]);
  }

  /** The redemption is recorded exactly when the order says it was redeemed, and at most once. */
  lemma RedeemRecordedIff(l: Loyalty, i: nat)
    requires Inv(l) && i < |l.orders|
    ensures HasTx(l.log, i, Redeem) <==> l.orders[i].status in {Redeemed, Restored}
    ensures forall j, k | 0 <= j < k < |l.log| :: l.log[j].order == l.log[k].order == i ==> l.log[j].kind != l.log[k].kind
  {
    assert OrderOk(l, i);
  }

  // ---------- Any sequence of operations on an order ----------

  datatype Op = OpRelease | OpSettle | OpReverse

  /** A failed operation is a rolled-back transaction. */
  function Apply(l: Loyalty, i: nat, op: Op): (m: Loyalty)
    requires i < |l.orders|
  {
    match op
    case OpRelease => (match Release(l, i) case Success(m) => m case Failure(_) => l)
    case OpSettle => (match Settle(l, i) case Success(m) => m case Failure(_) => l)
    case OpReverse => Reverse(l, i)
  }

  /** The reference machine: an order is settled at most once and reversed at most once. */
  function Advance(phase: Phase, settled: bool, op: Op): Phase {
    match op
    case OpRelease => phase
    case OpSettle => if phase == Open && settled then Settled else phase
    case OpReverse => if phase == Settled then Reversed else phase
  }

  lemma ApplyAdvances(l: Loyalty, i: nat, op: Op)
    requires Inv(l) && i < |l.orders|
    ensures var m := Apply(l, i, op);
            && Inv(m) && |m.orders| == |l.orders|
            && m.orders[i].earned == l.orders[i].earned && m.orders[i].redeemed == l.orders[i].redeemed
            && (l.orders[i].redeemed + l.orders[i].earned > 0 ==>
                  PhaseOf(m, i) == Advance(PhaseOf(l, i), Settle(l, i).Success?, op))
  {
    match op
    case OpRelease => ReleaseKeepsInv(l, i);
    case OpSettle => if Settle(l, i).Success? { SettleKeepsInv(l, i); }
    case OpReverse => ReverseKeepsInv(l, i);
  }

  function Run(l: Loyalty, i: nat, ops: seq<Op>): (m: Loyalty)
    requires i < |l.orders|
    ensures |m.orders| == |l.orders|
  {
    if ops == [] then l else
      var m := Run(l, i, ops[..|ops| - 1]);
      Apply(m, i, ops[|ops| - 1])
  }

  /** The phases of a run: which of its settle and reverse operations took effect. */
  ghost function PhaseAfter(l: Loyalty, i: nat, ops: seq<Op>): Phase
    requires i < |l.orders|
  {
    if ops == [] then PhaseOf(l, i) else
      var before := ops[..|ops| - 1];
      Advance(PhaseAfter(l, i, before), Settle(Run(l, i, before), i).Success?, ops[|ops| - 1])
  }

  /**
   After any sequence of release, settle and reverse, an order's transactions sum to
   earned − redeemed if some settle took effect and no reverse did since, and to zero otherwise.
   */
  lemma {:induction false} RunNet(l: Loyalty, i: nat, ops: seq<Op>)
    requires Inv(l) && i < |l.orders|
    ensures var m := Run(l, i, ops);
            && Inv(m)
            && m.orders[i].earned == l.orders[i].earned && m.orders[i].redeemed == l.orders[i].redeemed
            && (l.orders[i].redeemed + l.orders[i].earned > 0 ==> PhaseOf(m, i) == PhaseAfter(l, i, ops))
            && Net(m.log, i) == if PhaseAfter(l, i, ops) == Settled then l.orders[i].earned - l.orders[i].redeemed else 0
  {
    if ops != [] {
      var before := ops[..|ops| - 1];
      RunNet(l, i, before);
      ApplyAdvances(Run(l, i, before), i, ops[|ops| - 1]);
    }
    NetOfOrder(Run(l, i, ops), i);
  }
}
