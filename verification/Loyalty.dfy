/**
 Loyalty points: the checkout quote, and the account that reserves, redeems, earns and
 gives back points once per order and transaction kind.
 */
module Loyalty {
  import opened Wrappers

  type UserId = nat

  datatype Program = Program(
    enabled: bool, spendPerPoint: int, pointsPerStep: nat, pointValue: int,
    minimumPoints: nat, maximumPercent: nat)

  datatype Account = Account(balance: int, reserved: int, lifetimeEarned: int, lifetimeRedeemed: int, version: nat)

  datatype Kind = Earn | Redeem | EarnReversal | RedeemReversal

  datatype Tx = Tx(user: UserId, order: nat, kind: Kind, points: int, balanceAfter: int)

  datatype Redemption = NoPoints | Held | Redeemed | Released | Restored

  /** The loyalty columns of an order. */
  datatype OrderPoints = OrderPoints(user: UserId, redeemed: nat, earned: nat, status: Redemption)

  datatype Loyalty = Loyalty(accounts: map<UserId, Account>, log: seq<Tx>, orders: seq<OrderPoints>)

  datatype Error = ProgramDisabled | MinimumNotMet | PointsUnavailable | PointsOverflow | ReservationInconsistent

  // ---------- The checkout quote ----------

  datatype Quote = Quote(pointsRedeemed: nat, discount: int, pointsToEarn: int)

  const POINTS_LIMIT := 2_000_000_000

  function Spendable(a: Account): int { Max(0, a.balance - a.reserved) }

  function MaximumRedeemable(program: Program, account: Account, subtotal: nat): int {
    var percentCap := subtotal * program.maximumPercent / 100;
    var moneyCap := if percentCap < subtotal then percentCap else subtotal;
    var byMoney := if program.pointValue > 0 then moneyCap / program.pointValue else 0;
    Max(0, Min(Spendable(account), byMoney))
  }

  function CalculateQuote(program: Program, account: Account, subtotal: nat, requested: nat): Result<Quote, Error> {
    if !program.enabled then
      if requested > 0 then Failure(ProgramDisabled) else Success(Quote(0, 0, 0))
    else if requested > 0 && requested < program.minimumPoints then Failure(MinimumNotMet)
    else if requested > MaximumRedeemable(program, account, subtotal) then Failure(PointsUnavailable)
    else
      var discount := requested * program.pointValue;
      var eligible := subtotal - discount;
      var toEarn := if program.spendPerPoint > 0 then eligible / program.spendPerPoint * program.pointsPerStep else 0;
      if toEarn > POINTS_LIMIT then Failure(PointsOverflow) else Success(Quote(requested, discount, toEarn))
  }

  // ---------- Account and order updates ----------

  function AccountOf(l: Loyalty, u: UserId): Account {
    if u in l.accounts then l.accounts[u] else Account(0, 0, 0, 0, 1)
  }

  function Ensured(l: Loyalty, u: UserId): Loyalty {
    l.(accounts := l.accounts[u := AccountOf(l, u)])
  }

  predicate HasTx(log: seq<Tx>, i: nat, kind: Kind) {
    exists t <- log :: t.order == i && t.kind == kind
  }

  /** `reserveLoyaltyPoints`. */
  function Reserve(l: Loyalty, u: UserId, points: nat): Result<Loyalty, Error> {
    if points == 0 then Success(l) else
    var a := AccountOf(l, u);
    if Spendable(a) < points then Failure(PointsUnavailable)
    else Success(l.(accounts := l.accounts[u := a.(reserved := a.reserved + points, version := a.version + 1)]))
  }

  /** Order creation records the points of the order and holds them. */
  function PlaceOrder(l: Loyalty, u: UserId, points: nat, earned: nat): Result<Loyalty, Error> {
    var o := OrderPoints(u, points, earned, if points > 0 then Held else NoPoints);
    Reserve(l.(orders := l.orders + [o]), u, points)
  }

  function WithStatus(l: Loyalty, i: nat, status: Redemption): Loyalty
    requires i < |l.orders|
  {
    l.(orders := l.orders[i := l.orders[i].(status := status)])
  }

  function Post(l: Loyalty, i: nat, kind: Kind, points: int, a: Account): Loyalty
    requires i < |l.orders|
  {
    l.(accounts := l.accounts[l.orders[i].user := a],
       log := l.log + [Tx(l.orders[i].user, i, kind, points, a.balance)])
  }

  function Release(l: Loyalty, i: nat): (r: Result<Loyalty, Error>)
    requires i < |l.orders|
    ensures r.Success? ==> |r.value.orders| == |l.orders|
  {
    var o := l.orders[i];
    if o.redeemed == 0 || o.status != Held then Success(l) else
    var a := AccountOf(l, o.user);
    if a.reserved < o.redeemed then Failure(ReservationInconsistent)
    else Success(WithStatus(l.(accounts := l.accounts[o.user := a.(reserved := a.reserved - o.redeemed, version := a.version + 1)]), i, Released))
  }

  function SettleRedeem(l: Loyalty, i: nat): Result<Loyalty, Error>
    requires i < |l.orders|
  {
    var o := l.orders[i];
    if o.redeemed == 0 || o.status == Redeemed || o.status == Restored then Success(l)
    else if HasTx(l.log, i, Redeem) then Success(WithStatus(l, i, Redeemed))
    else
      var a := AccountOf(l, o.user);
      var held := o.status == Held;
      if (if held then a.reserved else Spendable(a)) < o.redeemed then Failure(PointsUnavailable)
      else
        var a' := a.(balance := a.balance - o.redeemed,
                     reserved := if held then a.reserved - o.redeemed else a.reserved,
                     lifetimeRedeemed := a.lifetimeRedeemed + o.redeemed, version := a.version + 1);
        Success(WithStatus(Post(l, i, Redeem, -(o.redeemed as int), a'), i, Redeemed))
  }

  function SettleEarn(l: Loyalty, i: nat): Loyalty
    requires i < |l.orders|
  {
    var o := l.orders[i];
    if o.earned == 0 || HasTx(l.log, i, Earn) then l else
    var a := AccountOf(l, o.user);
    Post(l, i, Earn, o.earned,
         a.(balance := a.balance + o.earned, lifetimeEarned := a.lifetimeEarned + o.earned, version := a.version + 1))
  }

  function Settle(l: Loyalty, i: nat): Result<Loyalty, Error>
    requires i < |l.orders|
  {
    match SettleRedeem(Ensured(l, l.orders[i].user), i)
    case Failure(e) => Failure(e)
    case Success(m) => Success(SettleEarn(m, i))
  }

  function ReverseEarn(l: Loyalty, i: nat): Loyalty
    requires i < |l.orders|
  {
    var o := l.orders[i];
    if !HasTx(l.log, i, Earn) || HasTx(l.log, i, EarnReversal) || o.earned == 0 then l else
    var a := AccountOf(l, o.user);
    Post(l, i, EarnReversal, -(o.earned as int), a.(balance := a.balance - o.earned, version := a.version + 1))
  }

  function ReverseRedeem(l: Loyalty, i: nat): Loyalty
    requires i < |l.orders|
  {
    var o := l.orders[i];
    if !HasTx(l.log, i, Redeem) || HasTx(l.log, i, RedeemReversal) || o.redeemed == 0 then l else
    var a := AccountOf(l, o.user);
    WithStatus(Post(l, i, RedeemReversal, o.redeemed, a.(balance := a.balance + o.redeemed, version := a.version + 1)), i, Restored)
  }

  function Reverse(l: Loyalty, i: nat): Loyalty
    requires i < |l.orders|
  {
    ReverseRedeem(ReverseEarn(Ensured(l, l.orders[i].user), i), i)
  }

  // ---------- The invariant ----------

  function Points(log: seq<Tx>, u: UserId): int {
    if log == [] then 0 else Points(log[..|log| - 1], u) + if log[|log| - 1].user == u then log[|log| - 1].points else 0
  }

  function HeldFor(orders: seq<OrderPoints>, u: UserId): nat {
    if orders == [] then 0 else
      var o := orders[|orders| - 1];
      HeldFor(orders[..|orders| - 1], u) + if o.user == u && o.status == Held then o.redeemed else 0
  }

  /** What order `i` has added to its owner's balance so far. */
  function Net(log: seq<Tx>, i: nat): int {
    if log == [] then 0 else Net(log[..|log| - 1], i) + if log[|log| - 1].order == i then log[|log| - 1].points else 0
  }

  function Amount(o: OrderPoints, kind: Kind): int {
    match kind
    case Earn => o.earned
    case Redeem => -(o.redeemed as int)
    case EarnReversal => -(o.earned as int)
    case RedeemReversal => o.redeemed
  }

  ghost predicate BalanceSums(l: Loyalty) {
    forall u: UserId :: AccountOf(l, u).balance == Points(l.log, u)
  }

  ghost predicate HeldSums(l: Loyalty) {
    forall u: UserId :: AccountOf(l, u).reserved == HeldFor(l.orders, u)
  }

  ghost predicate TxOk(l: Loyalty, k: nat)
    requires k < |l.log|
  {
    var t := l.log[k];
    && t.order < |l.orders|
    && t.user == l.orders[t.order].user
    && t.points == Amount(l.orders[t.order], t.kind)
    && t.balanceAfter == Points(l.log[..k + 1], t.user)
  }

  ghost predicate LogOk(l: Loyalty) {
    (forall k | 0 <= k < |l.log| :: TxOk(l, k)) && OncePerKind(l.log)
  }

  /** The unique key on (order, kind). */
  ghost predicate OncePerKind(log: seq<Tx>) {
    forall j, k | 0 <= j < k < |log| :: log[j].order == log[k].order ==> log[j].kind != log[k].kind
  }

  datatype Phase = Open | Settled | Reversed

  ghost function PhaseOf(l: Loyalty, i: nat): Phase {
    if HasTx(l.log, i, EarnReversal) || HasTx(l.log, i, RedeemReversal) then Reversed
    else if HasTx(l.log, i, Earn) || HasTx(l.log, i, Redeem) then Settled
    else Open
  }

  ghost predicate OrderOk(l: Loyalty, i: nat)
    requires i < |l.orders|
  {
    var o := l.orders[i];
    var phase := PhaseOf(l, i);
    && (o.status == NoPoints <==> o.redeemed == 0)
    && (HasTx(l.log, i, Redeem) <==> o.redeemed > 0 && phase != Open)
    && (HasTx(l.log, i, Earn) <==> o.earned > 0 && phase != Open)
    && (HasTx(l.log, i, RedeemReversal) <==> o.redeemed > 0 && phase == Reversed)
    && (HasTx(l.log, i, EarnReversal) <==> o.earned > 0 && phase == Reversed)
    && (o.redeemed > 0 ==>
          && (phase == Open <==> o.status in {Held, Released})
          && (phase == Settled <==> o.status == Redeemed)
          && (phase == Reversed <==> o.status == Restored))
  }

  ghost predicate Inv(l: Loyalty) {
    BalanceSums(l) && HeldSums(l) && LogOk(l) && forall i | 0 <= i < |l.orders| :: OrderOk(l, i)
  }
}
