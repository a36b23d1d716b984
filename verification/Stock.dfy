/**
 Inventory counters and stock reservations.

 The database keeps two counters per product (`onHand`, `reserved`) and one row per
 (order, product) reservation.  Three release loops and three consume loops update the
 counters; some check them first and some do not.  `Inv` is the recomputation of the
 counters from history; it is what makes the unchecked loops safe.
 */
module Stock {
  import opened Wrappers

  type ProductId = nat

  datatype Inventory = Inventory(onHand: int, reserved: int, version: nat)

  /** `released` and `consumed` stand for the two nullable timestamps of the row. */
  datatype Reservation = Reservation(product: ProductId, quantity: nat, expiresAt: int, released: bool, consumed: bool)
  {
    function Standing(): Standing {
      if consumed then Consumed else if released then Released else Active
    }
  }

  datatype Standing = Active | Released | Consumed

  datatype Adjustment = Adjustment(product: ProductId, delta: int)

  datatype Line = Line(product: ProductId, quantity: nat)

  /** `reservations[i]` are the rows of order `i`, in insertion order. */
  datatype Stock = Stock(
    inventory: map<ProductId, Inventory>,
    baseline: map<ProductId, int>,
    adjustments: seq<Adjustment>,
    reservations: seq<seq<Reservation>>)

  datatype Error =
    | OutOfStock
    | ReservationInvalid
    | ReservationNotActive
    | ReservationNotFound
    | InventoryMissing
    | StockBelowReserved
    | UniqueStockInvalid
    | ProductExists

  // ---------- Sums over reservation rows ----------

  function Qty(rs: seq<Reservation>, p: ProductId, s: Standing): nat {
    if rs == [] then 0 else
      var last := rs[|rs| - 1];
      Qty(rs[..|rs| - 1], p, s) + if last.product == p && last.Standing() == s then last.quantity else 0
  }

  function Rows(rs: seq<Reservation>, p: ProductId, s: Standing): nat {
    if rs == [] then 0 else
      var last := rs[|rs| - 1];
      Rows(rs[..|rs| - 1], p, s) + if last.product == p && last.Standing() == s then 1 else 0
  }

  function Total(table: seq<seq<Reservation>>, p: ProductId, s: Standing): nat {
    if table == [] then 0 else Total(table[..|table| - 1], p, s) + Qty(table[|table| - 1], p, s)
  }

  function Adjusted(log: seq<Adjustment>, p: ProductId): int {
    if log == [] then 0 else
      Adjusted(log[..|log| - 1], p) + if log[|log| - 1].product == p then log[|log| - 1].delta else 0
  }

  predicate All(rs: seq<Reservation>, s: Standing) {
    forall r <- rs :: r.Standing() == s
  }

  predicate HasActive(rs: seq<Reservation>) {
    exists r <- rs :: r.Standing() == Active
  }

  // ---------- What one pass over an order's rows does ----------

  datatype Pass = Release | Consume | Late

  predicate Selects(pass: Pass, s: Standing) {
    match pass
    case Late => s != Consumed
    case _ => s == Active
  }

  function OnHandOut(rs: seq<Reservation>, p: ProductId, pass: Pass): nat {
    match pass
    case Release => 0
    case Consume => Qty(rs, p, Active)
    case Late => Qty(rs, p, Active) + Qty(rs, p, Released)
  }

  function Touched(rs: seq<Reservation>, p: ProductId, pass: Pass): nat {
    match pass
    case Late => Rows(rs, p, Active) + Rows(rs, p, Released)
    case _ => Rows(rs, p, Active)
  }

  /** The counters after a whole pass, product by product. */
  function Counters(inv: map<ProductId, Inventory>, rs: seq<Reservation>, pass: Pass): map<ProductId, Inventory> {
    map p <- inv ::
      Inventory(inv[p].onHand - OnHandOut(rs, p, pass),
                inv[p].reserved - Qty(rs, p, Active),
                inv[p].version + Touched(rs, p, pass))
  }

  function Mark(r: Reservation, pass: Pass): Reservation {
    if !Selects(pass, r.Standing()) then r else
    match pass
    case Release => r.(released := true)
    case Consume => r.(consumed := true)
    case Late => r.(released := false, consumed := true)
  }

  function MarkAll(rs: seq<Reservation>, pass: Pass): (marked: seq<Reservation>)
    ensures |marked| == |rs|
    ensures forall k | 0 <= k < |rs| :: marked[k] == Mark(rs[k], pass)
  {
    seq(|rs|, k requires 0 <= k < |rs| => Mark(rs[k], pass))
  }

  /** The check a guarded loop makes on the counters of one row before updating them. */
  predicate GuardHolds(row: Inventory, r: Reservation, pass: Pass) {
    match pass
    case Release => row.reserved >= r.quantity
    case Consume => row.onHand >= r.quantity && row.reserved >= r.quantity
    case Late =>
      if r.released then row.onHand - row.reserved >= r.quantity
      else row.onHand >= r.quantity && row.reserved >= r.quantity
  }

  predicate Covered(inv: map<ProductId, Inventory>, rs: seq<Reservation>, pass: Pass) {
    forall r <- rs :: Selects(pass, r.Standing()) ==> r.product in inv
  }

  /** The check for row `k`, made on the counters left by the rows before it. */
  ghost predicate GuardAt(inv: map<ProductId, Inventory>, rs: seq<Reservation>, k: nat, pass: Pass)
    requires k < |rs|
  {
    Selects(pass, rs[k].Standing()) ==>
      rs[k].product in inv && GuardHolds(Counters(inv, rs[..k], pass)[rs[k].product], rs[k], pass)
  }

  ghost predicate GuardsPass(inv: map<ProductId, Inventory>, rs: seq<Reservation>, pass: Pass) {
    forall k | 0 <= k < |rs| :: GuardAt(inv, rs, k, pass)
  }

  function AfterPass(s: Stock, i: nat, pass: Pass): Stock
    requires i < |s.reservations|
  {
    s.(inventory := Counters(s.inventory, s.reservations[i], pass),
       reservations := s.reservations[i := MarkAll(s.reservations[i], pass)])
  }

  // ---------- Specifications of the transactions' stock parts ----------

  function ReleaseOrder(s: Stock, i: nat): Result<Stock, Error>
    requires i < |s.reservations|
  {
    if Covered(s.inventory, s.reservations[i], Release) then Success(AfterPass(s, i, Release)) else Failure(InventoryMissing)
  }

  ghost function ReleaseOrderGuarded(s: Stock, i: nat): Result<Stock, Error>
    requires i < |s.reservations|
  {
    if GuardsPass(s.inventory, s.reservations[i], Release) then Success(AfterPass(s, i, Release)) else Failure(ReservationInvalid)
  }

  ghost function ConsumeOrderGuarded(s: Stock, i: nat): Result<Stock, Error>
    requires i < |s.reservations|
  {
    if !HasActive(s.reservations[i]) then Failure(ReservationNotActive)
    else if GuardsPass(s.inventory, s.reservations[i], Consume) then Success(AfterPass(s, i, Consume))
    else Failure(ReservationInvalid)
  }

  predicate ValidForApproval(rs: seq<Reservation>, now: int) {
    rs != [] && forall r <- rs :: r.Standing() == Active && r.expiresAt > now
  }

  function ConsumeOnApproval(s: Stock, i: nat): Result<Stock, Error>
    requires i < |s.reservations|
    requires All(s.reservations[i], Active)
  {
    if Covered(s.inventory, s.reservations[i], Consume) then Success(AfterPass(s, i, Consume)) else Failure(InventoryMissing)
  }

  ghost function FulfillLateOrder(s: Stock, i: nat): Result<Stock, Error>
    requires i < |s.reservations|
  {
    if s.reservations[i] == [] then Failure(ReservationNotFound)
    else if GuardsPass(s.inventory, s.reservations[i], Late) then Success(AfterPass(s, i, Late))
    else Failure(OutOfStock)
  }

  predicate Distinct(lines: seq<Line>) {
    forall j, k | 0 <= j < k < |lines| :: lines[j].product != lines[k].product
  }

  predicate Available(inv: map<ProductId, Inventory>, lines: seq<Line>) {
    forall l <- lines :: l.product in inv && inv[l.product].onHand - inv[l.product].reserved >= l.quantity
  }

  function RowsFor(lines: seq<Line>, expiresAt: int): (rs: seq<Reservation>)
    ensures |rs| == |lines|
    ensures forall k | 0 <= k < |lines| :: rs[k] == Reservation(lines[k].product, lines[k].quantity, expiresAt, false, false)
  {
    seq(|lines|, k requires 0 <= k < |lines| => Reservation(lines[k].product, lines[k].quantity, expiresAt, false, false))
  }

  function Reserved(inv: map<ProductId, Inventory>, rs: seq<Reservation>): map<ProductId, Inventory> {
    map p <- inv :: Inventory(inv[p].onHand, inv[p].reserved + Qty(rs, p, Active), inv[p].version + Rows(rs, p, Active))
  }

  /** A basket is accepted exactly when its products are distinct and each is available. */
  function PlaceOrder(s: Stock, lines: seq<Line>, expiresAt: int): Result<Stock, Error> {
    if Distinct(lines) && Available(s.inventory, lines) then
      var rs := RowsFor(lines, expiresAt);
      Success(s.(inventory := Reserved(s.inventory, rs), reservations := s.reservations + [rs]))
    else Failure(OutOfStock)
  }

  function Adjust(s: Stock, p: ProductId, delta: int, unique: bool): Result<Stock, Error> {
    if p !in s.inventory then Failure(InventoryMissing) else
    var row := s.inventory[p];
    var next := row.onHand + delta;
    if next < row.reserved then Failure(StockBelowReserved)
    else if unique && next > 1 then Failure(UniqueStockInvalid)
    else Success(s.(inventory := s.inventory[p := row.(onHand := next, version := row.version + 1)],
                    adjustments := s.adjustments + [Adjustment(p, delta)]))
  }

  /** The affiliate's stock edit writes `onHand` without looking at `reserved`. */
  function AffiliateEdit(s: Stock, p: ProductId, stock: nat, unique: bool): Result<Stock, Error> {
    if p !in s.inventory then Failure(InventoryMissing)
    else if unique && stock > 1 then Failure(UniqueStockInvalid)
    else
      var row := s.inventory[p];
      Success(s.(inventory := s.inventory[p := row.(onHand := stock, version := row.version + 1)],
                 adjustments := if stock == row.onHand then s.adjustments
                                else s.adjustments + [Adjustment(p, stock - row.onHand)]))
  }

  function RestockedRows(inv: map<ProductId, Inventory>, lines: seq<Line>): map<ProductId, Inventory>
    requires forall l <- lines :: l.product in inv
    ensures RestockedRows(inv, lines).Keys == inv.Keys
  {
    if lines == [] then inv else
      var before := RestockedRows(inv, lines[..|lines| - 1]);
      var l := lines[|lines| - 1];
      before[l.product := before[l.product].(onHand := before[l.product].onHand + l.quantity)]
  }

  function RestockLog(lines: seq<Line>): (log: seq<Adjustment>)
    ensures |log| == |lines|
    ensures forall k | 0 <= k < |lines| :: log[k] == Adjustment(lines[k].product, lines[k].quantity)
  {
    seq(|lines|, k requires 0 <= k < |lines| => Adjustment(lines[k].product, lines[k].quantity))
  }

  function Restock(s: Stock, lines: seq<Line>): Result<Stock, Error> {
    if forall l <- lines :: l.product in s.inventory then
      Success(s.(inventory := RestockedRows(s.inventory, lines), adjustments := s.adjustments + RestockLog(lines)))
    else Failure(InventoryMissing)
  }

  /** Store products log their initial stock as an adjustment; affiliate listings do not. */
  function AddProduct(s: Stock, p: ProductId, stock: nat, logged: bool): Result<Stock, Error> {
    if p in s.inventory || p in s.baseline then Failure(ProductExists) else
    var added := s.(inventory := s.inventory[p := Inventory(stock, 0, 1)],
                    baseline := s.baseline[p := if logged then 0 else stock]);
    Success(if logged && stock > 0 then added.(adjustments := s.adjustments + [Adjustment(p, stock)]) else added)
  }

  // ---------- The invariant: counters equal their recomputation from history ----------

  function RecomputedOnHand(s: Stock, p: ProductId): int
    requires p in s.baseline
  {
    s.baseline[p] + Adjusted(s.adjustments, p) - Total(s.reservations, p, Consumed)
  }

  ghost predicate RowsOk(s: Stock) {
    forall i, k {:trigger s.reservations[i][k]} | 0 <= i < |s.reservations| && 0 <= k < |s.reservations[i]| ::
      var r := s.reservations[i][k];
      r.product in s.inventory && r.quantity >= 1 && !(r.released && r.consumed)
  }

  ghost predicate CountersOk(s: Stock) {
    forall p <- s.inventory ::
      && p in s.baseline
      && s.inventory[p].onHand == RecomputedOnHand(s, p)
      && s.inventory[p].reserved == Total(s.reservations, p, Active)
      && s.inventory[p].reserved <= s.inventory[p].onHand
  }

  /** Every product not in the catalogue has no history. */
  ghost predicate LogOk(s: Stock) {
    && s.baseline.Keys == s.inventory.Keys
    && forall a <- s.adjustments :: a.product in s.inventory
  }

  ghost predicate Inv(s: Stock) { RowsOk(s) && CountersOk(s) && LogOk(s) }
}
