/** The inventory and reservation tables, updated row by row inside a transaction. */
module StockTables {
  import opened Wrappers
  import opened Stock

  /** The rows of an order when the loop has reached row `k`. */
  ghost function MarkedTo(rows: seq<Reservation>, k: nat, pass: Pass): (marked: seq<Reservation>)
    requires k <= |rows|
    ensures |marked| == |rows|
    ensures forall j | 0 <= j < |rows| :: marked[j] == if j < k then Mark(rows[j], pass) else rows[j]
  {
    seq(|rows|, j requires 0 <= j < |rows| => if j < k then Mark(rows[j], pass) else rows[j])
  }

  lemma MarkedEnds(table: seq<seq<Reservation>>, i: nat, pass: Pass)
    requires i < |table|
    ensures table[i := MarkedTo(table[i], 0, pass)] == table
    ensures MarkedTo(table[i], |table[i]|, pass) == MarkAll(table[i], pass)
    ensures table[i][..|table[i]|] == table[i]
  {
    assert MarkedTo(table[i], 0, pass) == table[i];
  }

  lemma MarkedStep(rows: seq<Reservation>, k: nat, pass: Pass)
    requires k < |rows|
    ensures MarkedTo(rows, k + 1, pass) == MarkedTo(rows, k, pass)[k := Mark(rows[k], pass)]
    ensures !Selects(pass, rows[k].Standing()) ==> MarkedTo(rows, k + 1, pass) == MarkedTo(rows, k, pass)
  {
  }

  /** What one selected row does to the counters of its product. */
  ghost function AfterRow(c: Inventory, r: Reservation, pass: Pass): Inventory {
    Inventory(c.onHand - (if pass == Release then 0 else r.quantity),
              c.reserved - (if r.Standing() == Active then r.quantity else 0),
              c.version + 1)
  }

  /** The inventory when the loop has reached row `k`. */
  ghost function Progress(inv: map<ProductId, Inventory>, rows: seq<Reservation>, k: nat, pass: Pass): map<ProductId, Inventory>
    requires k <= |rows|
    ensures Progress(inv, rows, k, pass).Keys == inv.Keys
  {
    if k == 0 then inv else
      var before := Progress(inv, rows, k - 1, pass);
      var r := rows[k - 1];
      if Selects(pass, r.Standing()) && r.product in before then before[r.product := AfterRow(before[r.product], r, pass)] else before
  }

  /** The loop's check of row `k` is the guard of the specification. */
  ghost predicate CheckedAt(inv: map<ProductId, Inventory>, rows: seq<Reservation>, k: nat, pass: Pass)
    requires k < |rows|
  {
    Selects(pass, rows[k].Standing()) ==>
      rows[k].product in inv && GuardHolds(Progress(inv, rows, k, pass)[rows[k].product], rows[k], pass)
  }

  lemma {:induction false} ProgressAt(inv: map<ProductId, Inventory>, rows: seq<Reservation>, k: nat, pass: Pass, p: ProductId)
    requires k <= |rows| && p in inv
    ensures Progress(inv, rows, k, pass)[p] == Counters(inv, rows[..k], pass)[p]
    decreases k
  {
    if k > 0 {
      ProgressAt(inv, rows, k - 1, pass, p);
      CounterStep(inv, rows, k - 1, pass, p);
      if rows[k - 1].product in inv { ProgressAt(inv, rows, k - 1, pass, rows[k - 1].product); }
    }
  }

  lemma CounterStep(inv: map<ProductId, Inventory>, rows: seq<Reservation>, k: nat, pass: Pass, p: ProductId)
    requires k < |rows| && p in inv
    ensures Counters(inv, rows[..k + 1], pass)[p] ==
              if rows[k].product == p && Selects(pass, rows[k].Standing())
              then AfterRow(Counters(inv, rows[..k], pass)[p], rows[k], pass)
              else Counters(inv, rows[..k], pass)[p]
  {
    assert rows[..k + 1][..k] == rows[..k];
  }

  lemma PassComplete(inv: map<ProductId, Inventory>, rows: seq<Reservation>, pass: Pass)
    ensures Progress(inv, rows, |rows|, pass) == Counters(inv, rows, pass)
    ensures forall k | 0 <= k < |rows| :: CheckedAt(inv, rows, k, pass) <==> GuardAt(inv, rows, k, pass)
  {
    assert rows[..|rows|] == rows;
    forall p | p in inv {
      ProgressAt(inv, rows, |rows|, pass, p);
    }
    forall k | 0 <= k < |rows| ensures CheckedAt(inv, rows, k, pass) <==> GuardAt(inv, rows, k, pass) {
      if rows[k].product in inv {
        ProgressAt(inv, rows, k, pass, rows[k].product);
      }
    }
  }

  /** The inventory when order creation has reserved the first `k` lines. */
  ghost function Reserving(read: map<ProductId, Inventory>, lines: seq<Line>, k: nat): map<ProductId, Inventory>
    requires k <= |lines|
    ensures Reserving(read, lines, k).Keys == read.Keys
  {
    if k == 0 then read else
      var before := Reserving(read, lines, k - 1);
      var l := lines[k - 1];
      if l.product in before then
        before[l.product := before[l.product].(reserved := before[l.product].reserved + l.quantity, version := before[l.product].version + 1)]
      else before
  }

  lemma {:induction false} ReservingAt(read: map<ProductId, Inventory>, lines: seq<Line>, expiresAt: int, k: nat, p: ProductId)
    requires k <= |lines| && p in read
    ensures Reserving(read, lines, k)[p] == Reserved(read, RowsFor(lines, expiresAt)[..k])[p]
    decreases k
  {
    if k > 0 {
      ReservingAt(read, lines, expiresAt, k - 1, p);
      assert RowsFor(lines, expiresAt)[..k][..k - 1] == RowsFor(lines, expiresAt)[..k - 1];
    }
  }

  lemma ReservingComplete(read: map<ProductId, Inventory>, lines: seq<Line>, expiresAt: int)
    ensures Reserving(read, lines, |lines|) == Reserved(read, RowsFor(lines, expiresAt))
  {
    assert RowsFor(lines, expiresAt)[..|lines|] == RowsFor(lines, expiresAt);
    forall p | p in read {
      ReservingAt(read, lines, expiresAt, |lines|, p);
    }
  }

  /** The compare-and-set on the version succeeds exactly when no earlier line had the same product. */
  lemma {:induction false} VersionUnchangedIff(read: map<ProductId, Inventory>, lines: seq<Line>, k: nat, p: ProductId)
    requires k <= |lines| && p in read
    ensures if forall j | 0 <= j < k :: lines[j].product != p
            then Reserving(read, lines, k)[p] == read[p]
            else Reserving(read, lines, k)[p].version > read[p].version
    decreases k
  {
    if k > 0 {
      VersionUnchangedIff(read, lines, k - 1, p);
    }
  }

  class StockTables {
    var inventory: map<ProductId, Inventory>
    var baseline: map<ProductId, int>
    var adjustments: seq<Adjustment>
    var reservations: seq<seq<Reservation>>

    constructor ()
      ensures Snapshot() == Stock(map[], map[], [], [])
    {
      inventory, baseline, adjustments, reservations := map[], map[], [], [];
    }

    function Snapshot(): Stock
      reads this
    {
      Stock(inventory, baseline, adjustments, reservations)
    }

    /** Rolls the tables back to the start of the transaction. */
    method Restore(s: Stock)
      modifies this
      ensures Snapshot() == s
    {
      inventory, baseline, adjustments, reservations := s.inventory, s.baseline, s.adjustments, s.reservations;
    }

    /** Writes one inventory row and the reservation row it belongs to. */
    method UpdateRow(i: nat, k: nat, next: Inventory, marked: Reservation)
      requires i < |reservations| && k < |reservations[i]|
      modifies this
      ensures inventory == old(inventory)[marked.product := next]
      ensures reservations == old(reservations)[i := old(reservations)[i][k := marked]]
      ensures baseline == old(baseline) && adjustments == old(adjustments)
    {
      inventory := inventory[marked.product := next];
      reservations := reservations[i := reservations[i][k := marked]];
    }

    /** The unchecked loop of customer cancellation, expiry and provider failure. */
    method ReleaseReservations(i: nat) returns (r: Result<(), Error>)
      requires i < |reservations|
      modifies this
      ensures match ReleaseOrder(old(Snapshot()), i)
              case Success(t) => r.Success? && Snapshot() == t
              case Failure(e) => r == Failure(e)
    {
      var rows := reservations[i];
      ghost var inv := inventory;
      MarkedEnds(reservations, i, Release);
      for k := 0 to |rows|
        invariant inventory == Progress(inv, rows, k, Release)
        invariant |reservations| == |old(reservations)| && reservations[i] == MarkedTo(rows, k, Release)
        invariant reservations == old(reservations)[i := reservations[i]]
        invariant forall j | 0 <= j < k :: rows[j].Standing() == Active ==> rows[j].product in inv
        invariant baseline == old(baseline) && adjustments == old(adjustments)
      {
        MarkedStep(rows, k, Release);
        var row := rows[k];
        if row.Standing() == Active {
          if row.product !in inventory {
            assert row in rows;
            return Failure(InventoryMissing);
          }
          var current := inventory[row.product];
          UpdateRow(i, k, current.(reserved := current.reserved - row.quantity, version := current.version + 1), row.(released := true));
        }
      }
      PassComplete(inv, rows, Release);
      r := Success(());
    }

    /** The checked loop of the back office: each update requires `reserved >= quantity`. */
    method ReleaseReservationsChecked(i: nat) returns (r: Result<(), Error>)
      requires i < |reservations|
      modifies this
      ensures match ReleaseOrderGuarded(old(Snapshot()), i)
              case Success(t) => r.Success? && Snapshot() == t
              case Failure(e) => r == Failure(e)
    {
      var rows := reservations[i];
      ghost var inv := inventory;
      MarkedEnds(reservations, i, Release);
      for k := 0 to |rows|
        invariant inventory == Progress(inv, rows, k, Release)
        invariant |reservations| == |old(reservations)| && reservations[i] == MarkedTo(rows, k, Release)
        invariant reservations == old(reservations)[i := reservations[i]]
        invariant forall j | 0 <= j < k :: CheckedAt(inv, rows, j, Release)
        invariant baseline == old(baseline) && adjustments == old(adjustments)
      {
        MarkedStep(rows, k, Release);
        var row := rows[k];
        if row.Standing() == Active {
          if row.product !in inventory || inventory[row.product].reserved < row.quantity {
            assert !CheckedAt(inv, rows, k, Release);
            PassComplete(inv, rows, Release);
            return Failure(ReservationInvalid);
          }
          var current := inventory[row.product];
          UpdateRow(i, k, current.(reserved := current.reserved - row.quantity, version := current.version + 1), row.(released := true));
        }
      }
      PassComplete(inv, rows, Release);
      r := Success(());
    }

    /** Transfer approval: the checked consume loop over the active rows. */
    method ConsumeReservationsChecked(i: nat) returns (r: Result<(), Error>)
      requires i < |reservations|
      modifies this
      ensures match ConsumeOrderGuarded(old(Snapshot()), i)
              case Success(t) => r.Success? && Snapshot() == t
              case Failure(e) => r == Failure(e)
    {
      var rows := reservations[i];
      if !HasActive(rows) {
        return Failure(ReservationNotActive);
      }
      ghost var inv := inventory;
      MarkedEnds(reservations, i, Consume);
      for k := 0 to |rows|
        invariant inventory == Progress(inv, rows, k, Consume)
        invariant |reservations| == |old(reservations)| && reservations[i] == MarkedTo(rows, k, Consume)
        invariant reservations == old(reservations)[i := reservations[i]]
        invariant forall j | 0 <= j < k :: CheckedAt(inv, rows, j, Consume)
        invariant baseline == old(baseline) && adjustments == old(adjustments)
      {
        MarkedStep(rows, k, Consume);
        var row := rows[k];
        if row.Standing() == Active {
          if row.product !in inventory || inventory[row.product].onHand < row.quantity || inventory[row.product].reserved < row.quantity {
            assert !CheckedAt(inv, rows, k, Consume);
            PassComplete(inv, rows, Consume);
            return Failure(ReservationInvalid);
          }
          var current := inventory[row.product];
          UpdateRow(i, k, Inventory(current.onHand - row.quantity, current.reserved - row.quantity, current.version + 1), row.(consumed := true));
        }
      }
      PassComplete(inv, rows, Consume);
      r := Success(());
    }

    /** Provider approval: after the rows were validated, an unchecked loop over all of them. */
    method ConsumeReservations(i: nat) returns (r: Result<(), Error>)
      requires i < |reservations| && All(reservations[i], Active)
      modifies this
      ensures match ConsumeOnApproval(old(Snapshot()), i)
              case Success(t) => r.Success? && Snapshot() == t
              case Failure(e) => r == Failure(e)
    {
      var rows := reservations[i];
      ghost var inv := inventory;
      MarkedEnds(reservations, i, Consume);
      for k := 0 to |rows|
        invariant inventory == Progress(inv, rows, k, Consume)
        invariant |reservations| == |old(reservations)| && reservations[i] == MarkedTo(rows, k, Consume)
        invariant reservations == old(reservations)[i := reservations[i]]
        invariant forall j | 0 <= j < k :: rows[j].product in inv
        invariant baseline == old(baseline) && adjustments == old(adjustments)
      {
        MarkedStep(rows, k, Consume);
        var row := rows[k];
        assert row in rows;
        if row.product !in inventory {
          return Failure(InventoryMissing);
        }
        var current := inventory[row.product];
        UpdateRow(i, k, Inventory(current.onHand - row.quantity, current.reserved - row.quantity, current.version + 1), row.(consumed := true));
      }
      PassComplete(inv, rows, Consume);
      r := Success(());
    }

    /** Late fulfilment: rows still reserved are consumed, released rows are taken from free stock. */
    method FulfillLate(i: nat) returns (r: Result<(), Error>)
      requires i < |reservations|
      modifies this
      ensures match FulfillLateOrder(old(Snapshot()), i)
              case Success(t) => r.Success? && Snapshot() == t
              case Failure(e) => r == Failure(e)
    {
      var rows := reservations[i];
      if rows == [] {
        return Failure(ReservationNotFound);
      }
      ghost var inv := inventory;
      MarkedEnds(reservations, i, Late);
      for k := 0 to |rows|
        invariant inventory == Progress(inv, rows, k, Late)
        invariant |reservations| == |old(reservations)| && reservations[i] == MarkedTo(rows, k, Late)
        invariant reservations == old(reservations)[i := reservations[i]]
        invariant forall j | 0 <= j < k :: CheckedAt(inv, rows, j, Late)
        invariant baseline == old(baseline) && adjustments == old(adjustments)
      {
        MarkedStep(rows, k, Late);
        var row := rows[k];
        if !row.consumed {
          if row.product !in inventory {
            assert !CheckedAt(inv, rows, k, Late);
            PassComplete(inv, rows, Late);
            return Failure(OutOfStock);
          }
          var current := inventory[row.product];
          var isStillReserved := !row.released;
          if if isStillReserved then current.onHand < row.quantity || current.reserved < row.quantity
             else current.onHand - current.reserved < row.quantity {
            assert !CheckedAt(inv, rows, k, Late);
            PassComplete(inv, rows, Late);
            return Failure(OutOfStock);
          }
          UpdateRow(i, k, Inventory(
            current.onHand - row.quantity,
            if isStillReserved then current.reserved - row.quantity else current.reserved,
            current.version + 1), row.(released := false, consumed := true));
        }
      }
      PassComplete(inv, rows, Late);
      r := Success(());
    }

    /**
     The reserving loop of order creation.  Every line carries the inventory row read when the
     basket was priced, and each update is a compare-and-set on that row's version.
     */
    method ReserveEach(lines: seq<Line>) returns (ok: bool)
      requires Available(inventory, lines)
      modifies this`inventory
      ensures ok <==> Distinct(lines)
      ensures ok ==> inventory == Reserving(old(inventory), lines, |lines|)
    {
      var read := inventory;
      for k := 0 to |lines|
        invariant inventory == Reserving(read, lines, k)
        invariant forall j, m | 0 <= j < m < k :: lines[j].product != lines[m].product
      {
        var line := lines[k];
        assert line in lines;
        VersionUnchangedIff(read, lines, k, line.product);
        var current := inventory[line.product];
        if current.version != read[line.product].version || current.reserved > read[line.product].onHand - line.quantity {
          return false;
        }
        inventory := inventory[line.product := current.(reserved := current.reserved + line.quantity, version := current.version + 1)];
      }
      ok := true;
    }

    /** Order creation: the basket check followed by the reserving loop. */
    method ReserveLines(lines: seq<Line>, expiresAt: int) returns (r: Result<(), Error>)
      modifies this
      ensures match PlaceOrder(old(Snapshot()), lines, expiresAt)
              case Success(t) => r.Success? && Snapshot() == t
              case Failure(e) => r == Failure(e)
    {
      if !Available(inventory, lines) {
        return Failure(OutOfStock);
      }
      var ok := ReserveEach(lines);
      if !ok {
        return Failure(OutOfStock);
      }
      ReservingComplete(old(inventory), lines, expiresAt);
      reservations := reservations + [RowsFor(lines, expiresAt)];
      r := Success(());
    }

    method RestockLines(lines: seq<Line>) returns (r: Result<(), Error>)
      modifies this
      ensures match Restock(old(Snapshot()), lines)
              case Success(t) => r.Success? && Snapshot() == t
              case Failure(e) => r == Failure(e)
    {
      for k := 0 to |lines|
        invariant forall j | 0 <= j < k :: lines[j].product in old(inventory)
        invariant inventory == RestockedRows(old(inventory), lines[..k])
        invariant adjustments == old(adjustments) + RestockLog(lines[..k])
        invariant reservations == old(reservations) && baseline == old(baseline)
      {
        var line := lines[k];
        assert lines[..k + 1][..k] == lines[..k];
        if line.product !in inventory {
          assert line in lines && line.product !in old(inventory).Keys;
          return Failure(InventoryMissing);
        }
        inventory := inventory[line.product := inventory[line.product].(onHand := inventory[line.product].onHand + line.quantity)];
        adjustments := adjustments + [Adjustment(line.product, line.quantity)];
      }
      assert lines[..|lines|] == lines;
      r := Success(());
    }

    /**
     The demo seed recomputes both counters of each listed product from the reservation and
     adjustment tables.  On a valid state it never reports a failure and changes nothing.
     */
    method SyncSeedInventory(products: seq<ProductId>) returns (ok: bool)
      requires forall p <- products :: p in inventory && p in baseline
      modifies this
      ensures ok ==> forall p <- products :: p in inventory && p in baseline
                      && inventory[p].onHand == RecomputedOnHand(Snapshot(), p)
                      && inventory[p].reserved == Total(reservations, p, Active) <= inventory[p].onHand
      ensures old(Inv(Snapshot())) ==> ok && Snapshot() == old(Snapshot())
    {
      for k := 0 to |products|
        invariant inventory.Keys == old(inventory).Keys
        invariant reservations == old(reservations) && baseline == old(baseline) && adjustments == old(adjustments)
        invariant forall j | 0 <= j < k ::
                    && products[j] in inventory && products[j] in baseline
                    && inventory[products[j]].onHand == RecomputedOnHand(Snapshot(), products[j])
                    && inventory[products[j]].reserved == Total(reservations, products[j], Active) <= inventory[products[j]].onHand
        invariant old(Inv(Snapshot())) ==> inventory == old(inventory)
      {
        var p := products[k];
        assert p in products && p in old(inventory).Keys;
        var onHand := baseline[p] + Adjusted(adjustments, p) - Total(reservations, p, Consumed);
        var reserved := Total(reservations, p, Active);
        if onHand < reserved || onHand < 0 {
          return false;
        }
        if inventory[p].onHand != onHand || inventory[p].reserved != reserved {
          inventory := inventory[p := Inventory(onHand, reserved, inventory[p].version + 1)];
        }
      }
      ok := true;
    }
  }
}
