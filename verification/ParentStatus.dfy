/** The status of an order as a function of the statuses of its seller orders, written twice. */
module ParentStatus {
  import opened Wrappers
  import S = SellerOrders

  datatype OrderStatus =
    | PendingPayment | PaymentReview | Paid | InFulfillment | Preparing | ReadyForPickup | Shipped
    | PartiallyCompleted | ActionRequired | Completed | Cancelled | Expired | RefundRecorded | PaymentRequiresReview

  predicate AllIn(statuses: seq<S.Status>, values: set<S.Status>) {
    forall s <- statuses :: s in values
  }

  predicate AnyIn(statuses: seq<S.Status>, values: set<S.Status>) {
    exists s <- statuses :: s in values
  }

  /** `reconcileParentOrder`: the next status, or nothing for an order without seller orders. */
  function Next(statuses: seq<S.Status>): Option<OrderStatus> {
    if statuses == [] then None
    else if AnyIn(statuses, {S.Disputed, S.CancellationRequested}) then Some(ActionRequired)
    else if AllIn(statuses, {S.Completed}) then Some(Completed)
    else if AllIn(statuses, {S.Cancelled, S.Refunded}) then Some(Cancelled)
    else if AnyIn(statuses, {S.Completed}) && AnyIn(statuses, {S.Paid, S.Preparing, S.ReadyForPickup, S.PickedUp, S.Shipped}) then Some(PartiallyCompleted)
    else if AnyIn(statuses, {S.Preparing, S.ReadyForPickup, S.PickedUp, S.Shipped}) then Some(InFulfillment)
    else if AllIn(statuses, {S.Paid}) then Some(Paid)
    else if AllIn(statuses, {S.PendingPayment}) then Some(PendingPayment)
    else Some(Paid)
  }

  const ACTIVE := {S.Paid, S.Preparing, S.ReadyForPickup, S.PickedUp, S.Shipped}

  /** How many of the statuses are among the given ones. */
  function Count(statuses: seq<S.Status>, values: set<S.Status>): (n: nat)
    ensures n <= |statuses|
  {
    if statuses == [] then 0 else
      Count(statuses[..|statuses| - 1], values) + if statuses[|statuses| - 1] in values then 1 else 0
  }

  /** `expectedParentStatus` of the reconcile command. */
  function Expected(statuses: seq<S.Status>): Option<OrderStatus> {
    var all := (values: set<S.Status>) => forall s <- statuses :: s in values;
    var any := (values: set<S.Status>) => exists s <- statuses :: s in values;
    if |statuses| == 0 then None
    else if any({S.Disputed, S.CancellationRequested}) then Some(ActionRequired)
    else if all({S.Completed}) then Some(Completed)
    else if all({S.Cancelled, S.Refunded}) then Some(Cancelled)
    else if any({S.Completed}) && any(ACTIVE) then Some(PartiallyCompleted)
    else if any(ACTIVE - {S.Paid}) then Some(InFulfillment)
    else if all({S.Paid}) then Some(Paid)
    else if all({S.PendingPayment}) then Some(PendingPayment)
    else Some(Paid)
  }

  /** The two definitions agree on every list of seller-order statuses. */
  lemma DefinitionsAgree(statuses: seq<S.Status>)
    ensures Next(statuses) == Expected(statuses)
  {
    assert ACTIVE - {S.Paid} == {S.Preparing, S.ReadyForPickup, S.PickedUp, S.Shipped};
  }

  /** Only which statuses occur matters, not their order or number. */
  lemma OrderIrrelevant(a: seq<S.Status>, b: seq<S.Status>)
    requires forall s :: s in a <==> s in b
    ensures Next(a) == Next(b)
  {
    if a != [] { assert a[0] in b; }
    if b != [] { assert b[0] in a; }
    forall values: set<S.Status> ensures AnyIn(a, values) <==> AnyIn(b, values) {
      if AnyIn(a, values) { var s :| s in a && s in values; assert s in b; }
      if AnyIn(b, values) { var s :| s in b && s in values; assert s in a; }
    }
  }

  lemma {:induction false} CountMeaning(statuses: seq<S.Status>, values: set<S.Status>)
    ensures Count(statuses, values) > 0 <==> AnyIn(statuses, values)
    ensures Count(statuses, values) == |statuses| <==> AllIn(statuses, values)
  {
    if statuses != [] {
      CountMeaning(statuses[..|statuses| - 1], values);
      assert statuses == statuses[..|statuses| - 1] + [statuses[|statuses| - 1]];
    }
  }

  const SUSPENDED := {S.Disputed, S.CancellationRequested}
  const CLOSED := {S.Cancelled, S.Refunded}
  const MOVING := {S.Preparing, S.ReadyForPickup, S.PickedUp, S.Shipped}

  /**
   What each parent status says about the seller orders.  `Paid` is also the fallback: an order whose
   seller orders are partly completed and partly closed, with none left to deliver, reads as paid.
   */
  lemma StatusMeaning(statuses: seq<S.Status>)
    requires statuses != []
    ensures var n := values => Count(statuses, values);
            && (Next(statuses) == Some(ActionRequired) <==> n(SUSPENDED) > 0)
            && (Next(statuses) == Some(Completed) <==> n({S.Completed}) == |statuses|)
            && (Next(statuses) == Some(Cancelled) <==> n(CLOSED) == |statuses|)
            && (Next(statuses) == Some(PendingPayment) <==> n({S.PendingPayment}) == |statuses|)
            && (Next(statuses) == Some(PartiallyCompleted) <==> n(SUSPENDED) == 0 && n({S.Completed}) > 0 && n(ACTIVE) > 0)
            && (Next(statuses) == Some(InFulfillment) <==> n(SUSPENDED) == 0 && n({S.Completed}) == 0 && n(MOVING) > 0)
            && (Next(statuses) == Some(Paid) <==>
                  && n(SUSPENDED) == 0 && n(MOVING) == 0 && (n({S.Completed}) > 0 ==> n(ACTIVE) == 0)
                  && |statuses| !in {n({S.Completed}), n(CLOSED), n({S.PendingPayment})})
  {
    assert statuses[0] in statuses;
    CountMeaning(statuses, SUSPENDED);
    CountMeaning(statuses, {S.Completed});
    CountMeaning(statuses, CLOSED);
    CountMeaning(statuses, {S.PendingPayment});
    CountMeaning(statuses, ACTIVE);
    CountMeaning(statuses, MOVING);
    assert AnyIn(statuses, ACTIVE) <==> AnyIn(statuses, {S.Paid}) || AnyIn(statuses, MOVING);
  }

  /** An order with one completed and one cancelled seller order has nothing left to deliver and reads as paid. */
  lemma CompletedAndCancelledReadsPaid()
    ensures Next([S.Completed, S.Cancelled]) == Some(Paid)
  {
    assert S.Completed in [S.Completed, S.Cancelled] && S.Cancelled in [S.Completed, S.Cancelled];
  }
}
