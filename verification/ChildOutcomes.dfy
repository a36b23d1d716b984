/** What each step of a seller order does to its row and to the seller's money. */
module ChildOutcomes {
  import opened Arithmetic
  import opened Wrappers
  import opened SellerOrders
  import L = Ledger
  import LL = LedgerLaws
  import SL = SellerOrderLaws

  const HOURS_MS := 3_600_000

  // ---------- The seller's money ----------

  function PendingOf(s: Sale, id: L.SellerOrderId): int
    requires s.order.affiliate.Some?
  {
    L.BalanceOf(s.entries, s.order.affiliate.value, L.Pending, id)
  }

  function AvailableOf(s: Sale, id: L.SellerOrderId): int
    requires s.order.affiliate.Some?
  {
    L.BalanceOf(s.entries, s.order.affiliate.value, L.Available, id)
  }

  /** What the order's entries add up to over all buckets. */
  function BalanceOf(s: Sale, id: L.SellerOrderId): int
    requires s.order.affiliate.Some?
  {
    L.Sum(s.entries, L.Where(s.order.affiliate.value, None, Some(id)))
  }

  /** Everything pending for the order becomes available, and no money appears or disappears. */
  ghost predicate EarningsReleased(s: Sale, t: Sale, id: L.SellerOrderId) {
    if s.order.affiliate.None? then t.entries == s.entries else
      && t.order.affiliate == s.order.affiliate && PendingOf(t, id) == 0
      && AvailableOf(t, id) == AvailableOf(s, id) + PendingOf(s, id) && BalanceOf(t, id) == BalanceOf(s, id)
  }

  /** The seller gives back `debit`, whatever buckets it comes from. */
  ghost predicate SellerDebited(s: Sale, t: Sale, id: L.SellerOrderId, debit: int) {
    if s.order.affiliate.None? then t.entries == s.entries else
      t.order.affiliate == s.order.affiliate && BalanceOf(t, id) == BalanceOf(s, id) - debit
  }

  lemma ReleaseOutcome(s: Sale, o: SellerOrder, id: L.SellerOrderId, tag: L.ReleaseTag)
    requires Inv(s.order, id, s.entries) && SL.Owned(s.entries) && o.affiliate == s.order.affiliate
    requires s.order.affiliate.Some? ==> LL.FreshRelease(s.entries, id, tag)
    ensures EarningsReleased(s, ReleaseIfAffiliate(s.(order := o), id, tag), id)
    ensures ReleaseIfAffiliate(s.(order := o), id, tag).order == o
  {
    if o.affiliate.Some? { LL.ReleaseExact(s.entries, id, o.affiliate.value, tag); }
  }

  // ---------- Plain transitions ----------

  /** The steps of fulfilment, by delivery method; an unpaid order can only be cancelled. */
  predicate Edge(from: Status, next: Status, f: Fulfillment) {
    || (from == PendingPayment && next == Cancelled)
    || (from == Paid && next == Preparing)
    || (from == Preparing && next == if f == Fulfillment.Pickup then ReadyForPickup else Shipped)
    || (from == ReadyForPickup && next == PickedUp)
    || (from in {Shipped, PickedUp} && next == Completed)
  }

  /** Sellers deliver, buyers and the system confirm, administrators may do either or cancel what is unpaid. */
  predicate MayMove(o: SellerOrder, next: Status, actor: L.Actor) {
    && Edge(o.status, next, o.fulfillment)
    && match actor
       case Admin => true
       case Affiliate => o.affiliate.Some? && next in {Preparing, ReadyForPickup, Shipped, PickedUp}
       case _ => next == Completed
  }

  /** A transition is accepted exactly along an edge the actor may take; a suspended seller may still deliver. */
  lemma TransitionAcceptedIff(s: Sale, id: L.SellerOrderId, v: nat, next: Status, actor: L.Actor, suspended: bool, now: int, days: int)
    ensures Transition(s, id, v, next, actor, suspended, now, days).Success? <==> s.order.version == v && MayMove(s.order, next, actor)
  {
  }

  /** How a transition is refused: a stale version first, then by who asks for what. */
  lemma TransitionRefusal(s: Sale, id: L.SellerOrderId, v: nat, next: Status, actor: L.Actor, suspended: bool, now: int, days: int)
    ensures var r := Transition(s, id, v, next, actor, suspended, now, days);
            r.Failure? ==>
              r.error == if s.order.version != v then Changed else
                         match actor
                         case Affiliate => if s.order.affiliate.None? then NotAffiliate else InvalidTransition
                         case Buyer => NotConfirmable
                         case Admin => if next in {Cancelled, Refunded} then UseRefundFlow else InvalidTransition
                         case System => InvalidTransition
  {
  }

  /** A transition is offered to an actor exactly when it is accepted from him in the current version. */
  lemma OfferedTransition(s: Sale, id: L.SellerOrderId, next: Status, actor: L.Actor, suspended: bool, now: int, days: int)
    requires ActionFor(next).Some?
    ensures var action := if actor == L.Buyer && next == Completed then ConfirmReceipt else ActionFor(next).value;
            May(s.order, actor, suspended, action) <==> Transition(s, id, s.order.version, next, actor, suspended, now, days).Success?
  {
    TransitionAcceptedIff(s, id, s.order.version, next, actor, suspended, now, days);
  }

  /**
   What the other actions are offered for, and what an offer is worth: a request is offered before payment
   but refused then, and an issue or a request still open stands in the way of another.
   */
  lemma OfferedIff(o: SellerOrder, suspended: bool)
    ensures var open := o.status in {PendingPayment, Paid, Preparing, ReadyForPickup, PickedUp, Shipped};
            && (May(o, L.Affiliate, suspended, Action.RequestCancel) <==>
                  o.affiliate.Some? && open && (suspended ==> o.status in {Paid, Preparing, ReadyForPickup}))
            && (May(o, L.Buyer, suspended, Action.OpenIssue) <==> o.affiliate.Some? && (open || o.status == Disputed))
            && (May(o, L.Admin, suspended, Action.Refund) <==> o.status !in {PendingPayment, Cancelled, Refunded})
    ensures May(o, L.Affiliate, suspended, Action.RequestCancel) ==>
              (RequestCancellation(o, o.affiliate.value, o.version).Success? <==>
                 o.status != PendingPayment && forall r <- o.requests :: r.status != Requested)
    ensures May(o, L.Buyer, suspended, Action.OpenIssue) ==> (CreateIssue(o).Success? <==> forall i <- o.issues :: !i.open)
  {
    match o.status
    case PendingPayment => case Paid => case Preparing => case ReadyForPickup => case PickedUp => case Shipped =>
    case Completed => case CancellationRequested => case Cancelled => case Disputed => case Refunded =>
  }

  /** Delivery starts the clock of automatic completion: at least one day, by the configured number of days. */
  function DeadlineAfter(next: Status, now: int, days: int): Option<int> {
    if next !in {Shipped, PickedUp} then None else Some(now + (if days > 1 then days else 1) * 24 * HOURS_MS)
  }

  ghost predicate TransitionApplied(s: Sale, t: Sale, id: L.SellerOrderId, next: Status, now: int, days: int) {
    && t.order == s.order.(status := next, version := s.order.version + 1, autoCompleteAt := DeadlineAfter(next, now, days))
    && (next == Completed ==> EarningsReleased(s, t, id))
    && (next != Completed ==> t.entries == s.entries)
  }

  /**
   What an accepted transition does: it moves the row, and completing the order pays the seller what is
   pending for it.  Every other transition leaves the ledger alone.
   */
  lemma TransitionOutcome(s: Sale, id: L.SellerOrderId, v: nat, next: Status, actor: L.Actor, suspended: bool, now: int, days: int)
    requires Inv(s.order, id, s.entries) && SL.Owned(s.entries)
    requires Transition(s, id, v, next, actor, suspended, now, days).Success?
    ensures TransitionApplied(s, Transition(s, id, v, next, actor, suspended, now, days).value, id, next, now, days)
  {
    TransitionAcceptedIff(s, id, v, next, actor, suspended, now, days);
    var moved := s.order.(status := next, version := s.order.version + 1, autoCompleteAt := DeadlineAfter(next, now, days));
    if next == Completed {
      SL.FreshReleaseOf(s.order, id, s.entries, L.ByActor(actor, v));
      ReleaseOutcome(s, moved, id, L.ByActor(actor, v));
    }
  }

  // ---------- Opening a detour ----------

  function AskedToCancel(o: SellerOrder): SellerOrder {
    o.(status := CancellationRequested, autoCompleteAt := None, version := o.version + 1,
       requests := o.requests + [CancelRequest(Requested, o.status, o.autoCompleteAt, 1)])
  }

  function Complained(o: SellerOrder): SellerOrder {
    o.(status := Disputed, autoCompleteAt := None, version := o.version + 1, issues := o.issues + [Issue(true, o.status, o.autoCompleteAt)])
  }

  /** A request and an issue remember the status and the deadline they interrupt, and stop the clock. */
  lemma DetourOutcome(o: SellerOrder, affiliate: L.AffiliateId, v: nat)
    ensures RequestCancellation(o, affiliate, v).Success? <==>
              && o.affiliate == Some(affiliate) && o.version == v && o.status !in {PendingPayment, Completed, Cancelled, Refunded}
              && forall r <- o.requests :: r.status != Requested
    ensures RequestCancellation(o, affiliate, v).Success? ==> RequestCancellation(o, affiliate, v).value == AskedToCancel(o)
    ensures CreateIssue(o).Success? <==>
              o.affiliate.Some? && o.status !in {Completed, Cancelled, Refunded} && forall i <- o.issues :: !i.open
    ensures CreateIssue(o).Success? ==> CreateIssue(o).value == Complained(o)
  {
  }

  // ---------- Refunds ----------

  /** The goods part of a refund: as given, or as much of the amount as the goods cost. */
  function Goods(o: SellerOrder, a: RefundArgs): int {
    match a.subtotal
    case Some(goods) => goods
    case None => if a.amount <= o.subtotal then a.amount else o.subtotal
  }

  /** The shipping part: as given, or the rest of the amount. */
  function ShippingPart(o: SellerOrder, a: RefundArgs): int {
    match a.shipping
    case Some(shipping) => shipping
    case None => if a.amount > Goods(o, a) then a.amount - Goods(o, a) else 0
  }

  /** The amounts on record, first to last. */
  function OnRecord(refunds: seq<RefundRecord>): int {
    if refunds == [] then 0 else refunds[0].amount + OnRecord(refunds[1..])
  }

  lemma {:induction false} OnRecordIsSum(refunds: seq<RefundRecord>)
    ensures RefundedAmount(refunds) == OnRecord(refunds)
  {
    if refunds != [] {
      OnRecordIsSum(refunds[1..]);
      RefundedFront(refunds);
    }
  }

  lemma {:induction false} RefundedFront(refunds: seq<RefundRecord>)
    requires refunds != []
    ensures RefundedAmount(refunds) == refunds[0].amount + RefundedAmount(refunds[1..])
  {
    if |refunds| > 1 {
      RefundedFront(refunds[..|refunds| - 1]);
      assert refunds[..|refunds| - 1][1..] == refunds[1..][..|refunds| - 2];
    }
  }

  /** The parts add up, neither exceeds the order's, and with earlier refunds the order's total is not exceeded. */
  ghost predicate Refundable(o: SellerOrder, a: RefundArgs) {
    && a.amount > 0 && Goods(o, a) + ShippingPart(o, a) == a.amount
    && 0 <= Goods(o, a) <= o.subtotal && 0 <= ShippingPart(o, a) <= o.shipping
    && OnRecord(o.refunds) + a.amount <= o.subtotal + o.shipping
  }

  /**
   The record of a refund: its parts, the commission given back (the goods' share, rounded down) and the
   rest as the seller's debit.
   */
  ghost predicate RecordWritten(o: SellerOrder, n: SellerOrder, a: RefundArgs, tag: L.RefundTag) {
    && |n.refunds| == |o.refunds| + 1 && n.refunds[..|o.refunds|] == o.refunds
    && var r := n.refunds[|o.refunds|];
    && r.tag == tag && r.amount == a.amount && r.subtotal == Goods(o, a) && r.shipping == ShippingPart(o, a)
    && r.sellerDebit == a.amount - r.commissionReversed
    && (o.subtotal == 0 ==> r.commissionReversed == 0)
    && (o.subtotal > 0 ==>
          r.commissionReversed * o.subtotal <= Goods(o, a) * o.commission < (r.commissionReversed + 1) * o.subtotal)
  }

  /** Recording a refund under an unspent key writes one record and debits the seller by its debit. */
  lemma RecordOutcome(s: Sale, id: L.SellerOrderId, a: RefundArgs, tag: L.RefundTag)
    requires Inv(s.order, id, s.entries) && SL.Owned(s.entries) && !tag.ParentRefund? && !Spent(s.order, tag)
    ensures RecordRefund(s, id, a, tag).Success? <==> Refundable(s.order, a)
    ensures RecordRefund(s, id, a, tag).Success? ==>
              var t := RecordRefund(s, id, a, tag).value;
              && t.order == s.order.(refunds := t.order.refunds) && RecordWritten(s.order, t.order, a, tag)
              && SellerDebited(s, t, id, t.order.refunds[|s.order.refunds|].sellerDebit)
  {
    var o := s.order;
    assert !HasRefund(o, tag) by { assert forall r <- o.refunds :: Spent(o, r.tag); }
    AcceptedIff(s, id, a, tag);
    if Refundable(o, a) {
      RecordParts(o, a, tag);
      DebitOutcome(s, id, RecordOf(o, a, tag).sellerDebit, tag, o.refunds + [RecordOf(o, a, tag)]);
    }
  }

  /** How a refund is refused: no positive amount, more than the order's total with the earlier ones, or parts that do not fit. */
  lemma RefundRefusal(s: Sale, id: L.SellerOrderId, a: RefundArgs, tag: L.RefundTag)
    requires !HasRefund(s.order, tag)
    ensures var r := RecordRefund(s, id, a, tag);
            r.Failure? ==>
              r.error == if a.amount <= 0 then RefundAmountInvalid
                         else if OnRecord(s.order.refunds) + a.amount > s.order.subtotal + s.order.shipping then RefundExceedsOrder
                         else RefundBreakdownInvalid
  {
    OnRecordIsSum(s.order.refunds);
  }

  /** A refund asked for again under the same key, whatever its amount, writes nothing. */
  lemma RefundOncePerKey(s: Sale, id: L.SellerOrderId, a: RefundArgs, again: RefundArgs, tag: L.RefundTag)
    requires Inv(s.order, id, s.entries) && SL.Owned(s.entries) && !tag.ParentRefund? && !Spent(s.order, tag)
    requires RecordRefund(s, id, a, tag).Success? && again.amount > 0
    ensures var t := RecordRefund(s, id, a, tag).value; RecordRefund(t, id, again, tag) == Success(t)
  {
    RecordOutcome(s, id, a, tag);
    var refunds := RecordRefund(s, id, a, tag).value.order.refunds;
    assert refunds[|s.order.refunds|] in refunds;
  }

  lemma AcceptedIff(s: Sale, id: L.SellerOrderId, a: RefundArgs, tag: L.RefundTag)
    requires !HasRefund(s.order, tag)
    ensures RecordRefund(s, id, a, tag).Success? <==> Refundable(s.order, a)
    ensures Refundable(s.order, a) ==>
              var r := RecordOf(s.order, a, tag);
              RecordRefund(s, id, a, tag) == Success(ReverseIfAffiliate(s.(order := s.order.(refunds := s.order.refunds + [r])), id, r.sellerDebit, tag))
  {
    OnRecordIsSum(s.order.refunds);
  }

  lemma RecordParts(o: SellerOrder, a: RefundArgs, tag: L.RefundTag)
    requires AmountsOk(o) && Refundable(o, a)
    ensures RecordWritten(o, o.(refunds := o.refunds + [RecordOf(o, a, tag)]), a, tag) && RecordOf(o, a, tag).sellerDebit >= 0
  {
    OnRecordIsSum(o.refunds);
    SL.RefundIdentity(o, a, tag);
    CommissionShare(o, Goods(o, a));
  }

  lemma CommissionShare(o: SellerOrder, goods: nat)
    requires AmountsOk(o) && goods <= o.subtotal
    ensures var c := CommissionReversed(o, goods);
            && (o.subtotal == 0 ==> c == 0)
            && (o.subtotal > 0 ==> c * o.subtotal <= goods * o.commission < (c + 1) * o.subtotal)
  {
    if o.subtotal > 0 {
      DivAtLeast(goods * o.commission, o.subtotal, CommissionReversed(o, goods));
      DivAtMost(goods * o.commission, o.subtotal, CommissionReversed(o, goods));
    }
  }

  lemma DebitOutcome(s: Sale, id: L.SellerOrderId, debit: int, tag: L.RefundTag, refunds: seq<RefundRecord>)
    requires Inv(s.order, id, s.entries) && SL.Owned(s.entries) && !Spent(s.order, tag) && debit >= 0
    ensures SellerDebited(s, ReverseIfAffiliate(s.(order := s.order.(refunds := refunds)), id, debit, tag), id, debit)
  {
    if s.order.affiliate.Some? && debit > 0 {
      SL.FreshRefundOf(s.order, id, s.entries, tag);
      LL.ReversalExact(s.entries, id, s.order.affiliate.value, debit, tag);
    }
  }

  ghost predicate RefundApplied(s: Sale, t: Sale, id: L.SellerOrderId, a: RefundArgs) {
    && t.order == s.order.(status := Refunded, autoCompleteAt := None, version := s.order.version + 1, refunds := t.order.refunds)
    && RecordWritten(s.order, t.order, a, L.SellerOrderRefund(s.order.version))
    && SellerDebited(s, t, id, t.order.refunds[|s.order.refunds|].sellerDebit)
  }

  /** An administrator's refund closes the order as refunded and records it under its version. */
  lemma RefundOrderOutcome(s: Sale, id: L.SellerOrderId, v: nat, a: RefundArgs, paymentPending: bool)
    requires Inv(s.order, id, s.entries) && SL.Owned(s.entries)
    ensures RefundOrder(s, id, v, a, paymentPending).Success? <==>
              s.order.version == v && !paymentPending && s.order.status !in {PendingPayment, Cancelled, Refunded} && Refundable(s.order, a)
    ensures RefundOrder(s, id, v, a, paymentPending).Success? ==>
              RefundApplied(s, RefundOrder(s, id, v, a, paymentPending).value, id, a)
  {
    RecordOutcome(s, id, a, L.SellerOrderRefund(s.order.version));
    RefundOrderResult(s, id, a, paymentPending);
  }

  lemma RefundOrderResult(s: Sale, id: L.SellerOrderId, a: RefundArgs, paymentPending: bool)
    ensures var r := RecordRefund(s, id, a, L.SellerOrderRefund(s.order.version));
            var refunded := RefundOrder(s, id, s.order.version, a, paymentPending);
            && (refunded.Success? <==> !paymentPending && s.order.status !in {PendingPayment, Cancelled, Refunded} && r.Success?)
            && (refunded.Success? ==> refunded.value == r.value.(order := CloseAs(r.value.order, Refunded)))
  {
  }

  // ---------- Resolving a detour ----------

  /** The issue is closed and nothing else of the list changes. */
  ghost predicate IssueClosed(o: SellerOrder, n: SellerOrder, k: nat) {
    k < |o.issues| && n.issues == o.issues[k := o.issues[k].(open := false)]
  }

  /** The request carries the decision and nothing else of the list changes. */
  ghost predicate RequestDecided(o: SellerOrder, n: SellerOrder, k: nat, status: RequestStatus) {
    && k < |o.requests| && |n.requests| == |o.requests| && n.requests[k].status == status
    && n.requests == o.requests[k := o.requests[k].(status := status, version := o.requests[k].version + 1)]
  }

  /** Which decisions on an issue the code accepts. */
  ghost predicate IssueResolvable(s: Sale, k: nat, v: nat, decision: Decision, refund: Option<RefundArgs>) {
    && k < |s.order.issues| && s.order.issues[k].open && s.order.version == v
    && (decision in {PartialRefund, FullRefund} ==> refund.Some? && Refundable(s.order, refund.value))
  }

  /** What a decision on an issue comes to. */
  ghost predicate IssueApplied(s: Sale, t: Sale, id: L.SellerOrderId, k: nat, decision: Decision, refund: Option<RefundArgs>)
  {
    var (o, n) := (s.order, t.order);
    && (decision in {PartialRefund, FullRefund} ==> refund.Some?)
    && IssueClosed(o, n, k)
    && n == o.(status := n.status, autoCompleteAt := n.autoCompleteAt, version := o.version + 1, issues := n.issues, refunds := n.refunds)
    && match decision
       case Continue =>
         && n.status == o.issues[k].previousStatus && n.autoCompleteAt == o.issues[k].previousAutoCompleteAt
         && n.refunds == o.refunds && t.entries == s.entries
       case CompleteIt => n.status == Completed && n.autoCompleteAt == None && n.refunds == o.refunds && EarningsReleased(s, t, id)
       case PartialRefund =>
         && n.status == Completed && n.autoCompleteAt == None && RecordWritten(o, n, refund.value, L.IssueRefund(k, false))
         && SellerDebited(s, t, id, n.refunds[|o.refunds|].sellerDebit) && (o.affiliate.Some? ==> PendingOf(t, id) == 0)
       case FullRefund =>
         && n.status == Refunded && n.autoCompleteAt == None && RecordWritten(o, n, refund.value, L.IssueRefund(k, true))
         && SellerDebited(s, t, id, n.refunds[|o.refunds|].sellerDebit)
  }

  lemma PartialRefundOutcome(s: Sale, id: L.SellerOrderId, k: nat, a: RefundArgs)
    requires Inv(s.order, id, s.entries) && SL.Owned(s.entries) && k < |s.order.issues| && s.order.issues[k].open
    ensures RecordRefund(s, id, a, L.IssueRefund(k, false)).Success? <==> Refundable(s.order, a)
    ensures RecordRefund(s, id, a, L.IssueRefund(k, false)).Success? ==>
              var r := RecordRefund(s, id, a, L.IssueRefund(k, false)).value;
              var t := ReleaseIfAffiliate(r.(order := CloseIssue(CloseAs(r.order, Completed), k)), id, L.ByIssue(k));
              && RecordWritten(s.order, t.order, a, L.IssueRefund(k, false))
              && SellerDebited(s, t, id, t.order.refunds[|s.order.refunds|].sellerDebit)
              && (s.order.affiliate.Some? ==> PendingOf(t, id) == 0)
  {
    var tag := L.IssueRefund(k, false);
    RecordOutcome(s, id, a, tag);
    if Refundable(s.order, a) {
      ReadyToRelease(s, id, k, a);
      RefundThenRelease(s, RecordRefund(s, id, a, tag).value, id, k, a);
    }
  }

  lemma RefundThenRelease(s: Sale, r: Sale, id: L.SellerOrderId, k: nat, a: RefundArgs)
    requires k < |s.order.issues| && r.order == s.order.(refunds := r.order.refunds) && RecordWritten(s.order, r.order, a, L.IssueRefund(k, false))
    requires SellerDebited(s, r, id, r.order.refunds[|s.order.refunds|].sellerDebit)
    requires Inv(CloseIssue(CloseAs(r.order, Completed), k), id, r.entries) && SL.Owned(r.entries)
    requires s.order.affiliate.Some? ==> LL.FreshRelease(r.entries, id, L.ByIssue(k))
    ensures var t := ReleaseIfAffiliate(r.(order := CloseIssue(CloseAs(r.order, Completed), k)), id, L.ByIssue(k));
            && RecordWritten(s.order, t.order, a, L.IssueRefund(k, false))
            && SellerDebited(s, t, id, t.order.refunds[|s.order.refunds|].sellerDebit)
            && (s.order.affiliate.Some? ==> PendingOf(t, id) == 0)
  {
    var n := CloseIssue(CloseAs(r.order, Completed), k);
    ReleaseOutcome(Sale(n, r.entries), n, id, L.ByIssue(k));
  }

  lemma ReadyToRelease(s: Sale, id: L.SellerOrderId, k: nat, a: RefundArgs)
    requires Inv(s.order, id, s.entries) && SL.Owned(s.entries) && k < |s.order.issues| && s.order.issues[k].open
    requires RecordRefund(s, id, a, L.IssueRefund(k, false)).Success?
    ensures var r := RecordRefund(s, id, a, L.IssueRefund(k, false)).value;
            && Inv(CloseIssue(CloseAs(r.order, Completed), k), id, r.entries) && SL.Owned(r.entries)
            && (s.order.affiliate.Some? ==> LL.FreshRelease(r.entries, id, L.ByIssue(k)))
  {
    var r := RecordRefund(s, id, a, L.IssueRefund(k, false)).value;
    SL.RefundKeepsInv(s, CloseIssue(CloseAs(r.order, Completed), k), id, a, L.IssueRefund(k, false));
    SL.AppendsOwned(s.entries, r.entries, id);
    SL.FreshAfterRefund(s, r, id, k, a);
  }

  lemma IssueCompleted(s: Sale, id: L.SellerOrderId, k: nat)
    requires Inv(s.order, id, s.entries) && SL.Owned(s.entries) && k < |s.order.issues| && s.order.issues[k].open
    ensures var r := ResolveIssue(s, id, k, s.order.version, CompleteIt, None); r.Success? && IssueApplied(s, r.value, id, k, CompleteIt, None)
  {
    SL.FreshReleaseOf(s.order, id, s.entries, L.ByIssue(k));
    ReleaseOutcome(s, CloseIssue(CloseAs(s.order, Completed), k), id, L.ByIssue(k));
  }

  lemma IssueRefundedInFull(s: Sale, id: L.SellerOrderId, k: nat, a: RefundArgs)
    requires Inv(s.order, id, s.entries) && SL.Owned(s.entries) && k < |s.order.issues| && s.order.issues[k].open
    ensures var r := ResolveIssue(s, id, k, s.order.version, FullRefund, Some(a));
            && (r.Success? <==> Refundable(s.order, a))
            && (r.Success? ==> IssueApplied(s, r.value, id, k, FullRefund, Some(a)))
  {
    FullRefundResult(s, id, k, a);
    if Refundable(s.order, a) { FullRefundApplied(s, id, k, a); }
  }

  lemma FullRefundResult(s: Sale, id: L.SellerOrderId, k: nat, a: RefundArgs)
    requires Inv(s.order, id, s.entries) && SL.Owned(s.entries) && k < |s.order.issues| && s.order.issues[k].open
    ensures var r := RecordRefund(s, id, a, L.IssueRefund(k, true));
            && (r.Success? <==> Refundable(s.order, a))
            && ResolveIssue(s, id, k, s.order.version, FullRefund, Some(a)) ==
                 if r.Success? then Success(r.value.(order := CloseIssue(CloseAs(r.value.order, Refunded), k))) else Failure(r.error)
  {
    RecordOutcome(s, id, a, L.IssueRefund(k, true));
  }

  lemma FullRefundApplied(s: Sale, id: L.SellerOrderId, k: nat, a: RefundArgs)
    requires Inv(s.order, id, s.entries) && SL.Owned(s.entries) && k < |s.order.issues| && s.order.issues[k].open && Refundable(s.order, a)
    ensures var r := RecordRefund(s, id, a, L.IssueRefund(k, true));
            && r.Success? && k < |r.value.order.issues|
            && IssueApplied(s, r.value.(order := CloseIssue(CloseAs(r.value.order, Refunded), k)), id, k, FullRefund, Some(a))
  {
    RecordOutcome(s, id, a, L.IssueRefund(k, true));
    RefundCloses(s, RecordRefund(s, id, a, L.IssueRefund(k, true)).value, id, a, L.IssueRefund(k, true));
  }

  /** A recorded refund, and the order then closed as refunded through its issue or its request. */
  lemma RefundCloses(s: Sale, t: Sale, id: L.SellerOrderId, a: RefundArgs, tag: L.RefundTag)
    requires t.order == s.order.(refunds := t.order.refunds) && RecordWritten(s.order, t.order, a, tag)
    requires SellerDebited(s, t, id, t.order.refunds[|s.order.refunds|].sellerDebit)
    ensures tag.IssueRefund? && tag.full && tag.issue < |s.order.issues| ==>
              IssueApplied(s, t.(order := CloseIssue(CloseAs(t.order, Refunded), tag.issue)), id, tag.issue, FullRefund, Some(a))
    ensures tag.CancellationRefund? && tag.request < |s.order.requests| ==>
              CancellationApplied(s, t.(order := CloseRequest(CloseAs(t.order, Refunded), tag.request, Approved)), id, tag.request, true, Some(a))
  {
  }

  lemma IssueRefundedInPart(s: Sale, id: L.SellerOrderId, k: nat, a: RefundArgs)
    requires Inv(s.order, id, s.entries) && SL.Owned(s.entries) && k < |s.order.issues| && s.order.issues[k].open
    ensures var r := ResolveIssue(s, id, k, s.order.version, PartialRefund, Some(a));
            && (r.Success? <==> Refundable(s.order, a))
            && (r.Success? ==> IssueApplied(s, r.value, id, k, PartialRefund, Some(a)))
  {
    PartialRefundOutcome(s, id, k, a);
    if Refundable(s.order, a) { RecordRow(s, id, a, L.IssueRefund(k, false)); }
  }

  lemma RecordRow(s: Sale, id: L.SellerOrderId, a: RefundArgs, tag: L.RefundTag)
    requires RecordRefund(s, id, a, tag).Success?
    ensures var o := RecordRefund(s, id, a, tag).value.order; o == s.order.(refunds := o.refunds)
  {
  }

  lemma RefundIgnored(s: Sale, id: L.SellerOrderId, k: nat, v: nat, decision: Decision, refund: Option<RefundArgs>)
    requires decision in {Continue, CompleteIt}
    ensures ResolveIssue(s, id, k, v, decision, refund) == ResolveIssue(s, id, k, v, decision, None)
  {
  }

  /**
   A decision on an issue.  Continuing restores the interrupted status and deadline; completing and a partial
   refund complete the order and leave nothing pending for it; refunds are recorded and debited first, and a
   full one closes the order as refunded.
   */
  lemma IssueOutcome(s: Sale, id: L.SellerOrderId, k: nat, v: nat, decision: Decision, refund: Option<RefundArgs>)
    requires Inv(s.order, id, s.entries) && SL.Owned(s.entries)
    ensures ResolveIssue(s, id, k, v, decision, refund).Success? <==> IssueResolvable(s, k, v, decision, refund)
    ensures ResolveIssue(s, id, k, v, decision, refund).Success? ==>
              IssueApplied(s, ResolveIssue(s, id, k, v, decision, refund).value, id, k, decision, refund)
  {
    if k < |s.order.issues| && s.order.issues[k].open && s.order.version == v {
      match decision
      case Continue =>
      case CompleteIt =>
        RefundIgnored(s, id, k, v, decision, refund);
        IssueCompleted(s, id, k);
      case PartialRefund => if refund.Some? { IssueRefundedInPart(s, id, k, refund.value); }
      case FullRefund => if refund.Some? { IssueRefundedInFull(s, id, k, refund.value); }
    }
  }

  ghost predicate CancellationApplied(s: Sale, t: Sale, id: L.SellerOrderId, k: nat, approve: bool, refund: Option<RefundArgs>) {
    var (o, n) := (s.order, t.order);
    && RequestDecided(o, n, k, if approve then Approved else Rejected)
    && n == o.(status := n.status, autoCompleteAt := n.autoCompleteAt, version := o.version + 1, requests := n.requests, refunds := n.refunds)
    && if !approve then
         && n.status == o.requests[k].previousStatus && n.autoCompleteAt == o.requests[k].previousAutoCompleteAt
         && n.refunds == o.refunds && t.entries == s.entries
       else if refund.None? then
         n.status == Cancelled && n.autoCompleteAt == None && n.refunds == o.refunds && t.entries == s.entries
       else
         && n.status == Refunded && n.autoCompleteAt == None && RecordWritten(o, n, refund.value, L.CancellationRefund(k))
         && SellerDebited(s, t, id, n.refunds[|o.refunds|].sellerDebit)
  }

  /** Rejecting a request restores what it interrupted; approving it cancels the order, or refunds it if a refund is given. */
  lemma CancellationOutcome(s: Sale, id: L.SellerOrderId, k: nat, v: nat, approve: bool, refund: Option<RefundArgs>, accredited: bool)
    requires Inv(s.order, id, s.entries) && SL.Owned(s.entries)
    ensures ResolveCancellation(s, id, k, v, approve, refund, accredited).Success? <==>
              && k < |s.order.requests| && s.order.requests[k].status == Requested && s.order.requests[k].version == v
              && (approve ==> if refund.Some? then Refundable(s.order, refund.value) else !accredited)
    ensures ResolveCancellation(s, id, k, v, approve, refund, accredited).Success? ==>
              CancellationApplied(s, ResolveCancellation(s, id, k, v, approve, refund, accredited).value, id, k, approve, refund)
  {
    if k < |s.order.requests| && s.order.requests[k].status == Requested && approve && refund.Some? {
      CancellationRefunded(s, id, k, v, refund.value, accredited);
    }
  }

  lemma CancellationRefunded(s: Sale, id: L.SellerOrderId, k: nat, v: nat, a: RefundArgs, accredited: bool)
    requires Inv(s.order, id, s.entries) && SL.Owned(s.entries) && k < |s.order.requests| && s.order.requests[k].status == Requested
    ensures var r := ResolveCancellation(s, id, k, v, true, Some(a), accredited);
            && (r.Success? <==> s.order.requests[k].version == v && Refundable(s.order, a))
            && (r.Success? ==> CancellationApplied(s, r.value, id, k, true, Some(a)))
  {
    RecordOutcome(s, id, a, L.CancellationRefund(k));
    if Refundable(s.order, a) {
      RefundCloses(s, RecordRefund(s, id, a, L.CancellationRefund(k)).value, id, a, L.CancellationRefund(k));
    }
  }
}
