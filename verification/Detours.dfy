/**
 Detours of a seller order: an issue or a cancellation request takes the order off its path, and
 continuing the issue or rejecting the request puts it back where it was.
 */
module Detours {
  import opened Wrappers
  import opened SellerOrders
  import L = Ledger

  // ---------- Nested detours restore the order ----------

  /** A detour with the detours taken and finished while it is open. */
  datatype Detour = Detour(byIssue: bool, inner: seq<Detour>)

  function Leave(s: Sale, byIssue: bool): Result<Sale, Error> {
    var r := if byIssue then CreateIssue(s.order)
             else if s.order.affiliate.None? then Failure(NotFound)
             else RequestCancellation(s.order, s.order.affiliate.value, s.order.version);
    match r
    case Failure(e) => Failure(e)
    case Success(o) => Success(s.(order := o))
  }

  function Return(s: Sale, id: L.SellerOrderId, byIssue: bool, k: nat): Result<Sale, Error> {
    if byIssue then ResolveIssue(s, id, k, s.order.version, Continue, None)
    else if k >= |s.order.requests| then Failure(NotFound)
    else ResolveCancellation(s, id, k, s.order.requests[k].version, false, None, true)
  }

  function Take(s: Sale, id: L.SellerOrderId, ds: seq<Detour>): Result<Sale, Error>
    decreases ds
  {
    if ds == [] then Success(s) else
    match Leave(s, ds[0].byIssue)
    case Failure(e) => Failure(e)
    case Success(left) =>
      match Take(left, id, ds[0].inner)
      case Failure(e) => Failure(e)
      case Success(inside) =>
        match Return(inside, id, ds[0].byIssue, if ds[0].byIssue then |s.order.issues| else |s.order.requests|)
        case Failure(e) => Failure(e)
        case Success(back) => Take(back, id, ds[1..])
  }

  function Count(ds: seq<Detour>): nat {
    if ds == [] then 0 else 1 + Count(ds[0].inner) + Count(ds[1..])
  }

  ghost predicate Restored(o: SellerOrder, n: SellerOrder, steps: nat) {
    && n == o.(version := n.version, issues := n.issues, requests := n.requests)
    && n.version == o.version + 2 * steps
    && |n.issues| >= |o.issues| && n.issues[..|o.issues|] == o.issues
    && |n.requests| >= |o.requests| && n.requests[..|o.requests|] == o.requests
  }

  lemma OneDetour(s: Sale, left: Sale, inside: Sale, id: L.SellerOrderId, byIssue: bool, steps: nat)
    requires Leave(s, byIssue) == Success(left) && inside.entries == s.entries
    requires Restored(left.order, inside.order, steps)
    requires Return(inside, id, byIssue, if byIssue then |s.order.issues| else |s.order.requests|).Success?
    ensures var back := Return(inside, id, byIssue, if byIssue then |s.order.issues| else |s.order.requests|).value;
            back.entries == s.entries && Restored(s.order, back.order, steps + 1)
  {
    if byIssue {
      assert inside.order.issues[..|left.order.issues|][|s.order.issues|] == left.order.issues[|s.order.issues|];
    } else {
      assert inside.order.requests[..|left.order.requests|][|s.order.requests|] == left.order.requests[|s.order.requests|];
    }
  }

  lemma RestoredTrans(o: SellerOrder, m: SellerOrder, n: SellerOrder, j: nat, k: nat)
    requires Restored(o, m, j) && Restored(m, n, k)
    ensures Restored(o, n, j + k)
  {
  }

  /**
   Any nesting of detours that are finished in the reverse order of opening restores status, deadline
   and every other column exactly; only the version grows, by two a detour, and no money moves.
   */
  lemma {:induction false} DetoursRestore(s: Sale, id: L.SellerOrderId, ds: seq<Detour>)
    requires Take(s, id, ds).Success?
    ensures var t := Take(s, id, ds).value;
            t.entries == s.entries && Restored(s.order, t.order, Count(ds))
    ensures var t := Take(s, id, ds).value;
            t.order.status == s.order.status && t.order.autoCompleteAt == s.order.autoCompleteAt
    decreases ds
  {
    if ds != [] {
      var left := Leave(s, ds[0].byIssue).value;
      DetoursRestore(left, id, ds[0].inner);
      var inside := Take(left, id, ds[0].inner).value;
      OneDetour(s, left, inside, id, ds[0].byIssue, Count(ds[0].inner));
      var back := Return(inside, id, ds[0].byIssue, if ds[0].byIssue then |s.order.issues| else |s.order.requests|).value;
      DetoursRestore(back, id, ds[1..]);
      RestoredTrans(s.order, back.order, Take(back, id, ds[1..]).value.order, Count(ds[0].inner) + 1, Count(ds[1..]));
    }
  }

  // ---------- What every accepted step keeps ----------

  predicate OnDetour(s: Status) { s in {Disputed, CancellationRequested} }

  predicate Resumable(s: Status) { !Closed(s) && s != PendingPayment }

  ghost predicate OneOpen(o: SellerOrder) {
    && (forall j, k | 0 <= j < k < |o.issues| :: !(o.issues[j].open && o.issues[k].open))
    && (forall j, k | 0 <= j < k < |o.requests| :: !(o.requests[j].status == Requested && o.requests[k].status == Requested))
  }

  /** A detour leads back into fulfilment, at most one of each kind is open, and a refund with the parent is neither undone nor completed. */
  ghost predicate Sound(o: SellerOrder) {
    && OneOpen(o)
    && (forall i <- o.issues :: Resumable(i.previousStatus))
    && (forall r <- o.requests :: Resumable(r.previousStatus))
    && (o.parentRefunded ==> o.status in {Cancelled, Refunded})
  }

  lemma IssueKeepsSound(o: SellerOrder)
    requires Sound(o) && CreateIssue(o).Success? && o.status != PendingPayment
    ensures Sound(CreateIssue(o).value)
  {
  }

  lemma RequestKeepsSound(o: SellerOrder, affiliate: L.AffiliateId, v: nat)
    requires Sound(o) && RequestCancellation(o, affiliate, v).Success?
    ensures Sound(RequestCancellation(o, affiliate, v).value)
  {
  }

  lemma TransitionKeepsSound(s: Sale, id: L.SellerOrderId, v: nat, next: Status, actor: L.Actor, suspended: bool, now: int, days: int)
    requires Sound(s.order) && Transition(s, id, v, next, actor, suspended, now, days).Success?
    ensures Sound(Transition(s, id, v, next, actor, suspended, now, days).value.order)
  {
  }

  lemma RefundKeepsSound(s: Sale, id: L.SellerOrderId, v: nat, a: RefundArgs, paymentPending: bool)
    requires Sound(s.order) && RefundOrder(s, id, v, a, paymentPending).Success?
    ensures Sound(RefundOrder(s, id, v, a, paymentPending).value.order)
  {
  }

  /** An issue resolved in whatever status the order is in: only a refund with the parent may be undone by it. */
  lemma ResolveIssueKeepsSoundIff(s: Sale, id: L.SellerOrderId, k: nat, v: nat, decision: Decision, refund: Option<RefundArgs>)
    requires Sound(s.order) && ResolveIssue(s, id, k, v, decision, refund).Success?
    ensures var n := ResolveIssue(s, id, k, v, decision, refund).value.order;
            && (Sound(n) <==> (s.order.parentRefunded ==> decision == FullRefund))
            && n.status != PendingPayment
  {
    var n := ResolveIssue(s, id, k, v, decision, refund).value.order;
    assert s.order.issues[k] in s.order.issues;
    IssueClosed(s.order, n, k);
  }

  lemma IssueClosed(o: SellerOrder, n: SellerOrder, k: nat)
    requires Sound(o) && k < |o.issues| && n.issues == o.issues[k := o.issues[k].(open := false)] && n.requests == o.requests
    ensures OneOpen(n) && (forall i <- n.issues :: Resumable(i.previousStatus))
  {
  }

  /** Likewise for a request: approving it, with or without a refund, leaves the order closed. */
  lemma ResolveCancellationKeepsSoundIff(s: Sale, id: L.SellerOrderId, k: nat, v: nat, approve: bool, refund: Option<RefundArgs>, accredited: bool)
    requires Sound(s.order) && ResolveCancellation(s, id, k, v, approve, refund, accredited).Success?
    ensures var n := ResolveCancellation(s, id, k, v, approve, refund, accredited).value.order;
            && (Sound(n) <==> (s.order.parentRefunded ==> approve))
            && n.status != PendingPayment
  {
    var n := ResolveCancellation(s, id, k, v, approve, refund, accredited).value.order;
    assert s.order.requests[k] in s.order.requests;
    RequestClosed(s.order, n, k, if approve then Approved else Rejected);
  }

  lemma RequestClosed(o: SellerOrder, n: SellerOrder, k: nat, status: RequestStatus)
    requires Sound(o) && k < |o.requests| && status != Requested && n.issues == o.issues
    requires n.requests == o.requests[k := o.requests[k].(status := status, version := o.requests[k].version + 1)]
    ensures OneOpen(n) && (forall r <- n.requests :: Resumable(r.previousStatus))
  {
  }

  lemma ParentKeepsSound(s: Sale, id: L.SellerOrderId)
    requires Sound(s.order)
    ensures Sound(Accredit(s, id).order) && Sound(CloseUnpaid(s.order)) && Sound(RefundWithParent(s, id).order)
  {
  }

  // ---------- Orders that only resolve the detour they are on ----------

  ghost predicate OpenIssueOk(o: SellerOrder, i: Issue) {
    i.previousStatus == CancellationRequested <==> HasOpenRequest(o) && o.status == Disputed
  }

  ghost predicate OpenRequestOk(o: SellerOrder, r: CancelRequest) {
    r.previousStatus == Disputed <==> HasOpenIssue(o) && o.status == CancellationRequested
  }

  /** The status is exactly the detour opened last, if any is open. */
  ghost predicate Coherent(o: SellerOrder) {
    && (o.status == Disputed ==> HasOpenIssue(o))
    && (o.status == CancellationRequested ==> HasOpenRequest(o))
    && (HasOpenIssue(o) || HasOpenRequest(o) ==> OnDetour(o.status))
    && (forall i <- o.issues :: i.open ==> OpenIssueOk(o, i))
    && (forall r <- o.requests :: r.status == Requested ==> OpenRequestOk(o, r))
  }

  ghost predicate Orderly(o: SellerOrder) {
    && Sound(o)
    && (forall i <- o.issues :: i.previousStatus != Disputed)
    && (forall r <- o.requests :: r.previousStatus != CancellationRequested)
    && (!Closed(o.status) ==> Coherent(o))
  }

  /** Continuing issue `k` leads to a status that fits what is still open. */
  predicate ContinueFits(o: SellerOrder, k: nat)
    requires k < |o.issues|
  {
    && !o.parentRefunded
    && if o.issues[k].previousStatus == CancellationRequested
       then exists r <- o.requests :: r.status == Requested && r.previousStatus != Disputed
       else !HasOpenRequest(o)
  }

  /** Rejecting request `k` leads to a status that fits what is still open. */
  predicate RejectFits(o: SellerOrder, k: nat)
    requires k < |o.requests|
  {
    && !o.parentRefunded
    && if o.requests[k].previousStatus == Disputed
       then exists i <- o.issues :: i.open && i.previousStatus != CancellationRequested
       else !HasOpenIssue(o)
  }

  lemma IssueKeepsOrderly(o: SellerOrder)
    requires Orderly(o) && CreateIssue(o).Success? && o.status != PendingPayment
    ensures Orderly(CreateIssue(o).value)
  {
    var n := CreateIssue(o).value;
    var i := Issue(true, o.status, o.autoCompleteAt);
    assert i in n.issues;
    assert HasOpenRequest(n) <==> HasOpenRequest(o);
  }

  lemma RequestKeepsOrderly(o: SellerOrder, affiliate: L.AffiliateId, v: nat)
    requires Orderly(o) && RequestCancellation(o, affiliate, v).Success?
    ensures Orderly(RequestCancellation(o, affiliate, v).value)
  {
  }

  function Continued(o: SellerOrder, k: nat): SellerOrder
    requires k < |o.issues|
  {
    CloseIssue(o.(status := o.issues[k].previousStatus, autoCompleteAt := o.issues[k].previousAutoCompleteAt, version := o.version + 1), k)
  }

  function RequestRejected(o: SellerOrder, k: nat): SellerOrder
    requires k < |o.requests|
  {
    CloseRequest(o.(status := o.requests[k].previousStatus, autoCompleteAt := o.requests[k].previousAutoCompleteAt, version := o.version + 1), k, Rejected)
  }

  lemma NoIssueLeft(o: SellerOrder, k: nat)
    requires OneOpen(o) && k < |o.issues| && o.issues[k].open
    ensures !HasOpenIssue(Continued(o, k)) && (HasOpenRequest(Continued(o, k)) <==> HasOpenRequest(o))
  {
  }

  lemma NoRequestLeft(o: SellerOrder, k: nat)
    requires OneOpen(o) && k < |o.requests| && o.requests[k].status == Requested
    ensures !HasOpenRequest(RequestRejected(o, k)) && (HasOpenIssue(RequestRejected(o, k)) <==> HasOpenIssue(o))
  {
  }

  /**
   The code checks no status: continuing an open issue, on an open or closed order, leaves it orderly
   exactly when the status it returns to fits the cancellation request that is still open, if any.
   */
  lemma ContinueKeepsOrderlyIff(o: SellerOrder, k: nat)
    requires Orderly(o) && k < |o.issues| && o.issues[k].open
    ensures Orderly(Continued(o, k)) <==> ContinueFits(o, k)
  {
    var n := Continued(o, k);
    assert o.issues[k] in o.issues;
    NoIssueLeft(o, k);
    IssueClosed(o, n, k);
    assert forall i <- n.issues :: !i.open;
    assert Coherent(n) <==> (if n.status == CancellationRequested
                             then exists r <- o.requests :: r.status == Requested && r.previousStatus != Disputed
                             else !HasOpenRequest(o));
  }

  /** Likewise for rejecting an open cancellation request. */
  lemma RejectKeepsOrderlyIff(o: SellerOrder, k: nat)
    requires Orderly(o) && k < |o.requests| && o.requests[k].status == Requested
    ensures Orderly(RequestRejected(o, k)) <==> RejectFits(o, k)
  {
    var n := RequestRejected(o, k);
    assert o.requests[k] in o.requests;
    NoRequestLeft(o, k);
    RequestClosed(o, n, k, Rejected);
    assert forall r <- n.requests :: r.status != Requested;
    assert Coherent(n) <==> (if n.status == Disputed
                             then exists i <- o.issues :: i.open && i.previousStatus != CancellationRequested
                             else !HasOpenIssue(o));
  }

  /** While the order is not closed, the detour that may be left is the one its status names. */
  lemma StatusNamesTheDetour(o: SellerOrder, k: nat)
    requires Orderly(o) && !Closed(o.status)
    ensures k < |o.issues| && o.issues[k].open ==> (ContinueFits(o, k) <==> o.status == Disputed)
    ensures k < |o.requests| && o.requests[k].status == Requested ==> (RejectFits(o, k) <==> o.status == CancellationRequested)
  {
    if k < |o.issues| && o.issues[k].open { assert o.issues[k] in o.issues && OpenIssueOk(o, o.issues[k]); }
    if k < |o.requests| && o.requests[k].status == Requested { assert o.requests[k] in o.requests && OpenRequestOk(o, o.requests[k]); }
  }

  lemma OnlyFieldsMoved(o: SellerOrder, n: SellerOrder)
    requires Orderly(o) && !OnDetour(o.status) && !Closed(o.status) && !OnDetour(n.status)
    requires n.issues == o.issues && n.requests == o.requests && (n.parentRefunded <==> o.parentRefunded)
    ensures Orderly(n)
  {
  }

  lemma TransitionKeepsOrderly(s: Sale, id: L.SellerOrderId, v: nat, next: Status, actor: L.Actor, suspended: bool, now: int, days: int)
    requires Orderly(s.order) && Transition(s, id, v, next, actor, suspended, now, days).Success?
    ensures Orderly(Transition(s, id, v, next, actor, suspended, now, days).value.order)
  {
    OnlyFieldsMoved(s.order, Transition(s, id, v, next, actor, suspended, now, days).value.order);
  }

  lemma RefundKeepsOrderly(s: Sale, id: L.SellerOrderId, v: nat, a: RefundArgs, paymentPending: bool)
    requires Orderly(s.order) && RefundOrder(s, id, v, a, paymentPending).Success?
    ensures Orderly(RefundOrder(s, id, v, a, paymentPending).value.order)
  {
  }

  /** Every decision on an open issue, on an order in any status: the exact condition for the order to stay orderly. */
  lemma ResolveIssueKeepsOrderlyIff(s: Sale, id: L.SellerOrderId, k: nat, v: nat, decision: Decision, refund: Option<RefundArgs>)
    requires Orderly(s.order) && ResolveIssue(s, id, k, v, decision, refund).Success?
    ensures Orderly(ResolveIssue(s, id, k, v, decision, refund).value.order) <==>
              match decision
              case Continue => ContinueFits(s.order, k)
              case FullRefund => true
              case _ => !s.order.parentRefunded
  {
    if decision == Continue {
      ContinueKeepsOrderlyIff(s.order, k);
    } else {
      ResolveIssueKeepsSoundIff(s, id, k, v, decision, refund);
    }
  }

  /** Every decision on an open cancellation request, likewise. */
  lemma ResolveCancellationKeepsOrderlyIff(s: Sale, id: L.SellerOrderId, k: nat, v: nat, approve: bool, refund: Option<RefundArgs>, accredited: bool)
    requires Orderly(s.order) && ResolveCancellation(s, id, k, v, approve, refund, accredited).Success?
    ensures Orderly(ResolveCancellation(s, id, k, v, approve, refund, accredited).value.order) <==>
              approve || RejectFits(s.order, k)
  {
    if !approve {
      RejectKeepsOrderlyIff(s.order, k);
    } else {
      ResolveCancellationKeepsSoundIff(s, id, k, v, approve, refund, accredited);
    }
  }

  lemma ParentKeepsOrderly(s: Sale, id: L.SellerOrderId)
    requires Orderly(s.order)
    ensures Orderly(Accredit(s, id).order) && Orderly(CloseUnpaid(s.order)) && Orderly(RefundWithParent(s, id).order)
  {
    if s.order.status == PendingPayment { OnlyFieldsMoved(s.order, Accredit(s, id).order); }
  }

  // ---------- What the missing status check allows ----------

  function PaidSale(entries: seq<L.Entry>): Sale {
    Sale(SellerOrder(Some(0), Paid, 1, 100, 0, 10, 90, Pickup, None, [], [], [], false), entries)
  }

  /**
   The code resolves an issue or a request without checking that the order is still on it.  Resolving
   the outer detour first leaves the order suspended with no open request, where it can only be refunded.
   */
  lemma OutOfOrderResolutionStrands(id: L.SellerOrderId)
    ensures var s := PaidSale([]);
            var a := Leave(s, false);
            && a.Success? && Leave(a.value, true).Success?
            && var b := Return(Leave(a.value, true).value, id, false, 0);
            && b.Success? && b.value.order.status == Paid
            && var c := Return(b.value, id, true, 0);
            && c.Success? && c.value.order.status == CancellationRequested
            && !HasOpenRequest(c.value.order) && !HasOpenIssue(c.value.order) && !Orderly(c.value.order)
  {
    var s := PaidSale([]);
    var a := Leave(s, false).value;
    var i := Leave(a, true).value;
    var b := Return(i, id, false, 0).value;
    var c := Return(b, id, true, 0).value;
    assert i.order.issues == [Issue(true, CancellationRequested, None)];
    assert i.order.requests == [CancelRequest(Requested, Paid, None, 1)];
    assert c.order.requests == [CancelRequest(Rejected, Paid, None, 2)];
    assert c.order.issues == [Issue(false, CancellationRequested, None)];
  }

  /** An order refunded with its parent while disputed is reopened by continuing its issue. */
  lemma ContinueReopensRefunded(s: Sale, id: L.SellerOrderId)
    requires Leave(s, true).Success?
    ensures var a := Leave(s, true).value;
            var b := RefundWithParent(a, id);
            var c := Return(b, id, true, |s.order.issues|);
            && b.order.status == Refunded
            && c.Success? && c.value.order.status == s.order.status && c.value.order.parentRefunded
            && (s.order.status != Refunded ==> !Sound(c.value.order))
  {
  }
}
