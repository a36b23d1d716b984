/** Laws of seller orders: exact ledger identities, fresh dedupe keys, refund arithmetic and status rules. */
module SellerOrderLaws {
  import opened Arithmetic
  import opened Wrappers
  import opened SellerOrders
  import L = Ledger
  import LL = LedgerLaws

  // ---------- Refund arithmetic ----------

  lemma FloorOfShare(part: nat, commission: nat, whole: nat)
    requires part <= whole && commission <= whole && whole > 0
    ensures 0 <= part * commission / whole <= part
    ensures part == whole ==> part * commission / whole == commission
  {
    MulMonotone(commission, whole, part);
    MulMonotone(0, part, commission);
    DivAtMost(part * commission, whole, part);
    DivAtLeast(part * commission, whole, 0);
    assert (part + 1) * whole == part * whole + whole;
    if part == whole {
      DivAtLeast(part * commission, whole, commission);
      DivAtMost(part * commission, whole, commission);
      assert (commission + 1) * whole == commission * whole + whole;
    }
  }

  /** The commission kept for the unrefunded part never exceeds that part. */
  lemma FloorMonotone(part: nat, commission: nat, whole: nat)
    requires part <= whole && commission <= whole && whole > 0
    ensures commission - part * commission / whole <= whole - part
  {
    var k := commission - (whole - part);
    MulMonotone(commission, whole, whole - part);
    assert k * whole == commission * whole - whole * (whole - part);
    assert part * commission == commission * whole - commission * (whole - part);
    DivAtLeast(part * commission, whole, k);
  }

  /** Every accepted refund splits into the commission given back and the seller's debit. */
  lemma RefundIdentity(o: SellerOrder, a: RefundArgs, tag: L.RefundTag)
    requires AmountsOk(o) && a.amount > 0 && RefundError(o, a) == None
    ensures var r := RecordOf(o, a, tag);
            && r.amount == r.commissionReversed + r.sellerDebit == r.subtotal + r.shipping
            && 0 <= r.commissionReversed <= r.subtotal <= o.subtotal && 0 <= r.shipping <= o.shipping
            && 0 <= r.sellerDebit <= o.net
            && (r.amount == o.subtotal + o.shipping ==> r.commissionReversed == o.commission && r.sellerDebit == o.net)
  {
    var r := RecordOf(o, a, tag);
    if o.subtotal > 0 {
      FloorOfShare(r.subtotal, o.commission, o.subtotal);
      FloorMonotone(r.subtotal, o.commission, o.subtotal);
    }
  }

  function GoodsRefunded(refunds: seq<RefundRecord>): int {
    if refunds == [] then 0 else GoodsRefunded(refunds[..|refunds| - 1]) + refunds[|refunds| - 1].subtotal
  }

  function ShippingRefunded(refunds: seq<RefundRecord>): int {
    if refunds == [] then 0 else ShippingRefunded(refunds[..|refunds| - 1]) + refunds[|refunds| - 1].shipping
  }

  lemma RoundingStep(q: int, goods: nat, n: nat, last: nat, commission: nat, whole: nat)
    requires whole > 0 && q * whole <= goods * commission <= q * whole + n * (whole - 1)
    ensures var q' := q + last * commission / whole;
            q' * whole <= (goods + last) * commission <= q' * whole + (n + 1) * (whole - 1)
  {
  }

  /**
   The debits of any refunds on record: the commission given back is at most the refunded goods' share
   and short of it by less than one cent a refund.
   */
  lemma {:induction false} DebitsRoundUp(o: SellerOrder, refunds: seq<RefundRecord>)
    requires AmountsOk(o) && forall r <- refunds :: RecordOk(o, r)
    ensures 0 <= GoodsRefunded(refunds) && RefundedAmount(refunds) == GoodsRefunded(refunds) + ShippingRefunded(refunds)
    ensures var reversed := RefundedAmount(refunds) - Debits(refunds);
            if o.subtotal == 0 then reversed == 0
            else reversed * o.subtotal <= GoodsRefunded(refunds) * o.commission <= reversed * o.subtotal + |refunds| * (o.subtotal - 1)
  {
    if refunds != [] {
      var front := refunds[..|refunds| - 1];
      var last := refunds[|refunds| - 1];
      assert last in refunds;
      DebitsRoundUp(o, front);
      if o.subtotal > 0 {
        RoundingStep(RefundedAmount(front) - Debits(front), GoodsRefunded(front), |front|, last.subtotal, o.commission, o.subtotal);
      }
    }
  }

  lemma QuotientBounds(r: int, n: nat, commission: nat, whole: nat)
    requires whole > 0 && n > 0 && r * whole <= whole * commission <= r * whole + n * (whole - 1)
    ensures commission - (n - 1) <= r <= commission
  {
  }

  /**
   A seller order refunded in full by the records it carries, in whatever pieces: the seller is debited
   at least the net and at most net + n − 1 for n records.
   */
  lemma SplitRefundBounds(o: SellerOrder)
    requires AmountsOk(o) && RefundsOk(o) && o.refunds != []
    requires GoodsRefunded(o.refunds) == o.subtotal && ShippingRefunded(o.refunds) == o.shipping
    ensures o.net <= Debits(o.refunds) <= o.net + |o.refunds| - 1
  {
    DebitsRoundUp(o, o.refunds);
    if o.subtotal > 0 {
      QuotientBounds(RefundedAmount(o.refunds) - Debits(o.refunds), |o.refunds|, o.commission, o.subtotal);
    }
  }

  /** The upper bound is reached: a two-cent order with a one-cent commission, refunded cent by cent. */
  lemma SplitRefundBoundIsTight(s: Sale, id: L.SellerOrderId, tag: L.RefundTag, next: L.RefundTag)
    requires s.order.subtotal == 2 && s.order.shipping == 0 && s.order.commission == 1 && s.order.net == 1
    requires s.order.refunds == [] && tag != next
    ensures var cent := RefundArgs(1, None, None);
            && RecordRefund(s, id, cent, tag).Success?
            && var t := RecordRefund(s, id, cent, tag).value;
            && RecordRefund(t, id, cent, next).Success?
            && var u := RecordRefund(t, id, cent, next).value.order;
            && RefundsOk(u) && GoodsRefunded(u.refunds) == u.subtotal && ShippingRefunded(u.refunds) == u.shipping
            && Debits(u.refunds) == u.net + |u.refunds| - 1
  {
    var first := RefundRecord(tag, 1, 1, 0, 0, 1);
    var second := first.(tag := next);
    CentRecorded(s, id, tag);
    assert [] + [first] == [first];
    CentSums(first, second);
    CentRecorded(RecordRefund(s, id, RefundArgs(1, None, None), tag).value, id, next);
    assert [first] + [second] == [first, second];
    CentsFit(s.order, first, second);
  }

  lemma CentsFit(o: SellerOrder, first: RefundRecord, second: RefundRecord)
    requires o.subtotal == 2 && o.shipping == 0 && o.commission == 1
    requires first == RefundRecord(first.tag, 1, 1, 0, 0, 1) && second == RefundRecord(second.tag, 1, 1, 0, 0, 1)
    ensures RefundsOk(o.(refunds := [first, second]))
  {
    CentSums(first, second);
  }

  lemma CentSums(first: RefundRecord, second: RefundRecord)
    ensures GoodsRefunded([first, second]) == first.subtotal + second.subtotal && ShippingRefunded([first, second]) == first.shipping + second.shipping
    ensures Debits([first, second]) == first.sellerDebit + second.sellerDebit
    ensures RefundedAmount([first]) == first.amount && RefundedAmount([first, second]) == first.amount + second.amount
  {
    assert [first, second][..1] == [first] && [first][..0] == [];
    assert GoodsRefunded([first]) == first.subtotal && ShippingRefunded([first]) == first.shipping && Debits([first]) == first.sellerDebit;
  }

  lemma CentRecorded(s: Sale, id: L.SellerOrderId, tag: L.RefundTag)
    requires s.order.subtotal == 2 && s.order.shipping == 0 && s.order.commission == 1 && s.order.net == 1
    requires RefundedAmount(s.order.refunds) <= 1 && !HasRefund(s.order, tag)
    ensures var r := RecordRefund(s, id, RefundArgs(1, None, None), tag);
            r.Success? && r.value.order == s.order.(refunds := s.order.refunds + [RefundRecord(tag, 1, 1, 0, 0, 1)])
  {
  }

  // ---------- Status rules ----------

  /** How far along the happy path a status is; suspended statuses keep no rank. */
  function Rank(s: Status): nat {
    match s
    case PendingPayment => 0
    case Paid => 1
    case Preparing => 2
    case ReadyForPickup => 3
    case Shipped => 4
    case PickedUp => 4
    case Completed => 5
    case Cancelled => 5
    case _ => 6
  }

  /** An accepted transition moves strictly forward, bumps the version and fits the delivery method. */
  lemma TransitionMovesForward(s: Sale, id: L.SellerOrderId, v: nat, next: Status, actor: L.Actor, suspended: bool, now: int, days: int)
    requires Transition(s, id, v, next, actor, suspended, now, days).Success?
    ensures var n := Transition(s, id, v, next, actor, suspended, now, days).value.order;
            && n.status == next && Rank(n.status) > Rank(s.order.status) && n.version == s.order.version + 1
            && s.order.status in {PendingPayment, Paid, Preparing, ReadyForPickup, Shipped, PickedUp}
            && (Fits(s.order.status, s.order.fulfillment) ==> Fits(next, s.order.fulfillment))
            && (n.autoCompleteAt.Some? <==> next in {Shipped, PickedUp})
  {
  }

  datatype Request = Request(version: nat, next: Status, actor: L.Actor, suspended: bool, now: int, days: int)

  function RunTransitions(s: Sale, id: L.SellerOrderId, rs: seq<Request>): Result<Sale, Error> {
    if rs == [] then Success(s) else
    match RunTransitions(s, id, rs[..|rs| - 1])
    case Failure(e) => Failure(e)
    case Success(t) =>
      var r := rs[|rs| - 1];
      Transition(t, id, r.version, r.next, r.actor, r.suspended, r.now, r.days)
  }

  /** Plain transitions terminate: at most five succeed in a row, and a pickup order never ships. */
  lemma {:induction false} TransitionsTerminate(s: Sale, id: L.SellerOrderId, rs: seq<Request>)
    requires RunTransitions(s, id, rs).Success? && Fits(s.order.status, s.order.fulfillment)
    ensures var n := RunTransitions(s, id, rs).value.order;
            && |rs| <= Rank(n.status) - Rank(s.order.status) && (rs != [] ==> |rs| <= 5)
            && Fits(n.status, n.fulfillment) && n.fulfillment == s.order.fulfillment
  {
    if rs != [] {
      var front := rs[..|rs| - 1];
      TransitionsTerminate(s, id, front);
      var t := RunTransitions(s, id, front).value;
      var r := rs[|rs| - 1];
      TransitionMovesForward(t, id, r.version, r.next, r.actor, r.suspended, r.now, r.days);
    }
  }

  // ---------- Keys stay used ----------

  ghost predicate Extends(o: SellerOrder, n: SellerOrder) {
    && n.affiliate == o.affiliate && n.subtotal == o.subtotal && n.shipping == o.shipping
    && n.commission == o.commission && n.net == o.net && n.fulfillment == o.fulfillment
    && n.version >= o.version
    && |n.issues| >= |o.issues| && (forall k | 0 <= k < |o.issues| :: !o.issues[k].open ==> !n.issues[k].open)
    && |n.requests| >= |o.requests| && (forall k | 0 <= k < |o.requests| :: o.requests[k].status != Requested ==> n.requests[k].status != Requested)
    && |n.refunds| >= |o.refunds| && n.refunds[..|o.refunds|] == o.refunds
    && (o.parentRefunded ==> n.parentRefunded)
  }

  ghost predicate Owned(entries: seq<L.Entry>) {
    forall e <- entries :: e.key.PayoutKey? || L.SaleEntryOk(e)
  }

  /** What an operation of seller order `id` may do to the ledger. */
  ghost predicate Appends(before: seq<L.Entry>, after: seq<L.Entry>, id: L.SellerOrderId) {
    && |after| >= |before| && after[..|before|] == before
    && (forall e <- after[|before|..] :: L.SaleEntryOk(e) && e.key.seller == id)
    && (L.UniqueKeys(before) ==> L.UniqueKeys(after))
  }

  lemma AppendsTrans(a: seq<L.Entry>, b: seq<L.Entry>, c: seq<L.Entry>, id: L.SellerOrderId)
    requires Appends(a, b, id) && Appends(b, c, id)
    ensures Appends(a, c, id)
  {
  }

  lemma AppendsOwned(before: seq<L.Entry>, after: seq<L.Entry>, id: L.SellerOrderId)
    requires Appends(before, after, id) && Owned(before)
    ensures Owned(after)
  {
  }

  // ---------- One step keeps the identities ----------

  lemma {:induction false} DebitsPrefix(refunds: seq<RefundRecord>, r: RefundRecord)
    ensures Debits(refunds + [r]) == Debits(refunds) + r.sellerDebit
    ensures RefundedAmount(refunds + [r]) == RefundedAmount(refunds) + r.amount
  {
    assert (refunds + [r])[..|refunds|] == refunds;
  }

  lemma SameRefunds(o: SellerOrder, n: SellerOrder)
    requires RefundsOk(o) && n.refunds == o.refunds && n.subtotal == o.subtotal && n.shipping == o.shipping && n.commission == o.commission
    ensures RefundsOk(n)
  {
  }

  /** An accepted refund is recorded with this order's rounding and within its total. */
  lemma RecordKeepsRefunds(s: Sale, id: L.SellerOrderId, a: RefundArgs, tag: L.RefundTag)
    requires AmountsOk(s.order) && RefundsOk(s.order) && RecordRefund(s, id, a, tag).Success?
    ensures RefundsOk(RecordRefund(s, id, a, tag).value.order)
  {
    if !HasRefund(s.order, tag) {
      RecordIsOk(s.order, a, tag);
      AddedRecord(s.order, RecordOf(s.order, a, tag));
    }
  }

  lemma RecordIsOk(o: SellerOrder, a: RefundArgs, tag: L.RefundTag)
    requires AmountsOk(o) && a.amount > 0 && RefundError(o, a) == None
    ensures RecordOk(o, RecordOf(o, a, tag))
  {
    RefundIdentity(o, a, tag);
  }

  lemma AddedRecord(o: SellerOrder, r: RefundRecord)
    requires RefundsOk(o) && RecordOk(o, r) && RefundedAmount(o.refunds) + r.amount <= o.subtotal + o.shipping
    ensures RefundsOk(o.(refunds := o.refunds + [r]))
  {
    var n := o.(refunds := o.refunds + [r]);
    DebitsPrefix(o.refunds, r);
    forall x | x in n.refunds ensures RecordOk(n, x) { SameRecord(o, n, x); }
  }

  lemma SameRecord(o: SellerOrder, n: SellerOrder, r: RefundRecord)
    requires RecordOk(o, r) && n.subtotal == o.subtotal && n.shipping == o.shipping && n.commission == o.commission
    ensures RecordOk(n, r)
  {
  }

  lemma SumsAfter(entries: seq<L.Entry>, es: seq<L.Entry>)
    ensures forall w: L.Where :: L.Sum(entries + es, w) == L.Sum(entries, w) + L.Sum(es, w)
  {
    forall w: L.Where ensures L.Sum(entries + es, w) == L.Sum(entries, w) + L.Sum(es, w) {
      LL.SumConcat(entries, es, w);
    }
  }

  /** Entries of other seller orders and of payouts do not concern this one. */
  lemma OthersKeepInv(o: SellerOrder, id: L.SellerOrderId, before: seq<L.Entry>, after: seq<L.Entry>)
    requires Inv(o, id, before) && |after| >= |before| && after[..|before|] == before
    requires forall e <- after[|before|..] :: e.seller != Some(id)
    ensures Inv(o, id, after)
  {
    var es := after[|before|..];
    assert after == before + es;
    SumsAfter(before, es);
    if o.affiliate.Some? {
      LL.SumNone(es, L.Where(o.affiliate.value, None, Some(id)));
      LL.SumNone(es, L.Where(o.affiliate.value, Some(L.Pending), Some(id)));
      assert L.HasSale(after, id) <==> L.HasSale(before, id);
    }
  }

  lemma StepKeepsKeys(o: SellerOrder, n: SellerOrder, id: L.SellerOrderId, entries: seq<L.Entry>, es: seq<L.Entry>)
    requires KeysOk(o, id, entries) && Extends(o, n)
    requires forall e <- es :: e.seller == Some(id) ==> EntryOf(n, id, e)
    requires forall r <- n.refunds[|o.refunds|..] :: Spent(n, r.tag) && !r.tag.ParentRefund? && r.sellerDebit >= 0
    ensures KeysOk(n, id, entries + es)
  {
  }

  // ---------- Operations that write no entry ----------

  lemma QuietKeepsInv(o: SellerOrder, n: SellerOrder, id: L.SellerOrderId, entries: seq<L.Entry>)
    requires Inv(o, id, entries) && Extends(o, n) && n.refunds == o.refunds && n.parentRefunded == o.parentRefunded && StatusesFit(n)
    ensures Inv(n, id, entries)
  {
    StepKeepsKeys(o, n, id, entries, []);
    assert entries + [] == entries;
  }

  // ---------- Release ----------

  lemma ReleaseKeepsInv(s: Sale, id: L.SellerOrderId, tag: L.ReleaseTag)
    requires Inv(s.order, id, s.entries) && Owned(s.entries)
    requires KeyUsed(s.order, L.ReleaseKey(id, tag, true))
    requires s.order.affiliate.Some? ==> LL.FreshRelease(s.entries, id, tag)
    ensures var t := ReleaseIfAffiliate(s, id, tag);
            t.order == s.order && Inv(t.order, id, t.entries) && Appends(s.entries, t.entries, id)
  {
    var o := s.order;
    if o.affiliate.Some? {
      var es := L.ReleaseEntries(s.entries, id, o.affiliate.value, tag);
      LL.ReleaseExact(s.entries, id, o.affiliate.value, tag);
      assert ReleaseIfAffiliate(s, id, tag).entries == s.entries + es;
      ReleaseKeepsUnique(s.entries, id, o.affiliate.value, tag);
      StepKeepsKeys(o, o, id, s.entries, es);
      SaleUnchanged(s.entries, es, id);
    }
  }

  lemma ReleaseKeepsUnique(entries: seq<L.Entry>, id: L.SellerOrderId, a: L.AffiliateId, tag: L.ReleaseTag)
    ensures L.UniqueKeys(entries) ==> L.UniqueKeys(L.Release(entries, id, a, tag))
  {
    if L.UniqueKeys(entries) { LL.UpsertAllUnique(entries, L.ReleaseEntries(entries, id, a, tag)); }
  }

  lemma FreshReleaseOf(o: SellerOrder, id: L.SellerOrderId, entries: seq<L.Entry>, tag: L.ReleaseTag)
    requires KeysOk(o, id, entries) && Owned(entries) && !KeyUsed(o, L.ReleaseKey(id, tag, true))
    ensures LL.FreshRelease(entries, id, tag)
  {
  }

  // ---------- Reversal ----------

  lemma FreshRefundOf(o: SellerOrder, id: L.SellerOrderId, entries: seq<L.Entry>, tag: L.RefundTag)
    requires KeysOk(o, id, entries) && Owned(entries) && !Spent(o, tag)
    ensures LL.FreshRefund(entries, id, tag)
  {
  }

  lemma WithheldIsZero(o: SellerOrder, id: L.SellerOrderId, entries: seq<L.Entry>, a: L.AffiliateId)
    requires KeysOk(o, id, entries) && Owned(entries)
    ensures L.BalanceOf(entries, a, L.Withheld, id) == 0
  {
    forall e | e in entries ensures !L.Matches(e, L.Where(a, Some(L.Withheld), Some(id))) {
      if e.seller == Some(id) { assert EntryOf(o, id, e); }
    }
    LL.SumNone(entries, L.Where(a, Some(L.Withheld), Some(id)));
  }

  /** The entries of a reversal with an unspent tag belong to the order and stay in Pending and Available. */
  lemma ReversalOwned(o: SellerOrder, n: SellerOrder, id: L.SellerOrderId, entries: seq<L.Entry>, debit: int, tag: L.RefundTag)
    requires KeysOk(o, id, entries) && Owned(entries) && o.affiliate.Some?
    requires Spent(n, tag) && n.affiliate == o.affiliate
    ensures var es := L.ReversalEntries(L.Split(entries, id, o.affiliate.value, debit), id, o.affiliate.value, tag);
            forall e <- es :: EntryOf(n, id, e) && L.SaleEntryOk(e) && e.key.seller == id && e.kind == L.SaleReversed
  {
    var a := o.affiliate.value;
    WithheldIsZero(o, id, entries, a);
    var f := L.Split(entries, id, a, debit);
    LL.ReversalKeys(f, id, a, tag);
    forall e | e in L.ReversalEntries(f, id, a, tag)
      ensures EntryOf(n, id, e) && L.SaleEntryOk(e) && e.key.seller == id && e.kind == L.SaleReversed
    {
      WithheldLegEmpty(f, id, a, tag, e);
    }
  }

  /** A reversal with an unspent tag debits exactly `debit`. */
  lemma ReversalFacts(o: SellerOrder, n: SellerOrder, id: L.SellerOrderId, entries: seq<L.Entry>, debit: int, tag: L.RefundTag)
    requires Inv(o, id, entries) && Owned(entries) && o.affiliate.Some? && debit > 0
    requires !Spent(o, tag) && Spent(n, tag) && n.affiliate == o.affiliate
    ensures var after := L.ReverseLiability(entries, id, o.affiliate.value, debit, tag);
            && Appends(entries, after, id)
            && (forall e <- after[|entries|..] :: EntryOf(n, id, e) && e.kind == L.SaleReversed)
            && L.Sum(after, L.Where(o.affiliate.value, None, Some(id))) == L.Sum(entries, L.Where(o.affiliate.value, None, Some(id))) - debit
            && L.BalanceOf(after, o.affiliate.value, L.Pending, id) >= 0
            && (L.HasSale(after, id) <==> L.HasSale(entries, id))
  {
    var a := o.affiliate.value;
    FreshRefundOf(o, id, entries, tag);
    var es := L.ReversalEntries(L.Split(entries, id, a, debit), id, a, tag);
    ReversalOwned(o, n, id, entries, debit, tag);
    LL.ReversalAppends(entries, id, a, debit, tag);
    LL.ReversalExact(entries, id, a, debit, tag);
    assert (entries + es)[..|entries|] == entries && (entries + es)[|entries|..] == es;
    if L.UniqueKeys(entries) { LL.UpsertAllUnique(entries, es); }
    SaleUnchanged(entries, es, id);
  }

  lemma SaleUnchanged(entries: seq<L.Entry>, es: seq<L.Entry>, id: L.SellerOrderId)
    requires forall e <- es :: e.kind != L.SalePending
    ensures L.HasSale(entries + es, id) <==> L.HasSale(entries, id)
  {
  }

  lemma WithheldLegEmpty(f: L.Waterfall, id: L.SellerOrderId, a: L.AffiliateId, tag: L.RefundTag, e: L.Entry)
    requires f.withheld == 0 && e in L.ReversalEntries(f, id, a, tag)
    ensures e.bucket in {L.Pending, L.Available}
  {
  }

  /** Reversing for an order whose books now say so keeps the identities. */
  lemma ReverseKeepsInv(o: SellerOrder, n: SellerOrder, id: L.SellerOrderId, entries: seq<L.Entry>, debit: int, tag: L.RefundTag)
    requires Inv(o, id, entries) && Owned(entries) && Extends(o, n) && StatusesFit(n) && AmountsOk(n) && debit >= 0
    requires !Spent(o, tag) && Spent(n, tag)
    requires forall r <- n.refunds[|o.refunds|..] :: Spent(n, r.tag) && !r.tag.ParentRefund? && r.sellerDebit >= 0
    requires Owed(n, id, entries) == Owed(o, id, entries) - debit
    ensures var t := ReverseIfAffiliate(Sale(n, entries), id, debit, tag);
            t.order == n && Inv(n, id, t.entries) && Appends(entries, t.entries, id)
  {
    var t := ReverseIfAffiliate(Sale(n, entries), id, debit, tag);
    if o.affiliate.Some? && debit > 0 {
      ReversalFacts(o, n, id, entries, debit, tag);
      var es := t.entries[|entries|..];
      assert t.entries == entries + es;
      StepKeepsKeys(o, n, id, entries, es);
    } else {
      StepKeepsKeys(o, n, id, entries, []);
      assert entries + [] == entries;
    }
  }

  // ---------- Every operation keeps the invariant and appends only its own entries ----------

  ghost predicate Step(s: Sale, t: Sale, id: L.SellerOrderId) {
    Extends(s.order, t.order) && Inv(t.order, id, t.entries) && Appends(s.entries, t.entries, id)
  }

  lemma TransitionKeepsInv(s: Sale, id: L.SellerOrderId, v: nat, next: Status, actor: L.Actor, suspended: bool, now: int, days: int)
    requires Inv(s.order, id, s.entries) && Owned(s.entries)
    requires Transition(s, id, v, next, actor, suspended, now, days).Success?
    ensures Step(s, Transition(s, id, v, next, actor, suspended, now, days).value, id)
  {
    var t := Transition(s, id, v, next, actor, suspended, now, days).value;
    TransitionMovesForward(s, id, v, next, actor, suspended, now, days);
    QuietKeepsInv(s.order, t.order, id, s.entries);
    if next == Completed && actor != L.Affiliate {
      FreshReleaseOf(s.order, id, s.entries, L.ByActor(actor, v));
      ReleaseKeepsInv(Sale(t.order, s.entries), id, L.ByActor(actor, v));
    }
  }

  lemma RequestKeepsInv(o: SellerOrder, id: L.SellerOrderId, entries: seq<L.Entry>, affiliate: L.AffiliateId, v: nat)
    requires Inv(o, id, entries) && RequestCancellation(o, affiliate, v).Success?
    ensures Step(Sale(o, entries), Sale(RequestCancellation(o, affiliate, v).value, entries), id)
  {
    QuietKeepsInv(o, RequestCancellation(o, affiliate, v).value, id, entries);
  }

  lemma IssueKeepsInv(o: SellerOrder, id: L.SellerOrderId, entries: seq<L.Entry>)
    requires Inv(o, id, entries) && CreateIssue(o).Success?
    ensures Step(Sale(o, entries), Sale(CreateIssue(o).value, entries), id)
  {
    QuietKeepsInv(o, CreateIssue(o).value, id, entries);
  }

  /**
   Recording a refund and closing the order (as `n`, which spends the tag) in one transaction.
   `RecordRefund` alone leaves the tag unspent, so the two are accounted together.
   */
  lemma RefundKeepsInv(s: Sale, n: SellerOrder, id: L.SellerOrderId, a: RefundArgs, tag: L.RefundTag)
    requires Inv(s.order, id, s.entries) && Owned(s.entries) && !tag.ParentRefund? && !Spent(s.order, tag)
    requires RecordRefund(s, id, a, tag).Success?
    requires Extends(s.order, n) && Spent(n, tag) && StatusesFit(n) && n.parentRefunded == s.order.parentRefunded
    requires n.refunds == RecordRefund(s, id, a, tag).value.order.refunds
    ensures Step(s, Sale(n, RecordRefund(s, id, a, tag).value.entries), id)
    ensures n.refunds == s.order.refunds + [RecordOf(s.order, a, tag)]
  {
    var o := s.order;
    assert forall r <- o.refunds :: Spent(o, r.tag);
    var r := RecordOf(o, a, tag);
    RefundIdentity(o, a, tag);
    assert n.refunds[|o.refunds|..] == [r];
    DebitsPrefix(o.refunds, r);
    ReverseKeepsInv(o, n, id, s.entries, r.sellerDebit, tag);
  }

  lemma RefundOrderKeepsInv(s: Sale, id: L.SellerOrderId, v: nat, a: RefundArgs, paymentPending: bool)
    requires Inv(s.order, id, s.entries) && Owned(s.entries)
    requires RefundOrder(s, id, v, a, paymentPending).Success?
    ensures Step(s, RefundOrder(s, id, v, a, paymentPending).value, id)
  {
    RefundKeepsInv(s, RefundOrder(s, id, v, a, paymentPending).value.order, id, a, L.SellerOrderRefund(v));
  }

  lemma ReleaseAfterIssue(s: Sale, n: SellerOrder, id: L.SellerOrderId, k: nat)
    requires KeysOk(s.order, id, s.entries) && Owned(s.entries) && k < |s.order.issues| && s.order.issues[k].open
    requires Inv(n, id, s.entries) && k < |n.issues| && !n.issues[k].open
    ensures var t := ReleaseIfAffiliate(Sale(n, s.entries), id, L.ByIssue(k));
            t.order == n && Inv(n, id, t.entries) && Appends(s.entries, t.entries, id)
  {
    FreshReleaseOf(s.order, id, s.entries, L.ByIssue(k));
    ReleaseKeepsInv(Sale(n, s.entries), id, L.ByIssue(k));
  }

  lemma CompleteIssueKeepsInv(s: Sale, id: L.SellerOrderId, k: nat)
    requires Inv(s.order, id, s.entries) && Owned(s.entries) && k < |s.order.issues| && s.order.issues[k].open
    ensures Step(s, ReleaseIfAffiliate(s.(order := CloseIssue(CloseAs(s.order, Completed), k)), id, L.ByIssue(k)), id)
  {
    var n := CloseIssue(CloseAs(s.order, Completed), k);
    QuietKeepsInv(s.order, n, id, s.entries);
    ReleaseAfterIssue(s, n, id, k);
  }

  /** Entries of a refund are reversals, so they do not spend the release tag of the same issue. */
  lemma PartialRefundKeepsInv(s: Sale, id: L.SellerOrderId, k: nat, a: RefundArgs)
    requires Inv(s.order, id, s.entries) && Owned(s.entries) && k < |s.order.issues| && s.order.issues[k].open
    requires RecordRefund(s, id, a, L.IssueRefund(k, false)).Success?
    ensures var t := RecordRefund(s, id, a, L.IssueRefund(k, false)).value;
            Step(s, ReleaseIfAffiliate(t.(order := CloseIssue(CloseAs(t.order, Completed), k)), id, L.ByIssue(k)), id)
  {
    var tag := L.IssueRefund(k, false);
    var t := RecordRefund(s, id, a, tag).value;
    var n := CloseIssue(CloseAs(t.order, Completed), k);
    RefundKeepsInv(s, n, id, a, tag);
    AppendsOwned(s.entries, t.entries, id);
    FreshAfterRefund(s, t, id, k, a);
    ReleaseKeepsInv(Sale(n, t.entries), id, L.ByIssue(k));
    var u := ReleaseIfAffiliate(Sale(n, t.entries), id, L.ByIssue(k));
    AppendsTrans(s.entries, t.entries, u.entries, id);
  }

  lemma FreshAfterRefund(s: Sale, t: Sale, id: L.SellerOrderId, k: nat, a: RefundArgs)
    requires KeysOk(s.order, id, s.entries) && Owned(s.entries) && k < |s.order.issues| && s.order.issues[k].open
    requires RecordRefund(s, id, a, L.IssueRefund(k, false)) == Success(t)
    ensures LL.FreshRelease(t.entries, id, L.ByIssue(k))
  {
    var tag := L.IssueRefund(k, false);
    FreshReleaseOf(s.order, id, s.entries, L.ByIssue(k));
    if t.entries != s.entries {
      var x := s.order.affiliate.value;
      var debit := RecordOf(s.order, a, tag).sellerDebit;
      FreshRefundOf(s.order, id, s.entries, tag);
      LL.ReversalAppends(s.entries, id, x, debit, tag);
      LL.ReversalKeys(L.Split(s.entries, id, x, debit), id, x, tag);
    }
  }

  lemma ResolveIssueKeepsInv(s: Sale, id: L.SellerOrderId, k: nat, v: nat, decision: Decision, refund: Option<RefundArgs>)
    requires Inv(s.order, id, s.entries) && Owned(s.entries)
    requires ResolveIssue(s, id, k, v, decision, refund).Success?
    ensures Step(s, ResolveIssue(s, id, k, v, decision, refund).value, id)
  {
    var t := ResolveIssue(s, id, k, v, decision, refund).value;
    match decision
    case Continue => QuietKeepsInv(s.order, t.order, id, s.entries);
    case CompleteIt => CompleteIssueKeepsInv(s, id, k);
    case PartialRefund => PartialRefundKeepsInv(s, id, k, refund.value);
    case FullRefund => RefundKeepsInv(s, t.order, id, refund.value, L.IssueRefund(k, true));
  }

  lemma ResolveCancellationKeepsInv(s: Sale, id: L.SellerOrderId, k: nat, v: nat, approve: bool, refund: Option<RefundArgs>, accredited: bool)
    requires Inv(s.order, id, s.entries) && Owned(s.entries)
    requires ResolveCancellation(s, id, k, v, approve, refund, accredited).Success?
    ensures Step(s, ResolveCancellation(s, id, k, v, approve, refund, accredited).value, id)
  {
    var t := ResolveCancellation(s, id, k, v, approve, refund, accredited).value;
    if approve && refund.Some? {
      RefundKeepsInv(s, t.order, id, refund.value, L.CancellationRefund(k));
    } else {
      QuietKeepsInv(s.order, t.order, id, s.entries);
    }
  }

  // ---------- What the parent does to its children ----------

  lemma NoSaleKey(entries: seq<L.Entry>, id: L.SellerOrderId)
    requires Owned(entries) && !L.HasSale(entries, id)
    ensures !L.HasKey(entries, L.SaleKey(id))
  {
  }

  /** A credit raises what is owed and what is pending by the net. */
  lemma CreditKeepsBalance(o: SellerOrder, n: SellerOrder, id: L.SellerOrderId, entries: seq<L.Entry>)
    requires AmountsOk(o) && BalanceOk(o, id, entries) && o.affiliate.Some? && !L.HasSale(entries, id)
    requires n.affiliate == o.affiliate && n.net == o.net && n.refunds == o.refunds && n.parentRefunded == o.parentRefunded
    ensures var after := entries + [L.SaleEntry(id, o.affiliate.value, o.net)];
            BalanceOk(n, id, after) && L.HasSale(after, id)
  {
  }

  /** Accreditation credits the net of a pending affiliate order once, into Pending. */
  lemma AccreditKeepsInv(s: Sale, id: L.SellerOrderId)
    requires Inv(s.order, id, s.entries) && Owned(s.entries)
    ensures Step(s, Accredit(s, id), id)
    ensures s.order.status == PendingPayment && s.order.affiliate.Some? ==> L.HasSale(Accredit(s, id).entries, id)
  {
    var t := Accredit(s, id);
    if s.order.status != PendingPayment || s.order.affiliate.None? || L.HasSale(s.entries, id) {
      QuietKeepsInv(s.order, t.order, id, s.entries);
    } else {
      assert t == Sale(t.order, s.entries + [L.SaleEntry(id, s.order.affiliate.value, s.order.net)]);
      CreditKeepsInv(s.order, t.order, id, s.entries);
    }
  }

  lemma CreditKeepsInv(o: SellerOrder, n: SellerOrder, id: L.SellerOrderId, entries: seq<L.Entry>)
    requires Inv(o, id, entries) && Owned(entries) && o.affiliate.Some? && !L.HasSale(entries, id)
    requires n == o.(status := Paid, version := o.version + 1)
    ensures var after := entries + [L.SaleEntry(id, o.affiliate.value, o.net)];
            Step(Sale(o, entries), Sale(n, after), id) && L.HasSale(after, id)
  {
    CreditKeepsBalance(o, n, id, entries);
    NoSaleKey(entries, id);
    CreditAppends(o, n, id, entries);
    PaidRow(o, n);
  }

  lemma PaidRow(o: SellerOrder, n: SellerOrder)
    requires AmountsOk(o) && StatusesFit(o) && n == o.(status := Paid, version := o.version + 1)
    ensures Extends(o, n) && AmountsOk(n) && StatusesFit(n)
  {
  }

  lemma CreditAppends(o: SellerOrder, n: SellerOrder, id: L.SellerOrderId, entries: seq<L.Entry>)
    requires KeysOk(o, id, entries) && o.affiliate.Some? && !L.HasKey(entries, L.SaleKey(id))
    requires n == o.(status := Paid, version := o.version + 1)
    ensures var after := entries + [L.SaleEntry(id, o.affiliate.value, o.net)];
            KeysOk(n, id, after) && Appends(entries, after, id)
  {
  }

  lemma CloseUnpaidKeepsInv(o: SellerOrder, id: L.SellerOrderId, entries: seq<L.Entry>)
    requires Inv(o, id, entries)
    ensures Step(Sale(o, entries), Sale(CloseUnpaid(o), entries), id)
  {
    QuietKeepsInv(o, CloseUnpaid(o), id, entries);
  }

  /** A refund of the whole order debits the child's net once. */
  lemma RefundWithParentKeepsInv(s: Sale, id: L.SellerOrderId)
    requires Inv(s.order, id, s.entries) && Owned(s.entries)
    requires s.order.parentRefunded ==> Closed(s.order.status) && s.order.status != Completed
    ensures Step(s, RefundWithParent(s, id), id)
  {
    if s.order.status !in {Cancelled, Refunded} {
      var n := CloseAs(s.order, Refunded).(parentRefunded := true);
      assert n.refunds[|s.order.refunds|..] == [];
      ReverseKeepsInv(s.order, n, id, s.entries, s.order.net, L.ParentRefund(id.order));
    } else {
      QuietKeepsInv(s.order, s.order, id, s.entries);
    }
  }

  // ---------- What the identities mean ----------

  lemma {:induction false} SameBucketSum(entries: seq<L.Entry>, a: L.AffiliateId, b: L.Bucket, id: L.SellerOrderId)
    requires forall e <- entries :: e.seller == Some(id) ==> e.bucket == b
    ensures L.Sum(entries, L.Where(a, Some(b), Some(id))) == L.Sum(entries, L.Where(a, None, Some(id)))
  {
    if entries != [] {
      SameBucketSum(entries[..|entries| - 1], a, b, id);
      assert entries[|entries| - 1] in entries;
    }
  }

  /**
   The first refund of an order that was credited and not yet released is a single entry in Pending:
   it creates no debt and touches no other bucket.
   */
  lemma FirstRefundTouchesPendingOnly(s: Sale, id: L.SellerOrderId, a: RefundArgs, tag: L.RefundTag)
    requires Inv(s.order, id, s.entries) && Owned(s.entries) && !Spent(s.order, tag)
    requires s.order.affiliate.Some? && L.HasSale(s.entries, id) && s.order.refunds == [] && !s.order.parentRefunded
    requires forall e <- s.entries :: e.seller == Some(id) ==> e.kind == L.SalePending
    requires RecordRefund(s, id, a, tag).Success?
    ensures var debit := RecordOf(s.order, a, tag).sellerDebit;
            RecordRefund(s, id, a, tag).value.entries ==
              s.entries + (if debit == 0 then [] else
                [L.Entry(s.order.affiliate.value, Some(id), None, L.Pending, L.SaleReversed, -debit, L.ReversalKey(id, tag, L.Pending))])
  {
    var o := s.order;
    forall e | e in s.entries && e.seller == Some(id) ensures e.bucket == L.Pending {
      assert EntryOf(o, id, e) && L.SaleEntryOk(e);
    }
    SameBucketSum(s.entries, o.affiliate.value, L.Pending, id);
    RefundIdentity(o, a, tag);
    FreshRefundOf(o, id, s.entries, tag);
    var debit := RecordOf(o, a, tag).sellerDebit;
    if debit > 0 {
      LL.ReversalFromPendingIff(s.entries, id, o.affiliate.value, debit, tag);
    }
  }

  /**
   A refund of the whole order debits the full net whatever was credited or refunded before: it leaves
   the seller owing money exactly when the order was never credited or had been refunded in part.
   */
  lemma ParentRefundLeavesDebtIff(s: Sale, id: L.SellerOrderId)
    requires Inv(s.order, id, s.entries) && Owned(s.entries) && s.order.affiliate.Some? && s.order.net > 0
    requires !s.order.parentRefunded && s.order.status !in {Cancelled, Refunded}
    ensures var t := RefundWithParent(s, id);
            var balance := L.Sum(t.entries, L.Where(s.order.affiliate.value, None, Some(id)));
            && balance == (if L.HasSale(s.entries, id) then 0 else -s.order.net) - Debits(s.order.refunds)
            && (balance < 0 <==> !L.HasSale(s.entries, id) || Debits(s.order.refunds) > 0)
  {
    RefundWithParentKeepsInv(s, id);
    var n := CloseAs(s.order, Refunded).(parentRefunded := true);
    DebitsNonNegative(s.order.refunds);
    ReversalFacts(s.order, n, id, s.entries, s.order.net, L.ParentRefund(id.order));
  }

  /** The whole credit was taken back from Pending, and no debt was ever written for the parent's refund. */
  ghost predicate FullyReversed(entries: seq<L.Entry>, id: L.SellerOrderId, a: L.AffiliateId) {
    && L.HasSale(entries, id) && L.Sum(entries, L.Where(a, None, Some(id))) == 0
    && (forall e <- entries :: e.seller == Some(id) ==> e.bucket == L.Pending)
    && !L.HasKey(entries, L.DebtKey(id, L.ParentRefund(id.order)))
  }

  /**
   Continuing or completing the issue of an order refunded with its parent takes it out of that status, and
   the next whole-order refund finds nothing left to reverse: it debits the net a second time as debt,
   under a key not used before.
   */
  lemma ReopenedIsDebitedTwice(s: Sale, id: L.SellerOrderId, k: nat, decision: Decision)
    requires Inv(s.order, id, s.entries) && Owned(s.entries) && s.order.affiliate.Some? && s.order.net > 0 && L.HasSale(s.entries, id)
    requires s.order.refunds == [] && !s.order.parentRefunded && s.order.status !in {Cancelled, Refunded}
    requires forall e <- s.entries :: e.seller == Some(id) ==> e.kind == L.SalePending
    requires k < |s.order.issues| && s.order.issues[k].open && s.order.issues[k].previousStatus !in {Cancelled, Refunded}
    requires decision in {Continue, CompleteIt}
    ensures var w := L.Where(s.order.affiliate.value, None, Some(id));
            var refunded := RefundWithParent(s, id);
            var revived := ResolveIssue(refunded, id, k, refunded.order.version, decision, None);
            && L.Sum(refunded.entries, w) == 0 && revived.Success?
            && var again := RefundWithParent(revived.value, id);
            && L.Sum(again.entries, w) == -s.order.net && !Inv(again.order, id, again.entries)
  {
    FirstDebit(s, id);
    var refunded := RefundWithParent(s, id);
    Revived(refunded, id, k, decision);
    SecondRefund(ResolveIssue(refunded, id, k, refunded.order.version, decision, None).value, id);
  }

  lemma Revived(t: Sale, id: L.SellerOrderId, k: nat, decision: Decision)
    requires t.order.affiliate.Some? && FullyReversed(t.entries, id, t.order.affiliate.value)
    requires k < |t.order.issues| && t.order.issues[k].open && t.order.issues[k].previousStatus !in {Cancelled, Refunded}
    requires decision in {Continue, CompleteIt}
    ensures var r := ResolveIssue(t, id, k, t.order.version, decision, None);
            && r.Success? && r.value.entries == t.entries && r.value.order.status !in {Cancelled, Refunded}
            && r.value.order == t.order.(status := r.value.order.status, autoCompleteAt := r.value.order.autoCompleteAt,
                                         version := r.value.order.version, issues := r.value.order.issues)
  {
    SameBucketSum(t.entries, t.order.affiliate.value, L.Pending, id);
    assert L.ReleaseEntries(t.entries, id, t.order.affiliate.value, L.ByIssue(k)) == [];
  }

  lemma SecondRefund(t: Sale, id: L.SellerOrderId)
    requires t.order.affiliate.Some? && FullyReversed(t.entries, id, t.order.affiliate.value)
    requires t.order.net > 0 && t.order.status !in {Cancelled, Refunded} && t.order.refunds == []
    ensures var again := RefundWithParent(t, id);
            L.Sum(again.entries, L.Where(t.order.affiliate.value, None, Some(id))) == -t.order.net && !Inv(again.order, id, again.entries)
  {
    SecondDebit(t.entries, id, t.order.affiliate.value, t.order.net);
    var again := RefundWithParent(t, id);
    assert Owed(again.order, id, again.entries) == 0;
  }

  /** The first whole-order refund of a credited order takes the whole credit from Pending. */
  lemma FirstDebit(s: Sale, id: L.SellerOrderId)
    requires Inv(s.order, id, s.entries) && Owned(s.entries) && s.order.affiliate.Some? && s.order.net > 0 && L.HasSale(s.entries, id)
    requires s.order.refunds == [] && !s.order.parentRefunded && s.order.status !in {Cancelled, Refunded}
    requires forall e <- s.entries :: e.seller == Some(id) ==> e.kind == L.SalePending
    ensures FullyReversed(RefundWithParent(s, id).entries, id, s.order.affiliate.value)
  {
    var a := s.order.affiliate.value;
    var tag := L.ParentRefund(id.order);
    forall e | e in s.entries && e.seller == Some(id) ensures e.bucket == L.Pending {
      assert EntryOf(s.order, id, e) && L.SaleEntryOk(e);
    }
    SameBucketSum(s.entries, a, L.Pending, id);
    FreshRefundOf(s.order, id, s.entries, tag);
    LL.ReversalFromPendingIff(s.entries, id, a, s.order.net, tag);
    LL.ReversalExact(s.entries, id, a, s.order.net, tag);
    var one := L.Entry(a, Some(id), None, L.Pending, L.SaleReversed, -s.order.net, L.ReversalKey(id, tag, L.Pending));
    assert RefundWithParent(s, id).entries == s.entries + [one];
    DebtIsFresh(s.order, id, s.entries, one);
  }

  /** With every entry in Pending and nothing left there, a reversal is one debt entry. */
  lemma SecondDebit(entries: seq<L.Entry>, id: L.SellerOrderId, a: L.AffiliateId, debit: int)
    requires debit > 0 && FullyReversed(entries, id, a)
    ensures var after := L.ReverseLiability(entries, id, a, debit, L.ParentRefund(id.order));
            L.Sum(after, L.Where(a, None, Some(id))) == -debit && L.HasSale(after, id)
  {
    var tag := L.ParentRefund(id.order);
    var debt := L.Entry(a, Some(id), None, L.Available, L.SaleReversed, -debit, L.DebtKey(id, tag));
    NothingToCover(entries, id, a, debit);
    assert L.ReversalEntries(L.Split(entries, id, a, debit), id, a, tag) == [debt];
    assert [debt][..0] == [] && L.UpsertAll(entries, []) == entries;
    assert L.UpsertAll(entries, [debt]) == L.Upsert(entries, debt) == entries + [debt];
    LL.SumConcat(entries, [debt], L.Where(a, None, Some(id)));
    LL.SumOne(debt, L.Where(a, None, Some(id)));
  }

  lemma NothingToCover(entries: seq<L.Entry>, id: L.SellerOrderId, a: L.AffiliateId, debit: int)
    requires debit > 0 && FullyReversed(entries, id, a)
    ensures L.Split(entries, id, a, debit) == L.Waterfall(0, 0, 0, debit)
  {
    SameBucketSum(entries, a, L.Pending, id);
    LL.SumNone(entries, L.Where(a, Some(L.Available), Some(id)));
    LL.SumNone(entries, L.Where(a, Some(L.Withheld), Some(id)));
  }

  lemma DebtIsFresh(o: SellerOrder, id: L.SellerOrderId, entries: seq<L.Entry>, one: L.Entry)
    requires KeysOk(o, id, entries) && Owned(entries) && !o.parentRefunded && !one.key.DebtKey?
    ensures !L.HasKey(entries + [one], L.DebtKey(id, L.ParentRefund(id.order)))
  {
  }

  lemma {:induction false} DebitsNonNegative(refunds: seq<RefundRecord>)
    requires forall r <- refunds :: r.sellerDebit >= 0
    ensures Debits(refunds) >= 0
  {
    if refunds != [] {
      DebitsNonNegative(refunds[..|refunds| - 1]);
      assert refunds[|refunds| - 1] in refunds;
    }
  }
}
