/** Laws of the affiliate ledger: exact debits, bucket identities and payout conservation. */
module LedgerLaws {
  import opened Wrappers
  import opened Ledger

  // ---------- Sums ----------

  lemma {:induction false} SumConcat(a: seq<Entry>, b: seq<Entry>, w: Where)
    ensures Sum(a + b, w) == Sum(a, w) + Sum(b, w)
  {
    if b == [] {
      assert a + b == a;
    } else {
      SumConcat(a, b[..|b| - 1], w);
      assert (a + b)[..|a + b| - 1] == a + b[..|b| - 1];
    }
  }

  lemma {:induction false} SumNone(entries: seq<Entry>, w: Where)
    requires forall e <- entries :: !Matches(e, w)
    ensures Sum(entries, w) == 0
  {
    if entries != [] {
      SumNone(entries[..|entries| - 1], w);
      assert entries[|entries| - 1] in entries;
    }
  }

  lemma SumOne(e: Entry, w: Where)
    ensures Sum([e], w) == if Matches(e, w) then e.amount else 0
  {
  }

  lemma SumTwo(e: Entry, f: Entry, w: Where)
    ensures Sum([e, f], w) == (if Matches(e, w) then e.amount else 0) + (if Matches(f, w) then f.amount else 0)
  {
    assert [e, f] == [e] + [f];
    SumConcat([e], [f], w);
    SumOne(e, w);
    SumOne(f, w);
  }

  /** New keys are all appended, in order. */
  lemma {:induction false} UpsertAllFresh(entries: seq<Entry>, es: seq<Entry>)
    requires forall e <- es :: !HasKey(entries, e.key)
    requires UniqueKeys(es)
    ensures UpsertAll(entries, es) == entries + es
  {
    if es == [] {
      assert entries + es == entries;
    } else {
      var front := es[..|es| - 1];
      var last := es[|es| - 1];
      assert es == front + [last];
      UpsertAllFresh(entries, front);
      assert last in es;
      forall e | e in entries + front ensures e.key != last.key {
        if e !in entries {
          var j :| 0 <= j < |front| && front[j] == e;
          assert es[j] == e;
        }
      }
      assert entries + front + [last] == entries + es;
    }
  }

  lemma {:induction false} UpsertAllUnique(entries: seq<Entry>, es: seq<Entry>)
    requires UniqueKeys(entries)
    ensures UniqueKeys(UpsertAll(entries, es))
  {
    if es != [] {
      UpsertAllUnique(entries, es[..|es| - 1]);
    }
  }

  // ---------- The waterfall ----------

  ghost predicate FreshRefund(entries: seq<Entry>, seller: SellerOrderId, tag: RefundTag) {
    forall e <- entries :: !(e.key.ReversalKey? && e.key.seller == seller && e.key.refund == tag)
                        && !(e.key.DebtKey? && e.key.seller == seller && e.key.refund == tag)
  }

  lemma SumLeg(seller: SellerOrderId, affiliate: AffiliateId, bucket: Bucket, amount: int, tag: RefundTag, w: Where)
    requires amount >= 0
    ensures Sum(Leg(seller, affiliate, bucket, amount, tag), w) ==
              if w.affiliate == affiliate && (w.bucket == None || w.bucket == Some(bucket)) && (w.seller == None || w.seller == Some(seller))
              then -amount else 0
  {
  }

  lemma SumDebtLeg(seller: SellerOrderId, affiliate: AffiliateId, amount: int, tag: RefundTag, w: Where)
    requires amount >= 0
    ensures Sum(DebtLeg(seller, affiliate, amount, tag), w) ==
              if w.affiliate == affiliate && (w.bucket == None || w.bucket == Some(Available)) && (w.seller == None || w.seller == Some(seller))
              then -amount else 0
  {
  }

  ghost function TakenFrom(f: Waterfall, bucket: Option<Bucket>): int {
    match bucket
    case None => f.pending + f.available + f.withheld + f.debt
    case Some(Pending) => f.pending
    case Some(Available) => f.available + f.debt
    case Some(Withheld) => f.withheld
    case Some(PaidOut) => 0
  }

  ghost predicate Legal(f: Waterfall) {
    f.pending >= 0 && f.available >= 0 && f.withheld >= 0 && f.debt >= 0
  }

  /** The entries of a reversal, bucket by bucket. */
  lemma ReversalSums(f: Waterfall, seller: SellerOrderId, affiliate: AffiliateId, tag: RefundTag, w: Where)
    requires Legal(f)
    ensures Sum(ReversalEntries(f, seller, affiliate, tag), w) ==
              if w.affiliate == affiliate && (w.seller == None || w.seller == Some(seller)) then -TakenFrom(f, w.bucket) else 0
  {
    var lp := Leg(seller, affiliate, Pending, f.pending, tag);
    var la := Leg(seller, affiliate, Available, f.available, tag);
    var lw := Leg(seller, affiliate, Withheld, f.withheld, tag);
    var ld := DebtLeg(seller, affiliate, f.debt, tag);
    SumConcat(lp, la, w);
    SumConcat(lp + la, lw, w);
    SumConcat(lp + la + lw, ld, w);
    SumLeg(seller, affiliate, Pending, f.pending, tag, w);
    SumLeg(seller, affiliate, Available, f.available, tag, w);
    SumLeg(seller, affiliate, Withheld, f.withheld, tag, w);
    SumDebtLeg(seller, affiliate, f.debt, tag, w);
  }

  lemma ReversalKeys(f: Waterfall, seller: SellerOrderId, affiliate: AffiliateId, tag: RefundTag)
    ensures var es := ReversalEntries(f, seller, affiliate, tag);
            && UniqueKeys(es)
            && forall e <- es :: e.affiliate == affiliate && e.seller == Some(seller) && e.kind == SaleReversed
                              && (e.key == ReversalKey(seller, tag, e.bucket) || (e.key == DebtKey(seller, tag) && e.bucket == Available))
  {
  }

  lemma ReversalAppends(entries: seq<Entry>, seller: SellerOrderId, affiliate: AffiliateId, debit: int, tag: RefundTag)
    requires FreshRefund(entries, seller, tag)
    ensures ReverseLiability(entries, seller, affiliate, debit, tag)
              == entries + ReversalEntries(Split(entries, seller, affiliate, debit), seller, affiliate, tag)
  {
    var f := Split(entries, seller, affiliate, debit);
    ReversalKeys(f, seller, affiliate, tag);
    UpsertAllFresh(entries, ReversalEntries(f, seller, affiliate, tag));
  }

  /**
   The waterfall debits exactly the requested amount, whatever the ledger held before, and never
   takes the order's Pending or Withheld balance below zero.
   */
  lemma ReversalExact(entries: seq<Entry>, seller: SellerOrderId, affiliate: AffiliateId, debit: int, tag: RefundTag)
    requires debit > 0 && FreshRefund(entries, seller, tag)
    ensures var after := ReverseLiability(entries, seller, affiliate, debit, tag);
            && (forall s :: s == None || s == Some(seller) ==>
                  Sum(after, Where(affiliate, None, s)) == Sum(entries, Where(affiliate, None, s)) - debit)
            && (forall b | b in {Pending, Withheld} ::
                  var before := BalanceOf(entries, affiliate, b, seller);
                  Min(before, 0) <= BalanceOf(after, affiliate, b, seller) <= before)
            && (forall w: Where | w.affiliate != affiliate :: Sum(after, w) == Sum(entries, w))
  {
    var f := Split(entries, seller, affiliate, debit);
    var es := ReversalEntries(f, seller, affiliate, tag);
    ReversalAppends(entries, seller, affiliate, debit, tag);
    forall w: Where
      ensures Sum(entries + es, w) == Sum(entries, w)
                - if w.affiliate == affiliate && (w.seller == None || w.seller == Some(seller)) then TakenFrom(f, w.bucket) else 0
    {
      SumConcat(entries, es, w);
      ReversalSums(f, seller, affiliate, tag, w);
    }
  }

  /** A reversal is a single entry in Pending, creating no debt, exactly when Pending covers the debit. */
  lemma ReversalFromPendingIff(entries: seq<Entry>, seller: SellerOrderId, affiliate: AffiliateId, debit: int, tag: RefundTag)
    requires debit > 0 && FreshRefund(entries, seller, tag)
    ensures BalanceOf(entries, affiliate, Pending, seller) >= debit <==>
              ReverseLiability(entries, seller, affiliate, debit, tag)
                == entries + [Entry(affiliate, Some(seller), None, Pending, SaleReversed, -debit, ReversalKey(seller, tag, Pending))]
  {
    var after := ReverseLiability(entries, seller, affiliate, debit, tag);
    var f := Split(entries, seller, affiliate, debit);
    var one := Entry(affiliate, Some(seller), None, Pending, SaleReversed, -debit, ReversalKey(seller, tag, Pending));
    ReversalAppends(entries, seller, affiliate, debit, tag);
    if after == entries + [one] {
      var w := Where(affiliate, Some(Pending), Some(seller));
      SumConcat(entries, ReversalEntries(f, seller, affiliate, tag), w);
      ReversalSums(f, seller, affiliate, tag, w);
      SumConcat(entries, [one], w);
      SumOne(one, w);
    }
  }

  // ---------- Release ----------

  ghost predicate FreshRelease(entries: seq<Entry>, seller: SellerOrderId, tag: ReleaseTag) {
    forall e <- entries :: !(e.key.ReleaseKey? && e.key.seller == seller && e.key.release == tag)
  }

  /** A release is a pair of cancelling entries that empties Pending into Available. */
  lemma ReleaseExact(entries: seq<Entry>, seller: SellerOrderId, affiliate: AffiliateId, tag: ReleaseTag)
    requires FreshRelease(entries, seller, tag)
    ensures var es := ReleaseEntries(entries, seller, affiliate, tag);
            var after := Release(entries, seller, affiliate, tag);
            var pending := BalanceOf(entries, affiliate, Pending, seller);
            && after == entries + es
            && (forall e <- es :: e.affiliate == affiliate && e.seller == Some(seller) && e.kind == SaleReleased
                               && e.bucket in {Pending, Available} && e.key in {ReleaseKey(seller, tag, false), ReleaseKey(seller, tag, true)})
            && BalanceOf(after, affiliate, Pending, seller) == Min(pending, 0)
            && BalanceOf(after, affiliate, Available, seller) == BalanceOf(entries, affiliate, Available, seller) + Max(pending, 0)
            && (forall w: Where | w.bucket == None :: Sum(after, w) == Sum(entries, w))
            && (forall w: Where | w.bucket in {Some(Withheld), Some(PaidOut)} :: Sum(after, w) == Sum(entries, w))
  {
    var es := ReleaseEntries(entries, seller, affiliate, tag);
    UpsertAllFresh(entries, es);
    forall w: Where ensures Sum(entries + es, w) == Sum(entries, w) + if es == [] then 0 else Sum([es[0], es[1]], w) {
      SumConcat(entries, es, w);
    }
    if es != [] {
      forall w: Where ensures Sum([es[0], es[1]], w) == (if Matches(es[0], w) then es[0].amount else 0) + (if Matches(es[1], w) then es[1].amount else 0) {
        SumTwo(es[0], es[1], w);
      }
    }
  }

  // ---------- Payouts ----------

  lemma {:induction false} InStatusUpdate(payouts: seq<Payout>, id: nat, p: Payout, a: AffiliateId, statuses: set<PayoutStatus>)
    requires id < |payouts| && p.affiliate == payouts[id].affiliate && p.amount == payouts[id].amount
    ensures InStatus(payouts[id := p], a, statuses) == InStatus(payouts, a, statuses)
              + (if p.affiliate == a && p.status in statuses then p.amount else 0)
              - (if p.affiliate == a && payouts[id].status in statuses then p.amount else 0)
  {
    var n := |payouts| - 1;
    if id < n {
      InStatusUpdate(payouts[..n], id, p, a, statuses);
      assert payouts[id := p][..n] == payouts[..n][id := p];
    } else {
      assert payouts[id := p][..n] == payouts[..n];
    }
  }

  /** A pair of cancelling entries conserves every total over all buckets. */
  lemma PairSums(entries: seq<Entry>, e: Entry, f: Entry)
    requires e.affiliate == f.affiliate && e.seller == f.seller && e.amount == -f.amount
    ensures forall w: Where :: Sum(entries + [e, f], w) == Sum(entries, w)
                                 + (if Matches(e, w) then e.amount else 0) + (if Matches(f, w) then f.amount else 0)
    ensures forall w: Where | w.bucket == None :: Sum(entries + [e, f], w) == Sum(entries, w)
  {
    forall w: Where ensures Sum(entries + [e, f], w) == Sum(entries, w)
                              + (if Matches(e, w) then e.amount else 0) + (if Matches(f, w) then f.amount else 0) {
      SumConcat(entries, [e, f], w);
      SumTwo(e, f, w);
    }
  }

  lemma NoPayoutKey(b: Books, id: nat, leg: PayoutLeg)
    requires EntriesOk(b)
    requires id >= |b.payouts| || (b.payouts[id].status == Processing && leg !in {RequestAvailable, RequestWithheld})
    ensures !HasKey(b.entries, PayoutKey(id, leg))
  {
  }

  /**
   A payout request succeeds exactly when the amount is positive and available; it conserves the
   affiliate's total, keeps the books valid and never makes Available negative.
   */
  lemma RequestPayoutFacts(b: Books, affiliate: AffiliateId, amount: int)
    requires Inv(b)
    ensures var r := RequestPayout(b, affiliate, amount);
            && (r.Success? <==> 0 < amount <= Sum(b.entries, Where(affiliate, Some(Available), None)))
            && (r.Success? ==>
                  && Inv(r.value)
                  && (forall w: Where | w.bucket == None :: Sum(r.value.entries, w) == Sum(b.entries, w))
                  && Sum(r.value.entries, Where(affiliate, Some(Available), None)) == Sum(b.entries, Where(affiliate, Some(Available), None)) - amount >= 0)
  {
    var id := |b.payouts|;
    NoPayoutKey(b, id, RequestAvailable);
    NoPayoutKey(b, id, RequestWithheld);
    var r := RequestPayout(b, affiliate, amount);
    if 0 < amount <= Sum(b.entries, Where(affiliate, Some(Available), None)) {
      var p := Payout(affiliate, amount, Requested, 1);
      var e := PayoutEntry(p, id, Available, PayoutReserved, -amount, RequestAvailable);
      var f := PayoutEntry(p, id, Withheld, PayoutReserved, amount, RequestWithheld);
      PairSums(b.entries, e, f);
      assert r.value.payouts[..id] == b.payouts;
      forall x | x in r.value.entries ensures EntryOk(x, r.value.payouts) {
        if x in b.entries { assert EntryOk(x, b.payouts); }
      }
    }
  }

  /** The pair of entries that closes a processing payout, and the status it leaves. */
  ghost function Closing(p: Payout, id: nat, decision: Decision): (Entry, Entry, PayoutStatus)
    requires decision != Process
  {
    if decision == Pay then
      (PayoutEntry(p, id, Withheld, PayoutPaid, -p.amount, PaidWithheld), PayoutEntry(p, id, PaidOut, PayoutPaid, p.amount, PaidPaid), Paid)
    else
      (PayoutEntry(p, id, Withheld, PayoutReleased, -p.amount, RejectedWithheld), PayoutEntry(p, id, Available, PayoutReleased, p.amount, RejectedAvailable), Rejected)
  }

  lemma ClosePayoutResult(b: Books, id: nat, decision: Decision)
    requires EntriesOk(b) && id < |b.payouts| && b.payouts[id].status == Processing && decision != Process
    ensures var (e, f, status) := Closing(b.payouts[id], id, decision);
            DecidePayout(b, id, b.payouts[id].version, decision)
              == Success(Books(b.entries + [e, f], b.payouts[id := b.payouts[id].(status := status, version := b.payouts[id].version + 1)]))
  {
  }

  /** Closing a payout keeps the books valid. */
  lemma ClosePayoutKeepsInv(b: Books, id: nat, decision: Decision)
    requires Inv(b) && id < |b.payouts| && b.payouts[id].status == Processing && decision != Process
    ensures DecidePayout(b, id, b.payouts[id].version, decision).Success?
    ensures Inv(DecidePayout(b, id, b.payouts[id].version, decision).value)
  {
    var p := b.payouts[id];
    var (e, f, status) := Closing(p, id, decision);
    ClosePayoutResult(b, id, decision);
    ClosingSums(b, id, decision);
    DecideKeepsInv(b, Books(b.entries + [e, f], b.payouts[id := p.(status := status, version := p.version + 1)]), id, status);
  }

  lemma ClosingSums(b: Books, id: nat, decision: Decision)
    requires id < |b.payouts| && decision != Process
    ensures var p := b.payouts[id];
            var (e, f, status) := Closing(p, id, decision);
            forall a: AffiliateId ::
              && Sum(b.entries + [e, f], Where(a, Some(Withheld), None)) == Sum(b.entries, Where(a, Some(Withheld), None)) - (if a == p.affiliate then p.amount else 0)
              && Sum(b.entries + [e, f], Where(a, Some(PaidOut), None)) == Sum(b.entries, Where(a, Some(PaidOut), None)) + (if a == p.affiliate && status == Paid then p.amount else 0)
  {
    var (e, f, status) := Closing(b.payouts[id], id, decision);
    PairSums(b.entries, e, f);
  }

  /** Closing a payout moves money between buckets without creating or losing any. */
  lemma ClosePayoutConserves(b: Books, id: nat, decision: Decision)
    requires Inv(b) && id < |b.payouts| && b.payouts[id].status == Processing && decision != Process
    ensures var r := DecidePayout(b, id, b.payouts[id].version, decision);
            && r.Success?
            && (forall w: Where | w.bucket == None :: Sum(r.value.entries, w) == Sum(b.entries, w))
            && (forall a: AffiliateId :: Sum(r.value.entries, Where(a, Some(Available), None)) >= Sum(b.entries, Where(a, Some(Available), None)))
  {
    var p := b.payouts[id];
    assert p in b.payouts && p.amount > 0;
    var (e, f, status) := Closing(p, id, decision);
    ClosePayoutResult(b, id, decision);
    PairSums(b.entries, e, f);
  }

  /**
   A decision is accepted exactly in the expected version and status; every accepted decision keeps
   the books valid, conserves every total over all buckets and never lowers Available.
   */
  lemma DecidePayoutFacts(b: Books, id: nat, expectedVersion: nat, decision: Decision)
    requires Inv(b)
    ensures var r := DecidePayout(b, id, expectedVersion, decision);
            && (r.Success? <==> (&& id < |b.payouts| && b.payouts[id].version == expectedVersion
                                 && b.payouts[id].status == if decision == Process then Requested else Processing))
            && (r.Success? ==>
                  && Inv(r.value)
                  && (forall w: Where | w.bucket == None :: Sum(r.value.entries, w) == Sum(b.entries, w))
                  && (forall a: AffiliateId :: Sum(r.value.entries, Where(a, Some(Available), None)) >= Sum(b.entries, Where(a, Some(Available), None))))
  {
    if id < |b.payouts| && b.payouts[id].version == expectedVersion {
      if decision == Process && b.payouts[id].status == Requested {
        DecideKeepsInv(b, DecidePayout(b, id, expectedVersion, decision).value, id, Processing);
      } else if decision != Process && b.payouts[id].status == Processing {
        ClosePayoutKeepsInv(b, id, decision);
        ClosePayoutConserves(b, id, decision);
      }
    }
  }

  lemma DecideKeepsInv(b: Books, c: Books, id: nat, status: PayoutStatus)
    requires Inv(b) && id < |b.payouts| && b.payouts[id].status == (if status == Processing then Requested else Processing) && status != Requested
    requires c.payouts == b.payouts[id := b.payouts[id].(status := status, version := b.payouts[id].version + 1)]
    requires forall e <- c.entries :: e in b.entries || (e.key.PayoutKey? && EntryOk(e, c.payouts))
    requires forall a: AffiliateId ::
               Sum(c.entries, Where(a, Some(Withheld), None)) == Sum(b.entries, Where(a, Some(Withheld), None))
                 - (if a == b.payouts[id].affiliate && status != Processing then b.payouts[id].amount else 0)
    requires forall a: AffiliateId ::
               Sum(c.entries, Where(a, Some(PaidOut), None)) == Sum(b.entries, Where(a, Some(PaidOut), None))
                 + (if a == b.payouts[id].affiliate && status == Paid then b.payouts[id].amount else 0)
    ensures Inv(c)
  {
    forall a: AffiliateId
      ensures Sum(c.entries, Where(a, Some(Withheld), None)) == InStatus(c.payouts, a, {Requested, Processing})
      ensures Sum(c.entries, Where(a, Some(PaidOut), None)) == InStatus(c.payouts, a, {Paid})
    {
      InStatusUpdate(b.payouts, id, c.payouts[id], a, {Requested, Processing});
      InStatusUpdate(b.payouts, id, c.payouts[id], a, {Paid});
    }
    forall e | e in c.entries ensures EntryOk(e, c.payouts) {
      if e in b.entries { assert EntryOk(e, b.payouts); }
    }
    forall p | p in c.payouts ensures p.amount > 0 {
      var k :| 0 <= k < |c.payouts| && c.payouts[k] == p;
      assert b.payouts[k] in b.payouts;
    }
  }

  /** Sale entries leave every payout reservation where it is. */
  lemma SaleEntriesKeepInv(b: Books, es: seq<Entry>)
    requires Inv(b) && forall e <- es :: SaleEntryOk(e)
    ensures Inv(b.(entries := b.entries + es))
  {
    var c := b.(entries := b.entries + es);
    forall a: AffiliateId, bucket | bucket in {Withheld, PaidOut}
      ensures Sum(c.entries, Where(a, Some(bucket), None)) == Sum(b.entries, Where(a, Some(bucket), None))
    {
      SumConcat(b.entries, es, Where(a, Some(bucket), None));
      SumNone(es, Where(a, Some(bucket), None));
    }
  }

  /** No reserved entry carries a seller order, so a reversal can never eat a payout reservation. */
  lemma NothingWithheldForSeller(b: Books, affiliate: AffiliateId, seller: SellerOrderId)
    requires EntriesOk(b)
    ensures BalanceOf(b.entries, affiliate, Withheld, seller) == 0
  {
    forall e | e in b.entries ensures !Matches(e, Where(affiliate, Some(Withheld), Some(seller))) {
      assert EntryOk(e, b.payouts);
    }
    SumNone(b.entries, Where(affiliate, Some(Withheld), Some(seller)));
  }

  // ---------- Where a payout moves money ----------

  /** `amount` moved between two buckets of one affiliate, and nothing else moved. */
  ghost predicate MovedBetween(before: seq<Entry>, after: seq<Entry>, a: AffiliateId, from: Bucket, to: Bucket, amount: int) {
    && (forall x: AffiliateId, k: Bucket ::
          Sum(after, Where(x, Some(k), None)) == Sum(before, Where(x, Some(k), None)) + (if x != a then 0 else if k == to then amount else if k == from then -amount else 0))
    && (forall w: Where | w.seller.Some? :: Sum(after, w) == Sum(before, w))
  }

  lemma PairMoves(before: seq<Entry>, a: AffiliateId, from: Bucket, to: Bucket, amount: int, e: Entry, f: Entry)
    requires from != to && e.affiliate == f.affiliate == a && e.seller == f.seller == None
    requires e.bucket == from && e.amount == -amount && f.bucket == to && f.amount == amount
    ensures MovedBetween(before, before + [e, f], a, from, to, amount)
  {
    PairSums(before, e, f);
  }

  /** A request sets the amount aside from what is available, as a new payout. */
  lemma RequestPayoutMoves(b: Books, affiliate: AffiliateId, amount: int)
    requires Inv(b) && RequestPayout(b, affiliate, amount).Success?
    ensures var c := RequestPayout(b, affiliate, amount).value;
            && MovedBetween(b.entries, c.entries, affiliate, Available, Withheld, amount)
            && c.payouts == b.payouts + [Payout(affiliate, amount, PayoutStatus.Requested, 1)]
  {
    var p := Payout(affiliate, amount, Requested, 1);
    PairMoves(b.entries, affiliate, Available, Withheld, amount,
              PayoutEntry(p, |b.payouts|, Available, PayoutReserved, -amount, RequestAvailable),
              PayoutEntry(p, |b.payouts|, Withheld, PayoutReserved, amount, RequestWithheld));
  }

  /** Processing moves nothing; paying moves what is set aside to paid out; rejecting makes it available again. */
  lemma DecidePayoutMoves(b: Books, id: nat, v: nat, decision: Decision)
    requires Inv(b) && DecidePayout(b, id, v, decision).Success?
    ensures var (p, c) := (b.payouts[id], DecidePayout(b, id, v, decision).value);
            match decision
            case Process => c == b.(payouts := b.payouts[id := p.(status := PayoutStatus.Processing, version := v + 1)])
            case Pay =>
              && c.payouts == b.payouts[id := p.(status := PayoutStatus.Paid, version := v + 1)]
              && MovedBetween(b.entries, c.entries, p.affiliate, Withheld, PaidOut, p.amount)
            case Reject =>
              && c.payouts == b.payouts[id := p.(status := PayoutStatus.Rejected, version := v + 1)]
              && MovedBetween(b.entries, c.entries, p.affiliate, Withheld, Available, p.amount)
  {
    var p := b.payouts[id];
    match decision
    case Process =>
    case Pay =>
      PairMoves(b.entries, p.affiliate, Withheld, PaidOut, p.amount,
                PayoutEntry(p, id, Withheld, PayoutPaid, -p.amount, PaidWithheld), PayoutEntry(p, id, PaidOut, PayoutPaid, p.amount, PaidPaid));
    case Reject =>
      PairMoves(b.entries, p.affiliate, Withheld, Available, p.amount,
                PayoutEntry(p, id, Withheld, PayoutReleased, -p.amount, RejectedWithheld),
                PayoutEntry(p, id, Available, PayoutReleased, p.amount, RejectedAvailable));
  }
}
