/** The ledger and payout tables, written row by row inside a transaction. */
module LedgerTables {
  import opened Wrappers
  import opened Ledger

  /** Entries of one bucket do not change the balance of another. */
  lemma {:induction false} OtherBucketUnchanged(entries: seq<Entry>, es: seq<Entry>, affiliate: AffiliateId, bucket: Bucket, seller: SellerOrderId)
    requires forall e <- es :: e.bucket != bucket
    ensures BalanceOf(UpsertAll(entries, es), affiliate, bucket, seller) == BalanceOf(entries, affiliate, bucket, seller)
  {
    if es != [] {
      OtherBucketUnchanged(entries, es[..|es| - 1], affiliate, bucket, seller);
      assert es[|es| - 1] in es;
    }
  }

  lemma UpsertAllLeg(entries: seq<Entry>, es: seq<Entry>, one: seq<Entry>)
    requires |one| <= 1
    ensures UpsertAll(entries, es + one) == if one == [] then UpsertAll(entries, es) else Upsert(UpsertAll(entries, es), one[0])
  {
    if one == [] {
      assert es + one == es;
    } else {
      assert (es + one)[..|es + one| - 1] == es;
    }
  }

  ghost function TakenTo(w: Waterfall, k: nat): int {
    if k == 0 then 0 else if k == 1 then w.pending else if k == 2 then w.pending + w.available else w.pending + w.available + w.withheld
  }

  /** The entries of the first `k` buckets of a waterfall. */
  ghost function LegsTo(w: Waterfall, seller: SellerOrderId, affiliate: AffiliateId, tag: RefundTag, k: nat): seq<Entry> {
    if k == 0 then [] else
    if k == 1 then Leg(seller, affiliate, Pending, w.pending, tag) else
    if k == 2 then Leg(seller, affiliate, Pending, w.pending, tag) + Leg(seller, affiliate, Available, w.available, tag) else
    Leg(seller, affiliate, Pending, w.pending, tag) + Leg(seller, affiliate, Available, w.available, tag) + Leg(seller, affiliate, Withheld, w.withheld, tag)
  }

  ghost function PartOf(w: Waterfall, k: nat): int {
    if k == 0 then w.pending else if k == 1 then w.available else w.withheld
  }

  const BUCKETS := [Pending, Available, Withheld]

  lemma LegsStep(w: Waterfall, seller: SellerOrderId, affiliate: AffiliateId, tag: RefundTag, k: nat)
    requires k < 3
    ensures LegsTo(w, seller, affiliate, tag, k + 1) == LegsTo(w, seller, affiliate, tag, k) + Leg(seller, affiliate, BUCKETS[k], PartOf(w, k), tag)
    ensures TakenTo(w, k + 1) == TakenTo(w, k) + PartOf(w, k)
    ensures forall e <- LegsTo(w, seller, affiliate, tag, k) :: e.bucket != BUCKETS[k]
  {
  }

  lemma CoverStep(entries: seq<Entry>, seller: SellerOrderId, affiliate: AffiliateId, debit: int, tag: RefundTag, k: nat)
    requires k < 3 && debit > 0
    ensures var w := Split(entries, seller, affiliate, debit);
            var now := UpsertAll(entries, LegsTo(w, seller, affiliate, tag, k));
            PartOf(w, k) == Covered(BalanceOf(now, affiliate, BUCKETS[k], seller), debit - TakenTo(w, k))
  {
    var w := Split(entries, seller, affiliate, debit);
    LegsStep(w, seller, affiliate, tag, k);
    OtherBucketUnchanged(entries, LegsTo(w, seller, affiliate, tag, k), affiliate, BUCKETS[k], seller);
  }

  /** Stopping early writes the same entries: the remaining buckets have nothing to cover. */
  lemma NothingLeft(w: Waterfall, seller: SellerOrderId, affiliate: AffiliateId, tag: RefundTag, k: nat, remaining: int)
    requires k <= 3 && w.pending >= 0 && w.available >= 0 && w.withheld >= 0 && w.debt >= 0
    requires remaining == w.pending + w.available + w.withheld + w.debt - TakenTo(w, k)
    requires remaining == 0 || k == 3
    ensures LegsTo(w, seller, affiliate, tag, k) == LegsTo(w, seller, affiliate, tag, 3) && remaining == w.debt
  {
  }

  lemma DebtComesLast(entries: seq<Entry>, w: Waterfall, seller: SellerOrderId, affiliate: AffiliateId, tag: RefundTag)
    ensures var covered := UpsertAll(entries, LegsTo(w, seller, affiliate, tag, 3));
            UpsertAll(entries, ReversalEntries(w, seller, affiliate, tag)) ==
              if w.debt <= 0 then covered
              else Upsert(covered, Entry(affiliate, Some(seller), None, Available, SaleReversed, -w.debt, DebtKey(seller, tag)))
  {
    UpsertAllLeg(entries, LegsTo(w, seller, affiliate, tag, 3), DebtLeg(seller, affiliate, w.debt, tag));
    assert ReversalEntries(w, seller, affiliate, tag) == LegsTo(w, seller, affiliate, tag, 3) + DebtLeg(seller, affiliate, w.debt, tag);
  }

  class LedgerTables {
    var entries: seq<Entry>
    var payouts: seq<Payout>

    constructor ()
      ensures Snapshot() == Books([], [])
    {
      entries, payouts := [], [];
    }

    function Snapshot(): Books
      reads this
    {
      Books(entries, payouts)
    }

    method Restore(b: Books)
      modifies this
      ensures Snapshot() == b
    {
      entries, payouts := b.entries, b.payouts;
    }

    /** `createLedgerEntry`: an existing dedupe key makes the write a no-op. */
    method CreateLedgerEntry(e: Entry)
      modifies this`entries
      ensures entries == Upsert(old(entries), e)
    {
      if !HasKey(entries, e.key) {
        entries := entries + [e];
      }
    }

    method ReleaseAffiliateEarnings(seller: SellerOrderId, affiliate: AffiliateId, tag: ReleaseTag)
      modifies this`entries
      ensures entries == Release(old(entries), seller, affiliate, tag)
    {
      var pending := BalanceOf(entries, affiliate, Pending, seller);
      var amount := if pending > 0 then pending else 0;
      if amount == 0 {
        return;
      }
      ghost var es := ReleaseEntries(entries, seller, affiliate, tag);
      UpsertAllLeg(entries, [], [es[0]]);
      UpsertAllLeg(entries, [es[0]], [es[1]]);
      assert [] + [es[0]] == [es[0]] && [es[0]] + [es[1]] == es;
      CreateLedgerEntry(Entry(affiliate, Some(seller), None, Pending, SaleReleased, -amount, ReleaseKey(seller, tag, false)));
      CreateLedgerEntry(Entry(affiliate, Some(seller), None, Available, SaleReleased, amount, ReleaseKey(seller, tag, true)));
    }

    /** The waterfall loop: each bucket in turn covers what it can of the remaining debit. */
    method CoverFromBuckets(seller: SellerOrderId, affiliate: AffiliateId, debit: int, tag: RefundTag) returns (remaining: int)
      requires debit > 0
      modifies this`entries
      ensures remaining == Split(old(entries), seller, affiliate, debit).debt
      ensures entries == UpsertAll(old(entries), LegsTo(Split(old(entries), seller, affiliate, debit), seller, affiliate, tag, 3))
    {
      remaining := debit;
      ghost var w := Split(entries, seller, affiliate, debit);
      var k := 0;
      while k < 3 && remaining > 0
        invariant 0 <= k <= 3 && remaining == debit - TakenTo(w, k)
        invariant entries == UpsertAll(old(entries), LegsTo(w, seller, affiliate, tag, k))
        decreases 3 - k
      {
        var bucket := BUCKETS[k];
        var balance := BalanceOf(entries, affiliate, bucket, seller);
        var covered := if balance > 0 then (if balance < remaining then balance else remaining) else 0;
        CoverStep(old(entries), seller, affiliate, debit, tag, k);
        assert covered == PartOf(w, k);
        LegsStep(w, seller, affiliate, tag, k);
        UpsertAllLeg(old(entries), LegsTo(w, seller, affiliate, tag, k), Leg(seller, affiliate, bucket, covered, tag));
        k := k + 1;
        if covered <= 0 {
          continue;
        }
        CreateLedgerEntry(Entry(affiliate, Some(seller), None, bucket, SaleReversed, -covered, ReversalKey(seller, tag, bucket)));
        remaining := remaining - covered;
      }
      NothingLeft(w, seller, affiliate, tag, k, remaining);
    }

    method ReverseAffiliateLiability(seller: SellerOrderId, affiliate: AffiliateId, debit: int, tag: RefundTag)
      modifies this`entries
      ensures entries == if debit <= 0 then old(entries) else ReverseLiability(old(entries), seller, affiliate, debit, tag)
    {
      if debit <= 0 {
        return;
      }
      ghost var w := Split(entries, seller, affiliate, debit);
      var remaining := CoverFromBuckets(seller, affiliate, debit, tag);
      DebtComesLast(old(entries), w, seller, affiliate, tag);
      if remaining > 0 {
        CreateLedgerEntry(Entry(affiliate, Some(seller), None, Available, SaleReversed, -remaining, DebtKey(seller, tag)));
      }
    }

    method RequestPayoutOf(affiliate: AffiliateId, amount: int) returns (r: Result<(), Error>)
      modifies this
      ensures match RequestPayout(old(Snapshot()), affiliate, amount)
              case Success(b) => r.Success? && Snapshot() == b
              case Failure(e) => r == Failure(e)
    {
      if amount <= 0 {
        return Failure(PayoutAmountInvalid);
      }
      if Sum(entries, Where(affiliate, Some(Available), None)) < amount {
        return Failure(InsufficientBalance);
      }
      var id := |payouts|;
      payouts := payouts + [Payout(affiliate, amount, Requested, 1)];
      r := CreatePair(PayoutEntry(payouts[id], id, Available, PayoutReserved, -amount, RequestAvailable),
                      PayoutEntry(payouts[id], id, Withheld, PayoutReserved, amount, RequestWithheld));
    }

    method CreatePair(first: Entry, second: Entry) returns (r: Result<(), Error>)
      modifies this`entries
      ensures match PostPair(old(Snapshot()), first, second)
              case Success(b) => r.Success? && Snapshot() == b
              case Failure(e) => r == Failure(e)
    {
      if HasKey(entries, first.key) {
        return Failure(DuplicateKey);
      }
      entries := entries + [first];
      if HasKey(entries, second.key) {
        return Failure(DuplicateKey);
      }
      entries := entries + [second];
      assert entries == old(entries) + [first, second];
      r := Success(());
    }

    method ProcessPayout(id: nat, expectedVersion: nat, decision: Decision) returns (r: Result<(), Error>)
      modifies this
      ensures match DecidePayout(old(Snapshot()), id, expectedVersion, decision)
              case Success(b) => r.Success? && Snapshot() == b
              case Failure(e) => r == Failure(e)
    {
      if id >= |payouts| {
        return Failure(PayoutNotFound);
      }
      var payout := payouts[id];
      if decision == Process {
        if payout.status != Requested || payout.version != expectedVersion {
          return Failure(PayoutChanged);
        }
        payouts := payouts[id := payout.(status := Processing, version := payout.version + 1)];
        return Success(());
      }
      if payout.status != Processing || payout.version != expectedVersion {
        return Failure(PayoutChanged);
      }
      payouts := payouts[id := payout.(status := if decision == Pay then Paid else Rejected, version := payout.version + 1)];
      if decision == Pay {
        r := CreatePair(PayoutEntry(payout, id, Withheld, PayoutPaid, -payout.amount, PaidWithheld),
                        PayoutEntry(payout, id, PaidOut, PayoutPaid, payout.amount, PaidPaid));
      } else {
        r := CreatePair(PayoutEntry(payout, id, Withheld, PayoutReleased, -payout.amount, RejectedWithheld),
                        PayoutEntry(payout, id, Available, PayoutReleased, payout.amount, RejectedAvailable));
      }
    }
  }
}
