/**
 The affiliate ledger: append-only signed entries in four buckets, written at most once per
 dedupe key, and the payouts that move money between buckets.

 The source writes dedupe keys as text such as `sale-reversal:<id>:<suffix>:<bucket>`.  Here a
 key is a value with the same components, so two keys are equal exactly when all components are.
 */
module Ledger {
  import opened Wrappers

  type AffiliateId = nat

  datatype SellerOrderId = SellerOrderId(order: nat, index: nat)

  datatype Bucket = Pending | Available | Withheld | PaidOut

  datatype Actor = Affiliate | Admin | Buyer | System

  datatype EntryKind = SalePending | SaleReleased | SaleReversed | PayoutReserved | PayoutPaid | PayoutReleased

  /** The suffix that tells two releases of one seller order apart. */
  datatype ReleaseTag = ByActor(actor: Actor, version: nat) | ByIssue(issue: nat)

  /** The suffix that tells two reversals of one seller order apart. */
  datatype RefundTag =
    | IssueRefund(issue: nat, full: bool)
    | CancellationRefund(request: nat)
    | SellerOrderRefund(version: nat)
    | ParentRefund(order: nat)

  datatype PayoutLeg = RequestAvailable | RequestWithheld | PaidWithheld | PaidPaid | RejectedWithheld | RejectedAvailable

  datatype Key =
    | SaleKey(seller: SellerOrderId)
    | ReleaseKey(seller: SellerOrderId, release: ReleaseTag, toAvailable: bool)
    | ReversalKey(seller: SellerOrderId, refund: RefundTag, bucket: Bucket)
    | DebtKey(seller: SellerOrderId, refund: RefundTag)
    | PayoutKey(payout: nat, leg: PayoutLeg)

  datatype Entry = Entry(affiliate: AffiliateId, seller: Option<SellerOrderId>, payout: Option<nat>,
                         bucket: Bucket, kind: EntryKind, amount: int, key: Key)

  datatype PayoutStatus = Requested | Processing | Paid | Rejected

  datatype Payout = Payout(affiliate: AffiliateId, amount: int, status: PayoutStatus, version: nat)

  datatype Error = InsufficientBalance | PayoutNotFound | PayoutChanged | DuplicateKey | PayoutAmountInvalid

  // ---------- Queries and writes ----------

  /** The filter of an aggregate query; a missing component matches everything. */
  datatype Where = Where(affiliate: AffiliateId, bucket: Option<Bucket>, seller: Option<SellerOrderId>)

  predicate Matches(e: Entry, w: Where) {
    && e.affiliate == w.affiliate
    && (w.bucket.Some? ==> e.bucket == w.bucket.value)
    && (w.seller.Some? ==> e.seller == w.seller)
  }

  function Sum(entries: seq<Entry>, w: Where): int {
    if entries == [] then 0 else
      var last := entries[|entries| - 1];
      Sum(entries[..|entries| - 1], w) + if Matches(last, w) then last.amount else 0
  }

  predicate HasKey(entries: seq<Entry>, key: Key) {
    exists e <- entries :: e.key == key
  }

  /** The unique key of the ledger table. */
  ghost predicate UniqueKeys(entries: seq<Entry>) {
    forall j, k | 0 <= j < k < |entries| :: entries[j].key != entries[k].key
  }

  function Upsert(entries: seq<Entry>, e: Entry): seq<Entry> {
    if HasKey(entries, e.key) then entries else entries + [e]
  }

  function UpsertAll(entries: seq<Entry>, es: seq<Entry>): seq<Entry> {
    if es == [] then entries else Upsert(UpsertAll(entries, es[..|es| - 1]), es[|es| - 1])
  }

  function BalanceOf(entries: seq<Entry>, affiliate: AffiliateId, bucket: Bucket, seller: SellerOrderId): int {
    Sum(entries, Where(affiliate, Some(bucket), Some(seller)))
  }

  // ---------- Sales ----------

  function SaleEntry(seller: SellerOrderId, affiliate: AffiliateId, net: int): Entry {
    Entry(affiliate, Some(seller), None, Pending, SalePending, net, SaleKey(seller))
  }

  predicate HasSale(entries: seq<Entry>, seller: SellerOrderId) {
    exists e <- entries :: e.seller == Some(seller) && e.kind == SalePending
  }

  function ReleaseEntries(entries: seq<Entry>, seller: SellerOrderId, affiliate: AffiliateId, tag: ReleaseTag): seq<Entry> {
    var pending := BalanceOf(entries, affiliate, Pending, seller);
    if pending <= 0 then [] else
      [Entry(affiliate, Some(seller), None, Pending, SaleReleased, -pending, ReleaseKey(seller, tag, false)),
       Entry(affiliate, Some(seller), None, Available, SaleReleased, pending, ReleaseKey(seller, tag, true))]
  }

  /** `releaseAffiliateEarnings`: what is pending for the order becomes available. */
  function Release(entries: seq<Entry>, seller: SellerOrderId, affiliate: AffiliateId, tag: ReleaseTag): seq<Entry> {
    UpsertAll(entries, ReleaseEntries(entries, seller, affiliate, tag))
  }

  /** How much of `wanted` a bucket holding `balance` can cover. */
  function Covered(balance: int, wanted: int): int {
    if balance <= 0 || wanted <= 0 then 0 else Min(balance, wanted)
  }

  function Leg(seller: SellerOrderId, affiliate: AffiliateId, bucket: Bucket, amount: int, tag: RefundTag): seq<Entry> {
    if amount <= 0 then [] else
      [Entry(affiliate, Some(seller), None, bucket, SaleReversed, -amount, ReversalKey(seller, tag, bucket))]
  }

  function DebtLeg(seller: SellerOrderId, affiliate: AffiliateId, amount: int, tag: RefundTag): seq<Entry> {
    if amount <= 0 then [] else
      [Entry(affiliate, Some(seller), None, Available, SaleReversed, -amount, DebtKey(seller, tag))]
  }

  /** What a reversal takes from each bucket, and what is left as debt. */
  datatype Waterfall = Waterfall(pending: int, available: int, withheld: int, debt: int)

  /** The closed form of the reversal waterfall: pending, then available, then reserved, then debt. */
  function Split(entries: seq<Entry>, seller: SellerOrderId, affiliate: AffiliateId, debit: int): (w: Waterfall)
    ensures w.pending >= 0 && w.available >= 0 && w.withheld >= 0
    ensures debit > 0 ==> w.debt >= 0 && w.pending + w.available + w.withheld + w.debt == debit
  {
    var pending := Covered(BalanceOf(entries, affiliate, Pending, seller), debit);
    var available := Covered(BalanceOf(entries, affiliate, Available, seller), debit - pending);
    var withheld := Covered(BalanceOf(entries, affiliate, Withheld, seller), debit - pending - available);
    Waterfall(pending, available, withheld, debit - pending - available - withheld)
  }

  function ReversalEntries(w: Waterfall, seller: SellerOrderId, affiliate: AffiliateId, tag: RefundTag): seq<Entry> {
    Leg(seller, affiliate, Pending, w.pending, tag)
    + Leg(seller, affiliate, Available, w.available, tag)
    + Leg(seller, affiliate, Withheld, w.withheld, tag)
    + DebtLeg(seller, affiliate, w.debt, tag)
  }

  /** `reverseAffiliateLiability`. */
  function ReverseLiability(entries: seq<Entry>, seller: SellerOrderId, affiliate: AffiliateId, debit: int, tag: RefundTag): seq<Entry> {
    UpsertAll(entries, ReversalEntries(Split(entries, seller, affiliate, debit), seller, affiliate, tag))
  }

  // ---------- Payouts ----------

  datatype Books = Books(entries: seq<Entry>, payouts: seq<Payout>)

  function PayoutEntry(p: Payout, id: nat, bucket: Bucket, kind: EntryKind, amount: int, leg: PayoutLeg): Entry {
    Entry(p.affiliate, None, Some(id), bucket, kind, amount, PayoutKey(id, leg))
  }

  /** Two rows are created, not upserted: an existing key fails the transaction. */
  function PostPair(b: Books, first: Entry, second: Entry): Result<Books, Error> {
    if HasKey(b.entries, first.key) || HasKey(b.entries + [first], second.key) then Failure(DuplicateKey)
    else Success(b.(entries := b.entries + [first, second]))
  }

  function RequestPayout(b: Books, affiliate: AffiliateId, amount: int): Result<Books, Error> {
    if amount <= 0 then Failure(PayoutAmountInvalid)
    else if Sum(b.entries, Where(affiliate, Some(Available), None)) < amount then Failure(InsufficientBalance)
    else
      var id := |b.payouts|;
      var p := Payout(affiliate, amount, Requested, 1);
      PostPair(b.(payouts := b.payouts + [p]),
               PayoutEntry(p, id, Available, PayoutReserved, -amount, RequestAvailable),
               PayoutEntry(p, id, Withheld, PayoutReserved, amount, RequestWithheld))
  }

  datatype Decision = Process | Pay | Reject

  function DecidePayout(b: Books, id: nat, expectedVersion: nat, decision: Decision): Result<Books, Error> {
    if id >= |b.payouts| then Failure(PayoutNotFound) else
    var p := b.payouts[id];
    match decision
    case Process =>
      if p.status != Requested || p.version != expectedVersion then Failure(PayoutChanged)
      else Success(b.(payouts := b.payouts[id := p.(status := Processing, version := p.version + 1)]))
    case Pay =>
      if p.status != Processing || p.version != expectedVersion then Failure(PayoutChanged)
      else PostPair(b.(payouts := b.payouts[id := p.(status := Paid, version := p.version + 1)]),
                    PayoutEntry(p, id, Withheld, PayoutPaid, -p.amount, PaidWithheld),
                    PayoutEntry(p, id, PaidOut, PayoutPaid, p.amount, PaidPaid))
    case Reject =>
      if p.status != Processing || p.version != expectedVersion then Failure(PayoutChanged)
      else PostPair(b.(payouts := b.payouts[id := p.(status := Rejected, version := p.version + 1)]),
                    PayoutEntry(p, id, Withheld, PayoutReleased, -p.amount, RejectedWithheld),
                    PayoutEntry(p, id, Available, PayoutReleased, p.amount, RejectedAvailable))
  }

  // ---------- The invariant ----------

  function InStatus(payouts: seq<Payout>, affiliate: AffiliateId, statuses: set<PayoutStatus>): int {
    if payouts == [] then 0 else
      var p := payouts[|payouts| - 1];
      InStatus(payouts[..|payouts| - 1], affiliate, statuses) + if p.affiliate == affiliate && p.status in statuses then p.amount else 0
  }

  /** Sale entries live in Pending and Available only; payout entries never carry a seller order. */
  ghost predicate SaleEntryOk(e: Entry) {
    && !e.key.PayoutKey? && e.seller == Some(e.key.seller)
    && e.bucket in {Pending, Available} && (e.kind == SalePending <==> e.key.SaleKey?)
  }

  ghost predicate EntryOk(e: Entry, payouts: seq<Payout>) {
    match e.key
    case PayoutKey(id, leg) =>
      && e.seller == None && e.payout == Some(id) && id < |payouts| && e.kind != SalePending
      && (leg in {PaidWithheld, PaidPaid} ==> payouts[id].status == Paid)
      && (leg in {RejectedWithheld, RejectedAvailable} ==> payouts[id].status == Rejected)
    case _ => SaleEntryOk(e)
  }

  ghost predicate EntriesOk(b: Books) {
    forall e <- b.entries :: EntryOk(e, b.payouts)
  }

  ghost predicate PayoutsOk(b: Books) {
    && (forall a: AffiliateId ::
          && Sum(b.entries, Where(a, Some(Withheld), None)) == InStatus(b.payouts, a, {Requested, Processing})
          && Sum(b.entries, Where(a, Some(PaidOut), None)) == InStatus(b.payouts, a, {Paid}))
    && forall p <- b.payouts :: p.amount > 0
  }

  ghost predicate Inv(b: Books) { EntriesOk(b) && PayoutsOk(b) }
}
