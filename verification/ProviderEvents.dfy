/** What a provider event says about an order, field by field, and the payment status each kind of event maps to. */
module ProviderEvents {
  import opened Wrappers
  import opened Orders

  /** What the provider was asked to charge: the quoted amount, or the order's total without one. */
  function Charged(o: Order): int {
    match o.providerAmount
    case Some(amount) => amount
    case None => o.total
  }

  /** Amount, currency, reference and collector are the order's own. */
  predicate AsExpected(o: Order, st: ProviderState, collector: Option<string>) {
    && st.amount == Charged(o) && st.amount >= 0 && st.currency == st.expectedCurrency && st.reference == o.number
    && (collector.Some? ==> st.collector == collector)
  }

  /** The event is about a payment that is neither disputed nor refunded in any part. */
  predicate Untouched(o: Order, st: ProviderState, collector: Option<string>) {
    AsExpected(o, st, collector) && !st.disputed && st.refunded <= 0
  }

  predicate IsApproval(o: Order, st: ProviderState, collector: Option<string>) {
    Untouched(o, st, collector) && st.approved
  }

  predicate IsRejection(o: Order, st: ProviderState, collector: Option<string>) {
    Untouched(o, st, collector) && !st.approved && st.rejected
  }

  /** The payment ended without an approval or a rejection. */
  predicate IsFailure(o: Order, st: ProviderState, collector: Option<string>) {
    Untouched(o, st, collector) && !st.approved && !st.rejected && st.terminal
  }

  predicate IsUnderway(o: Order, st: ProviderState, collector: Option<string>) {
    && Untouched(o, st, collector) && !st.approved && !st.rejected && !st.terminal
    && st.status in {"created", "processing", "action_required", "pending", "in_process", "authorized"}
  }

  predicate IsDispute(o: Order, st: ProviderState, collector: Option<string>) {
    AsExpected(o, st, collector) && st.disputed
  }

  predicate IsRefund(o: Order, st: ProviderState, collector: Option<string>) {
    AsExpected(o, st, collector) && !st.disputed && st.refunded >= Charged(o) > 0
  }

  predicate IsPartialRefund(o: Order, st: ProviderState, collector: Option<string>) {
    AsExpected(o, st, collector) && !st.disputed && st.refunded > 0 && (st.refunded < Charged(o) || Charged(o) <= 0)
  }

  /** Each value of the payment column is an exact condition on the fields of the event. */
  lemma PaymentColumnIff(o: Order, st: ProviderState, collector: Option<string>)
    ensures var mapped := StatusForProvider(st, ExpectedAmount(o), o.number, collector);
            && (mapped == Approved <==> IsApproval(o, st, collector))
            && (mapped == Rejected <==> IsRejection(o, st, collector))
            && (mapped == Failed <==> IsFailure(o, st, collector))
            && (mapped == Pending <==> IsUnderway(o, st, collector))
            && (mapped == Disputed <==> IsDispute(o, st, collector))
            && (mapped == Refunded <==> IsRefund(o, st, collector))
            && (mapped == PartiallyRefunded <==> IsPartialRefund(o, st, collector))
            && mapped != UnderReview
  {
  }

  /** The payment status each kind of event means. */
  function PaymentFor(o: Order, st: ProviderState, collector: Option<string>): PaymentStatus {
    if IsApproval(o, st, collector) then Approved
    else if IsFailure(o, st, collector) then Failed
    else if IsRefund(o, st, collector) then Refunded
    else if IsRejection(o, st, collector) then Rejected
    else if IsUnderway(o, st, collector) then Pending
    else if IsDispute(o, st, collector) then Disputed
    else if IsPartialRefund(o, st, collector) then PartiallyRefunded
    else RequiresReview
  }

  lemma PaymentIs(o: Order, st: ProviderState, collector: Option<string>)
    ensures StatusForProvider(st, ExpectedAmount(o), o.number, collector) == PaymentFor(o, st, collector)
    ensures PaymentFor(o, st, collector) == Failed ==> st.terminal
  {
    PaymentColumnIff(o, st, collector);
  }
}
