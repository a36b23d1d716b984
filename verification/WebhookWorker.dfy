/** The worker that turns accepted provider notifications into order transactions, at least once each. */
module WebhookWorker {
  import opened Arithmetic
  import opened Wrappers
  import O = Orders
  import I = OrderInvariant
  import OO = OrderOutcomes
  import OS = OrderService
  import OrderSteps

  datatype Event = Event(receivedAt: int, processed: bool, failed: bool, attempts: nat, lockedAt: Option<int>, nextAttemptAt: Option<int>)

  const BATCH := 20
  const LOCK_MS := 60_000
  const LAST_ATTEMPT := 10

  predicate Open(e: Event) { !e.processed && !e.failed }

  predicate Due(e: Event, now: int) { Open(e) && (e.nextAttemptAt.None? || e.nextAttemptAt.value <= now) }

  predicate LockFree(e: Event, now: int) { e.lockedAt.None? || e.lockedAt.value < now - LOCK_MS }

  predicate Claimable(e: Event, now: int) { Open(e) && LockFree(e, now) }

  function Backoff(attempt: nat): int
    requires attempt >= 1
  {
    Min(15 * 60_000, 5_000 * Power2(Min(attempt - 1, 8)))
  }

  function Claimed(e: Event, now: int): Event { e.(lockedAt := Some(now), attempts := e.attempts + 1) }

  function Succeeded(e: Event): Event { e.(processed := true, lockedAt := None, nextAttemptAt := None) }

  function Failed(e: Event, now: int): Event
    requires e.attempts >= 1
  {
    var permanent := e.attempts >= LAST_ATTEMPT;
    e.(lockedAt := None, failed := permanent, nextAttemptAt := if permanent then None else Some(now + Backoff(e.attempts)))
  }

  /** The webhook route: a notification seen again is due at once and no longer failed. */
  function Renotified(e: Event, now: int): Event {
    e.(receivedAt := now, nextAttemptAt := Some(now), lockedAt := None, failed := false)
  }

  // ---------- One event, with crashes ----------

  /** Where the worker stands with the event; `Committed` is after the order transaction, before the mark. */
  datatype Pc = Idle | Working | Committed

  datatype Happening = Take(now: int) | Commit | Mark | Throw(now: int) | Crash | Notify(now: int)

  /** `commits` counts the order transactions run for the event. */
  datatype Delivery = Delivery(event: Event, pc: Pc, commits: nat)

  function Happen(d: Delivery, h: Happening): Delivery {
    match h
    case Take(now) =>
      if d.pc == Idle && Due(d.event, now) && Claimable(d.event, now) then d.(event := Claimed(d.event, now), pc := Working) else d
    case Commit => if d.pc == Working then d.(pc := Committed, commits := d.commits + 1) else d
    case Mark => if d.pc == Committed then d.(event := Succeeded(d.event), pc := Idle) else d
    case Throw(now) => if d.pc != Idle && d.event.attempts >= 1 then d.(event := Failed(d.event, now), pc := Idle) else d
    case Crash => d.(pc := Idle)
    case Notify(now) => d.(event := Renotified(d.event, now))
  }

  function Run(d: Delivery, hs: seq<Happening>): Delivery {
    if hs == [] then d else Happen(Run(d, hs[..|hs| - 1]), hs[|hs| - 1])
  }

  ghost predicate Sound(d: Delivery) {
    && (d.event.processed ==> d.commits >= 1)
    && (d.event.failed ==> d.event.attempts >= LAST_ATTEMPT)
    && (d.pc == Committed ==> d.commits >= 1)
    && (d.pc != Idle ==> d.event.attempts >= 1)
    && d.commits <= d.event.attempts
  }

  function Accepted(now: int): Delivery { Delivery(Event(now, false, false, 0, None, Some(now)), Idle, 0) }

  /** The attempt under way has not committed yet. */
  ghost predicate Strict(d: Delivery) { d.pc == Working ==> d.commits < d.event.attempts }

  lemma HappenIsSound(d: Delivery, h: Happening)
    requires Sound(d) && Strict(d)
    ensures var e := Happen(d, h);
            Sound(e) && Strict(e) && (d.event.processed ==> e.event.processed && e.commits <= d.commits + 1)
  {
  }

  /**
   At least once: an event is marked processed only after its order transaction committed, gives up only
   from the tenth attempt on, and otherwise stays open; once processed it stays processed.
   */
  lemma {:induction false} DeliveryIsSound(now: int, hs: seq<Happening>)
    ensures var d := Run(Accepted(now), hs);
            && (d.event.processed ==> d.commits >= 1) && (d.event.failed ==> d.event.attempts >= LAST_ATTEMPT)
            && d.commits <= d.event.attempts
            && forall n | 0 <= n <= |hs| :: Run(Accepted(now), hs[..n]).event.processed ==> d.event.processed
    ensures Sound(Run(Accepted(now), hs)) && Strict(Run(Accepted(now), hs))
  {
    if hs != [] {
      var front := hs[..|hs| - 1];
      DeliveryIsSound(now, front);
      HappenIsSound(Run(Accepted(now), front), hs[|hs| - 1]);
      forall n | 0 <= n <= |hs| && Run(Accepted(now), hs[..n]).event.processed ensures Run(Accepted(now), hs).event.processed {
        if n < |hs| { assert hs[..n] == front[..n]; } else { assert hs[..n] == hs; }
      }
    }
  }

  /** When the retry delay and a lock left by a crash have both run out. */
  function RecoversAt(e: Event): int {
    Max(if e.nextAttemptAt.Some? then e.nextAttemptAt.value else e.receivedAt,
        if e.lockedAt.Some? then e.lockedAt.value + LOCK_MS + 1 else e.receivedAt)
  }

  /**
   Whatever happened to it, an event that is neither processed nor given up is due and can be claimed once
   it has recovered; `RunOnce` then attempts it unless twenty older ones fill the batch.
   */
  lemma OpenEventsComeBack(start: int, hs: seq<Happening>, now: int)
    requires var d := Run(Accepted(start), hs); Open(d.event) && d.pc == Idle && now >= RecoversAt(d.event)
    ensures var d := Run(Accepted(start), hs);
            var e := Run(Accepted(start), hs + [Take(now)]);
            && Due(d.event, now) && Claimable(d.event, now)
            && e.pc == Working && e.event.attempts == d.event.attempts + 1 && e.event.lockedAt == Some(now)
  {
    assert (hs + [Take(now)])[..|hs|] == hs;
  }

  /** Delays double from five seconds and stay at fifteen minutes from the ninth attempt on. */
  lemma BackoffBounds(attempt: nat)
    requires attempt >= 1
    ensures 5_000 <= Backoff(attempt) <= 15 * 60_000
    ensures attempt <= 8 ==> Backoff(attempt) == 5_000 * Power2(attempt - 1)
    ensures attempt >= 9 <==> Backoff(attempt) == 15 * 60_000
  {
    assert Power2(4) == 16 && Power2(7) == 128 && Power2(8) == 256;
    Power2Grows(Min(attempt - 1, 8), if attempt <= 8 then 7 else 8);
  }

  /** A claim keeps others away for a minute, and no longer. */
  lemma ClaimHolds(e: Event, at: int, now: int)
    ensures Claimable(Claimed(e, at), now) <==> !e.processed && !e.failed && now > at + 60_000
  {
  }

  /** A failed attempt frees the event; the tenth gives it up, an earlier one puts it off by five seconds to fifteen minutes. */
  lemma FailureOutcome(e: Event, now: int)
    requires e.attempts >= 1 && !e.failed
    ensures var f := Failed(e, now);
            && f.lockedAt == None && f.attempts == e.attempts && f.processed == e.processed
            && (f.failed <==> e.attempts >= 10)
            && (if e.attempts >= 10 then f.nextAttemptAt == None
                else f.nextAttemptAt.Some? && now + 5_000 <= f.nextAttemptAt.value <= now + 900_000)
  {
    BackoffBounds(e.attempts);
  }

  /** A notification seen again revives the event at once unless it was processed. */
  lemma NotifyRevives(e: Event, now: int)
    ensures Due(Renotified(e, now), now) && Claimable(Renotified(e, now), now) <==> !e.processed
  {
  }

  // ---------- The worker ----------

  /** What fetching the event's resource from the provider yields: an order and its payment state, or an error. */
  datatype Fetched = Unavailable | State(order: nat, state: O.ProviderState)

  datatype Tables = Tables(events: seq<Event>, shop: O.Shop)

  /** The event's order transaction commits, or the attempt counts as failed. */
  ghost function Handled(t: Tables, k: nat, now: int, fetched: Fetched, collector: Option<string>): Tables {
    if k >= |t.events| || !Claimable(t.events[k], now) || !t.shop.Shape() then t else
    var claimed := Claimed(t.events[k], now);
    if fetched.State? && O.Provider(t.shop, fetched.order, fetched.state, collector, now).Success? then
      Tables(t.events[k := Succeeded(claimed)], O.Provider(t.shop, fetched.order, fetched.state, collector, now).value)
    else Tables(t.events[k := Failed(claimed, now)], t.shop)
  }

  ghost function HandledAll(t: Tables, batch: seq<nat>, now: int, fetch: nat -> Fetched, collector: Option<string>): Tables {
    if batch == [] then t else
      var k := batch[|batch| - 1];
      Handled(HandledAll(t, batch[..|batch| - 1], now, fetch, collector), k, now, fetch(k), collector)
  }

  lemma HandledKeepsInv(t: Tables, k: nat, now: int, fetched: Fetched, collector: Option<string>)
    requires I.Inv(t.shop)
    ensures I.Inv(Handled(t, k, now, fetched, collector).shop)
  {
    if fetched.State? {
      OrderSteps.StepKeepsInv(t.shop, O.AProvider(fetched.order, fetched.state, collector, now));
    }
  }

  /**
   An attempt marks its event processed exactly when the order transaction committed, and then the event was
   applied to the shop; otherwise the shop is as before and the event waits or is given up at the tenth attempt.
   */
  lemma HandledOutcome(t: Tables, k: nat, now: int, fetched: Fetched, collector: Option<string>)
    requires I.Inv(t.shop) && k < |t.events| && Claimable(t.events[k], now)
    ensures var u := Handled(t, k, now, fetched, collector);
            && |u.events| == |t.events| && (forall j | 0 <= j < |t.events| && j != k :: u.events[j] == t.events[j])
            && var (e, f) := (t.events[k], u.events[k]);
            && f.attempts == e.attempts + 1 && f.lockedAt == None && f.receivedAt == e.receivedAt
            && if fetched.State? && fetched.order < |t.shop.orders| && t.shop.orders[fetched.order].payMethod == O.MercadoPago then
                 f.processed && !f.failed && OO.EventApplied(t.shop, u.shop, fetched.order, fetched.state, collector, now)
               else
                 && !f.processed && u.shop == t.shop && (f.failed <==> e.attempts >= 9)
                 && (!f.failed ==> f.nextAttemptAt.Some? && f.nextAttemptAt.value >= now + 5_000)
  {
    FailureOutcome(Claimed(t.events[k], now), now);
    if fetched.State? && fetched.order < |t.shop.orders| && t.shop.orders[fetched.order].payMethod == O.MercadoPago {
      OO.ProviderOutcome(t.shop, fetched.order, fetched.state, collector, now);
    }
  }

  /** Events outside the batch are untouched, and each claimable event of the batch is attempted exactly once. */
  lemma {:induction false} OneAttemptEach(t: Tables, batch: seq<nat>, now: int, fetch: nat -> Fetched, collector: Option<string>, k: nat)
    requires I.Inv(t.shop) && k < |t.events| && forall i, j | 0 <= i < j < |batch| :: batch[i] != batch[j]
    ensures var u := HandledAll(t, batch, now, fetch, collector);
            && I.Inv(u.shop) && |u.events| == |t.events|
            && if k in batch && Claimable(t.events[k], now)
               then u.events[k] in {Succeeded(Claimed(t.events[k], now)), Failed(Claimed(t.events[k], now), now)}
               else u.events[k] == t.events[k]
  {
    if batch != [] {
      var front, last := batch[..|batch| - 1], batch[|batch| - 1];
      assert batch == front + [last];
      OneAttemptEach(t, front, now, fetch, collector, k);
      HandledKeepsInv(HandledAll(t, front, now, fetch, collector), last, now, fetch(last), collector);
    }
  }

  /** A batch names distinct events in the order they were received. */
  ghost predicate OldestFirst(events: seq<Event>, batch: seq<nat>) {
    forall j, k | 0 <= j < k < |batch| ::
      batch[j] != batch[k] && batch[j] < |events| && batch[k] < |events| && events[batch[j]].receivedAt <= events[batch[k]].receivedAt
  }

  class MercadoPagoWebhookWorker {
    const shop: OS.OrderService
    var running: bool
    var events: seq<Event>

    constructor (shop: OS.OrderService)
      ensures this.shop == shop && !running && events == []
    {
      this.shop := shop;
      running, events := false, [];
    }

    /** The oldest due event that is not in the batch yet. */
    method NextDue(now: int, batch: seq<nat>) returns (r: Option<nat>)
      ensures r.None? ==> forall k | 0 <= k < |events| && Due(events[k], now) :: k in batch
      ensures r.Some? ==> r.value < |events| && r.value !in batch && Due(events[r.value], now)
      ensures r.Some? ==> forall k | 0 <= k < |events| && Due(events[k], now) && k !in batch :: events[r.value].receivedAt <= events[k].receivedAt
    {
      r := None;
      for k := 0 to |events|
        invariant r.None? ==> forall m | 0 <= m < k && Due(events[m], now) :: m in batch
        invariant r.Some? ==> r.value < k && r.value !in batch && Due(events[r.value], now)
        invariant r.Some? ==> forall m | 0 <= m < k && Due(events[m], now) && m !in batch :: events[r.value].receivedAt <= events[m].receivedAt
      {
        if Due(events[k], now) && k !in batch && (r.None? || events[k].receivedAt < events[r.value].receivedAt) {
          r := Some(k);
        }
      }
    }

    /** Up to twenty due events, oldest first. */
    method DueEvents(now: int) returns (batch: seq<nat>)
      ensures |batch| <= 20 && (forall k <- batch :: k < |events| && Due(events[k], now)) && OldestFirst(events, batch)
      ensures |batch| < 20 ==> forall k | 0 <= k < |events| && Due(events[k], now) :: k in batch
      ensures forall j <- batch :: forall k | 0 <= k < |events| && Due(events[k], now) && k !in batch :: events[j].receivedAt <= events[k].receivedAt
    {
      batch := [];
      while |batch| < BATCH
        invariant |batch| <= BATCH && (forall k <- batch :: k < |events| && Due(events[k], now)) && OldestFirst(events, batch)
        invariant forall j <- batch :: forall k | 0 <= k < |events| && Due(events[k], now) && k !in batch :: events[j].receivedAt <= events[k].receivedAt
        decreases BATCH - |batch|
      {
        var next := NextDue(now, batch);
        if next.None? { return; }
        batch := batch + [next.value];
      }
    }

    /** The order transaction of an event; an unknown payment or an unreachable provider is a failure. */
    method Deliver(now: int, fetched: Fetched, collector: Option<string>) returns (ok: bool)
      requires I.Inv(shop.State())
      modifies shop, shop.stock, shop.loyalty, shop.ledger
      ensures I.Inv(shop.State())
      ensures ok <==> fetched.State? && O.Provider(old(shop.State()), fetched.order, fetched.state, collector, now).Success?
      ensures shop.State() == if ok then O.Provider(old(shop.State()), fetched.order, fetched.state, collector, now).value else old(shop.State())
    {
      ok := false;
      if fetched.State? {
        OrderSteps.StepKeepsInv(shop.State(), O.AProvider(fetched.order, fetched.state, collector, now));
        var applied := shop.ApplyMercadoProviderState(fetched.order, fetched.state, collector, now);
        ok := applied.Success?;
      }
    }

    /** Claims one event, runs its order transaction and records the outcome. */
    method Process(k: nat, now: int, fetched: Fetched, collector: Option<string>)
      requires k < |events| && I.Inv(shop.State())
      modifies this`events, shop, shop.stock, shop.loyalty, shop.ledger
      ensures I.Inv(shop.State())
      ensures Tables(events, shop.State()) == Handled(Tables(old(events), old(shop.State())), k, now, fetched, collector)
    {
      var event := events[k];
      if event.processed || event.failed || (event.lockedAt.Some? && event.lockedAt.value >= now - LOCK_MS) {
        return;
      }
      events := events[k := Claimed(event, now)];
      var ok := Deliver(now, fetched, collector);
      events := events[k := if ok then Succeeded(events[k]) else Failed(events[k], now)];
    }

    method ProcessBatch(batch: seq<nat>, now: int, fetch: nat -> Fetched, collector: Option<string>)
      requires I.Inv(shop.State()) && forall k <- batch :: k < |events|
      modifies this`events, shop, shop.stock, shop.loyalty, shop.ledger
      ensures I.Inv(shop.State()) && |events| == |old(events)|
      ensures Tables(events, shop.State()) == HandledAll(Tables(old(events), old(shop.State())), batch, now, fetch, collector)
    {
      ghost var before := Tables(events, shop.State());
      for n := 0 to |batch|
        invariant I.Inv(shop.State()) && |events| == |before.events|
        invariant Tables(events, shop.State()) == HandledAll(before, batch[..n], now, fetch, collector)
      {
        assert batch[n] in batch && batch[..n + 1][..n] == batch[..n];
        Process(batch[n], now, fetch(batch[n]), collector);
      }
      assert batch[..|batch|] == batch;
    }

    /** One run; while another is under way it does nothing. */
    method RunOnce(now: int, fetch: nat -> Fetched, collector: Option<string>) returns (batch: seq<nat>)
      requires I.Inv(shop.State())
      modifies this, shop, shop.stock, shop.loyalty, shop.ledger
      ensures I.Inv(shop.State()) && running == old(running)
      ensures |batch| <= 20 && (forall k <- batch :: k < |old(events)| && Due(old(events)[k], now)) && OldestFirst(old(events), batch)
      ensures if running then batch == [] else |batch| < 20 ==> forall k | 0 <= k < |old(events)| && Due(old(events)[k], now) :: k in batch
      ensures Tables(events, shop.State()) == HandledAll(Tables(old(events), old(shop.State())), batch, now, fetch, collector)
      ensures |events| == |old(events)|
      ensures !running ==>
                forall k | 0 <= k < |events| && Due(old(events)[k], now) && Claimable(old(events)[k], now) ::
                  || events[k].attempts == old(events)[k].attempts + 1
                  || (|batch| == 20 && forall j <- batch :: old(events)[j].receivedAt <= old(events)[k].receivedAt)
    {
      if running {
        return [];
      }
      running := true;
      batch := DueEvents(now);
      ghost var before := Tables(events, shop.State());
      ProcessBatch(batch, now, fetch, collector);
      forall k | 0 <= k < |before.events|
        ensures k in batch && Claimable(before.events[k], now) ==> events[k].attempts == before.events[k].attempts + 1
      {
        OneAttemptEach(before, batch, now, fetch, collector, k);
      }
      running := false;
    }
  }
}
