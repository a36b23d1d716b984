/**
 Cleanup of retired product images: a two-phase protocol between database rows and two file
 locations that can stop between any two steps and be resumed.
 */
module ImageCleanup {
  import opened Arithmetic
  import opened Wrappers

  datatype ImageRow = NoImage | Shown | Retired

  /** What may refer to a stored file: order items, a transfer receipt, a product image. */
  datatype Refs = Refs(orders: nat, receipts: nat, image: ImageRow)

  datatype JobStatus = Pending | Processing | Quarantined | Retained | Completed

  datatype Job = Job(status: JobStatus, attempts: nat, availableAt: int, claimedAt: int)

  /** `storage` and `quarantine` say where the bytes are; `row` says whether the stored-file row exists. */
  datatype File = File(storage: bool, quarantine: bool, row: bool, refs: Refs, job: Job)

  const STALE_AFTER_MS := 15 * 60 * 1000
  const MINUTE_MS := 60_000
  const MAX_RETRY_DELAY_MS := 24 * 60 * 60 * 1000

  /** `disposition`. */
  predicate MustRetain(r: Refs) { r.orders > 0 || r.receipts > 0 || r.image == Shown }

  predicate Claimable(j: Job, now: int) {
    || (j.status == Pending && j.availableAt <= now)
    || (j.status == Processing && j.claimedAt <= now - STALE_AFTER_MS)
    || j.status == Quarantined
  }

  function RetryDelay(attempts: nat): int { Min(Power2(Min(attempts, 10)) * MINUTE_MS, MAX_RETRY_DELAY_MS) }

  // ---------- The worker, one atomic step at a time ----------

  /** What the worker does next with a file; `Idle` when it is not working on it. */
  datatype Pc = Idle | Inspecting | Restoring | Retaining | Quarantining | Detaching | Purging | Completing | Retrying

  function WithStatus(f: File, from: set<JobStatus>, to: JobStatus): File {
    if f.job.status in from then f.(job := f.job.(status := to)) else f
  }

  function Claim(f: File, now: int): File {
    f.(job := f.job.(status := Processing, claimedAt := now, attempts := f.job.attempts + 1))
  }

  /** Removing a retired image's rows; a job rescheduled meanwhile keeps its status. */
  function Detach(f: File): File {
    WithStatus(f.(row := false, refs := f.refs.(image := NoImage)), {Processing}, Quarantined)
  }

  function Reopen(f: File, now: int): File {
    if f.job.status in {Processing, Quarantined}
    then f.(job := f.job.(status := Pending, availableAt := now + RetryDelay(f.job.attempts)))
    else f
  }

  /** One step; with a `fault` the call throws and changes nothing. */
  function Advance(f: File, pc: Pc, now: int, fault: bool): (File, Pc) {
    match pc
    case Idle => if fault || !Claimable(f.job, now) then (f, Idle) else (Claim(f, now), Inspecting)
    case Inspecting => if fault then (f, Retrying) else if MustRetain(f.refs) then (f, Restoring) else (f, Quarantining)
    case Restoring =>
      if fault || (f.storage && f.quarantine) then (f, Retrying)
      else if !f.quarantine then (f, Retaining)
      else (f.(storage := true, quarantine := false), Retaining)
    case Retaining => if fault then (f, Retrying) else (WithStatus(f, {Pending, Processing, Quarantined}, Retained), Idle)
    case Quarantining =>
      if fault || (f.storage && f.quarantine) then (f, Retrying)
      else if f.quarantine || !f.storage then (f, Detaching)
      else (f.(storage := false, quarantine := true), Detaching)
    case Detaching => if fault then (f, Retrying) else if MustRetain(f.refs) then (f, Restoring) else (Detach(f), Purging)
    case Purging => if fault then (f, Retrying) else (f.(quarantine := false), Completing)
    case Completing => if fault then (f, Retrying) else (WithStatus(f, {Processing, Quarantined}, Completed), Idle)
    case Retrying => if fault then (f, Idle) else (Reopen(f, now), Idle)
  }

  // ---------- Everything that can happen to a file ----------

  datatype Event =
    | Work(now: int, fault: bool)
    | Crash
    | Refer(refs: Refs)
    | Reschedule(at: int)

  /** References change and images are retired again only while the stored-file row exists. */
  predicate Possible(f: File, e: Event) {
    match e
    case Refer(_) => f.row
    case Reschedule(_) => f.row && f.refs.image == Retired
    case _ => true
  }

  function Happen(f: File, pc: Pc, e: Event): (File, Pc) {
    match e
    case Work(now, fault) => Advance(f, pc, now, fault)
    case Crash => (f, Idle)
    case Refer(refs) => (f.(refs := refs), pc)
    case Reschedule(at) => (f.(job := f.job.(status := Pending, availableAt := at)), pc)
  }

  /** Retiring an image creates its job; the bytes are in storage then. */
  function Scheduled(refs: Refs, at: int): File { File(true, false, true, refs, Job(Pending, 0, at, 0)) }

  /** An order item, a receipt or a shown image needs the file. */
  ghost predicate Referenced(f: File) { f.refs.orders > 0 || f.refs.receipts > 0 || f.refs.image == Shown }

  ghost predicate Safe(f: File, pc: Pc) {
    && !(f.storage && f.quarantine)
    && (f.row ==> f.storage || f.quarantine)
    && (!f.row ==> !f.storage && f.refs == Refs(0, 0, NoImage))
    && (f.job.status == Quarantined ==> !f.row)
    && (f.job.status == Retained ==> f.row && f.storage && pc == Idle)
    && (f.job.status == Completed ==> !f.row && !f.quarantine && pc == Idle)
    && (match pc
        case Restoring => f.row
        case Retaining => f.row && f.storage
        case Detaching => !f.storage
        case Purging => !f.row
        case Completing => !f.row && !f.quarantine
        case _ => true)
  }

  lemma StepIsSafe(f: File, pc: Pc, e: Event)
    requires Safe(f, pc) && Possible(f, e)
    ensures var (g, next) := Happen(f, pc, e); Safe(g, next)
  {
  }

  function Run(f: File, pc: Pc, events: seq<Event>): (File, Pc) {
    if events == [] then (f, pc) else
      var (g, next) := Run(f, pc, events[..|events| - 1]);
      Happen(g, next, events[|events| - 1])
  }

  ghost predicate AllPossible(f: File, pc: Pc, events: seq<Event>) {
    events != [] ==>
      && AllPossible(f, pc, events[..|events| - 1])
      && Possible(Run(f, pc, events[..|events| - 1]).0, events[|events| - 1])
  }

  /**
   In every run, with a crash or a failing call between any two steps and references appearing at any
   time while the row exists: a referenced file has its bytes in exactly one of the two places, a retained
   file has them back in storage, and a completed cleanup has removed bytes and row.
   */
  lemma {:induction false} RunIsSafe(refs: Refs, at: int, events: seq<Event>)
    requires AllPossible(Scheduled(refs, at), Idle, events)
    ensures var (f, pc) := Run(Scheduled(refs, at), Idle, events);
            && Safe(f, pc)
            && (Referenced(f) ==> f.row && f.storage != f.quarantine)
            && (f.job.status == Retained ==> f.storage && !f.quarantine)
            && (f.job.status == Completed ==> !f.storage && !f.quarantine && !f.row)
  {
    if events != [] {
      var front := events[..|events| - 1];
      RunIsSafe(refs, at, front);
      var (g, next) := Run(Scheduled(refs, at), Idle, front);
      StepIsSafe(g, next, events[|events| - 1]);
    }
  }

  // ---------- Resuming always finishes ----------

  /** `n` undisturbed steps of the worker. */
  function Pass(f: File, pc: Pc, now: int, n: nat): (File, Pc)
    decreases n
  {
    if n == 0 then (f, pc) else
      var (g, next) := Advance(f, pc, now, false);
      if next == Idle then (g, Idle) else Pass(g, next, now, n - 1)
  }

  /**
   Wherever an earlier run stopped, one undisturbed pass over a claimable file ends the job: retained
   with its bytes in storage if something refers to it, otherwise completed with nothing left.
   */
  lemma PassFinishes(f: File, now: int)
    requires Safe(f, Idle) && Claimable(f.job, now)
    ensures var (g, pc) := Pass(f, Idle, now, 6);
            && pc == Idle && Safe(g, Idle) && g.refs.orders == f.refs.orders && g.refs.receipts == f.refs.receipts
            && (Referenced(f) ==> g.job.status == Retained && g.storage && g.row)
            && (!Referenced(f) ==> g.job.status == Completed && !g.storage && !g.quarantine && !g.row)
  {
    var (a, p) := Advance(f, Idle, now, false);
    assert Pass(f, Idle, now, 6) == Pass(a, Inspecting, now, 5);
    var (b, q) := Advance(a, Inspecting, now, false);
    assert Pass(f, Idle, now, 6) == Pass(b, q, now, 4);
    var (c, r) := Advance(b, q, now, false);
    assert Pass(f, Idle, now, 6) == Pass(c, r, now, 3);
    if !MustRetain(f.refs) {
      var (d, s) := Advance(c, r, now, false);
      assert Pass(f, Idle, now, 6) == Pass(d, s, now, 2);
      var (e, t) := Advance(d, s, now, false);
      assert Pass(f, Idle, now, 6) == Pass(e, t, now, 1);
    }
  }

  // ---------- When a job is taken up ----------

  /**
   An unfinished job is taken up at its time: a pending one when it is due, one that a stopped run left
   behind a quarter of an hour after its claim, and one whose rows are gone at once; a finished one never.
   */
  lemma TakenUpIff(j: Job, now: int)
    ensures Claimable(j, now) <==>
              match j.status
              case Pending => now >= j.availableAt
              case Processing => now >= j.claimedAt + 900_000
              case Quarantined => true
              case _ => false
  {
  }

  /** An image retired again while the worker is at it is not forgotten: its job keeps waiting unless the file is retained. */
  lemma RescheduleKept(f: File, pc: Pc, now: int, fault: bool)
    requires pc != Idle && f.job.status == Pending
    ensures var (g, next) := Advance(f, pc, now, fault);
            g.job == f.job || (pc == Retaining && next == Idle && g.job == f.job.(status := Retained))
  {
  }

  // ---------- Retry delays ----------

  /** After a claim the delay is 2^attempts minutes, capped at 1024 minutes: the 24-hour limit is never reached. */
  lemma DelayBounds(attempts: nat)
    requires attempts >= 1
    ensures RetryDelay(attempts) == Power2(Min(attempts, 10)) * MINUTE_MS
    ensures 2 * MINUTE_MS <= RetryDelay(attempts) <= 1024 * MINUTE_MS < MAX_RETRY_DELAY_MS
    ensures RetryDelay(attempts) <= RetryDelay(attempts + 1)
  {
    Power2Grows(1, Min(attempts, 10));
    Power2Grows(Min(attempts, 10), 10);
    Power2Grows(Min(attempts, 10), Min(attempts + 1, 10));
    assert Power2(5) == 32 && Power2(10) == 32 * Power2(5);
  }
}
