/** The cleanup job itself: claim, work through the two phases, put off what failed. */
module ImageCleanupWorker {
  import opened Arithmetic
  import opened Wrappers
  import opened ImageCleanup

  datatype Outcome = WasRetained | WasCompleted | Threw

  datatype Summary = Summary(claimed: nat, completed: nat, retained: nat, failed: nat)

  datatype Stopped = ClaimFailed | RetryFailed

  function Clamp(limit: Option<int>): nat {
    Max(1, Min(if limit.Some? then limit.value else 20, 100))
  }

  /**
   What the run cannot control: whether the k-th call made for the n-th candidate throws, and what
   refers to that candidate's file when its rows are about to be removed.
   */
  datatype World = World(throws: (nat, nat) -> bool, appears: nat -> Option<Refs>)

  /** What one run may have done to a file. */
  ghost predicate Handled(f: File, g: File, now: int) {
    && Claimable(f.job, now) && g.job.attempts == f.job.attempts + 1
    && (g.job.status in {Retained, Completed} || (g.job.status == Pending && g.job.availableAt == now + RetryDelay(g.job.attempts)))
  }

  /** How many of the handled files ended in a status. */
  ghost function Tally(files: seq<File>, handled: set<nat>, status: JobStatus): nat
    requires forall i <- handled :: i < |files|
  {
    |set i <- handled | files[i].job.status == status|
  }

  lemma TallyStep(files: seq<File>, g: File, i: nat, handled: set<nat>, status: JobStatus)
    requires i < |files| && i !in handled && forall j <- handled :: j < |files|
    ensures Tally(files[i := g], handled + {i}, status) == Tally(files, handled, status) + if g.job.status == status then 1 else 0
  {
    var before := set j <- handled | files[j].job.status == status;
    var after := set j <- handled + {i} | files[i := g][j].job.status == status;
    forall j ensures j in after <==> j in before || (j == i && g.job.status == status) {
      if j != i && j in handled { assert files[i := g][j] == files[j]; }
    }
    assert after == if g.job.status == status then before + {i} else before;
  }

  class CleanupRetiredProductImages {
    var files: seq<File>

    constructor (files: seq<File>)
      ensures this.files == files
    {
      this.files := files;
    }

    /** The claimable job that was available first. */
    method ClaimNext(now: int) returns (r: Option<nat>)
      modifies this
      ensures r.None? ==> files == old(files) && forall k | 0 <= k < |files| :: !Claimable(files[k].job, now)
      ensures r.Some? ==>
                && r.value < |old(files)| && Claimable(old(files)[r.value].job, now)
                && files == old(files)[r.value := Claim(old(files)[r.value], now)]
                && forall k | 0 <= k < |files| && Claimable(old(files)[k].job, now) :: old(files)[r.value].job.availableAt <= old(files)[k].job.availableAt
    {
      r := None;
      for k := 0 to |files|
        invariant r.None? ==> forall m | 0 <= m < k :: !Claimable(files[m].job, now)
        invariant r.Some? ==> r.value < |files| && Claimable(files[r.value].job, now)
        invariant r.Some? ==> forall m | 0 <= m < k && Claimable(files[m].job, now) :: files[r.value].job.availableAt <= files[m].job.availableAt
      {
        if Claimable(files[k].job, now) && (r.None? || files[k].job.availableAt < files[r.value].job.availableAt) {
          r := Some(k);
        }
      }
      if r.Some? {
        files := files[r.value := Claim(files[r.value], now)];
      }
    }

    // ---------- Single calls; each is one step of the machine ----------

    method Quarantine(i: nat, now: int, fault: bool) returns (ok: bool)
      requires i < |files|
      modifies this
      ensures var (g, next) := Advance(old(files)[i], Quarantining, now, fault);
              files == old(files)[i := g] && (ok <==> next != Retrying)
    {
      var f := files[i];
      assert files[i := f] == files;
      if fault || (f.storage && f.quarantine) {
        return false;
      }
      if !f.quarantine && f.storage {
        files := files[i := f.(storage := false, quarantine := true)];
      }
      ok := true;
    }

    method Restore(i: nat, now: int, fault: bool) returns (ok: bool)
      requires i < |files|
      modifies this
      ensures var (g, next) := Advance(old(files)[i], Restoring, now, fault);
              files == old(files)[i := g] && (ok <==> next != Retrying)
    {
      var f := files[i];
      assert files[i := f] == files;
      if fault || (f.storage && f.quarantine) {
        return false;
      }
      if f.quarantine {
        files := files[i := f.(storage := true, quarantine := false)];
      }
      ok := true;
    }

    /** The detaching transaction: `retain` when a reference appeared before it. */
    method DetachRows(i: nat, now: int, fault: bool) returns (ok: bool, retain: bool)
      requires i < |files|
      modifies this
      ensures var (g, next) := Advance(old(files)[i], Detaching, now, fault);
              files == old(files)[i := g] && (ok <==> next != Retrying) && (ok ==> (retain <==> next == Restoring))
    {
      var f := files[i];
      assert files[i := f] == files;
      if fault {
        return false, false;
      }
      if f.refs.orders > 0 || f.refs.receipts > 0 || f.refs.image == Shown {
        return true, true;
      }
      var detached := f.(row := false, refs := f.refs.(image := NoImage));
      if f.job.status == Processing {
        detached := detached.(job := f.job.(status := Quarantined));
      }
      files := files[i := detached];
      ok, retain := true, false;
    }

    method Purge(i: nat, now: int, fault: bool) returns (ok: bool)
      requires i < |files|
      modifies this
      ensures var (g, next) := Advance(old(files)[i], Purging, now, fault);
              files == old(files)[i := g] && (ok <==> next != Retrying)
    {
      assert files[i := files[i]] == files;
      if !fault {
        files := files[i := files[i].(quarantine := false)];
      }
      ok := !fault;
    }

    method MarkRetained(i: nat, now: int, fault: bool) returns (ok: bool)
      requires i < |files|
      modifies this
      ensures var (g, next) := Advance(old(files)[i], Retaining, now, fault);
              files == old(files)[i := g] && (ok <==> next != Retrying)
    {
      assert files[i := files[i]] == files;
      if !fault && files[i].job.status in {Pending, Processing, Quarantined} {
        files := files[i := files[i].(job := files[i].job.(status := Retained))];
      }
      ok := !fault;
    }

    method MarkCompleted(i: nat, now: int, fault: bool) returns (ok: bool)
      requires i < |files|
      modifies this
      ensures var (g, next) := Advance(old(files)[i], Completing, now, fault);
              files == old(files)[i := g] && (ok <==> next != Retrying)
    {
      assert files[i := files[i]] == files;
      if !fault && files[i].job.status in {Processing, Quarantined} {
        files := files[i := files[i].(job := files[i].job.(status := Completed))];
      }
      ok := !fault;
    }

    method Retry(i: nat, now: int, fault: bool) returns (ok: bool)
      requires i < |files|
      modifies this
      ensures files == old(files)[i := Advance(old(files)[i], Retrying, now, fault).0] && ok == !fault
    {
      assert files[i := files[i]] == files;
      if !fault && files[i].job.status in {Processing, Quarantined} {
        var delay := Min(Power2(Min(files[i].job.attempts, 10)) * MINUTE_MS, MAX_RETRY_DELAY_MS);
        files := files[i := files[i].(job := files[i].job.(status := Pending, availableAt := now + delay))];
      }
      ok := !fault;
    }

    // ---------- One candidate ----------

    method RestoreAndRetain(i: nat, now: int, n: nat, world: World) returns (outcome: Outcome)
      requires i < |files| && Safe(files[i], Restoring) && files[i].job.status in {Processing, Quarantined}
      modifies this
      ensures |files| == |old(files)| && forall k | 0 <= k < |files| && k != i :: files[k] == old(files)[k]
      ensures files[i].job.attempts == old(files)[i].job.attempts
      ensures outcome == Threw ==> Safe(files[i], Retrying) && files[i].job.status in {Processing, Quarantined}
      ensures outcome != Threw ==> outcome == WasRetained && Safe(files[i], Idle) && files[i].job.status == Retained
    {
      StepIsSafe(files[i], Restoring, Work(now, world.throws(n, 5)));
      var ok := Restore(i, now, world.throws(n, 5));
      if !ok { return Threw; }
      StepIsSafe(files[i], Retaining, Work(now, world.throws(n, 6)));
      ok := MarkRetained(i, now, world.throws(n, 6));
      outcome := if ok then WasRetained else Threw;
    }

    /** Another request changes what refers to the file, while its row exists. */
    method LetOthersRefer(i: nat, refs: Option<Refs>)
      requires i < |files|
      modifies this
      ensures files == old(files)[i := if refs.Some? && old(files)[i].row then Happen(old(files)[i], Detaching, Refer(refs.value)).0 else old(files)[i]]
    {
      assert files[i := files[i]] == files;
      if refs.Some? && files[i].row {
        files := files[i := files[i].(refs := refs.value)];
      }
    }

    method PurgeAndComplete(i: nat, now: int, n: nat, world: World) returns (outcome: Outcome)
      requires i < |files| && Safe(files[i], Purging) && files[i].job.status in {Processing, Quarantined}
      modifies this
      ensures |files| == |old(files)| && forall k | 0 <= k < |files| && k != i :: files[k] == old(files)[k]
      ensures files[i].job.attempts == old(files)[i].job.attempts
      ensures outcome == Threw ==> Safe(files[i], Retrying) && files[i].job.status in {Processing, Quarantined}
      ensures outcome != Threw ==> outcome == WasCompleted && Safe(files[i], Idle) && files[i].job.status == Completed
    {
      StepIsSafe(files[i], Purging, Work(now, world.throws(n, 3)));
      var ok := Purge(i, now, world.throws(n, 3));
      if !ok { return Threw; }
      StepIsSafe(files[i], Completing, Work(now, world.throws(n, 4)));
      ok := MarkCompleted(i, now, world.throws(n, 4));
      outcome := if ok then WasCompleted else Threw;
    }

    /** The body of the `try` block for one claimed candidate. */
    method WorkOn(i: nat, now: int, n: nat, world: World) returns (outcome: Outcome)
      requires i < |files| && Safe(files[i], Inspecting) && files[i].job.status == Processing
      modifies this
      ensures |files| == |old(files)| && forall k | 0 <= k < |files| && k != i :: files[k] == old(files)[k]
      ensures files[i].job.attempts == old(files)[i].job.attempts
      ensures outcome == Threw ==> Safe(files[i], Retrying) && files[i].job.status in {Processing, Quarantined}
      ensures outcome != Threw ==> Safe(files[i], Idle) && files[i].job.status == if outcome == WasRetained then Retained else Completed
    {
      StepIsSafe(files[i], Inspecting, Work(now, world.throws(n, 0)));
      if world.throws(n, 0) { return Threw; }
      if MustRetain(files[i].refs) {
        outcome := RestoreAndRetain(i, now, n, world);
        return;
      }
      StepIsSafe(files[i], Quarantining, Work(now, world.throws(n, 1)));
      var ok := Quarantine(i, now, world.throws(n, 1));
      if !ok { return Threw; }
      LetOthersRefer(i, world.appears(n));
      StepIsSafe(files[i], Detaching, Work(now, world.throws(n, 2)));
      var retain;
      ok, retain := DetachRows(i, now, world.throws(n, 2));
      if !ok { return Threw; }
      if retain {
        outcome := RestoreAndRetain(i, now, n, world);
      } else {
        outcome := PurgeAndComplete(i, now, n, world);
      }
    }

    /** Works on a claimed candidate and puts it off when a call throws. */
    method Handle(i: nat, now: int, n: nat, world: World) returns (outcome: Outcome, stopped: bool)
      requires i < |files| && Safe(files[i], Inspecting) && files[i].job.status == Processing
      modifies this
      ensures |files| == |old(files)| && forall k | 0 <= k < |files| && k != i :: files[k] == old(files)[k]
      ensures files[i].job.attempts == old(files)[i].job.attempts && Safe(files[i], Idle)
      ensures !stopped && outcome == Threw ==> files[i].job.status == Pending && files[i].job.availableAt == now + RetryDelay(files[i].job.attempts)
      ensures outcome != Threw ==> !stopped && files[i].job.status == if outcome == WasRetained then Retained else Completed
    {
      outcome := WorkOn(i, now, n, world);
      stopped := false;
      if outcome == Threw {
        StepIsSafe(files[i], Retrying, Work(now, world.throws(n, 7)));
        var ok := Retry(i, now, world.throws(n, 7));
        stopped := !ok;
      }
    }

    /**
     The bounded loop.  Every file it touches is claimed once, ends retained, completed or put off, and is
     counted once; it stops early only when nothing is left to claim.
     */
    method Execute(limit: Option<int>, now: int, world: World) returns (r: Result<Summary, Stopped>, ghost handled: set<nat>)
      requires forall f <- files :: Safe(f, Idle)
      modifies this
      ensures |files| == |old(files)| && forall k | 0 <= k < |files| :: Safe(files[k], Idle)
      ensures r.Success? ==>
                && Accounted(old(files), files, handled, r.value, now) && r.value.claimed <= Clamp(limit)
                && (r.value.claimed < Clamp(limit) ==> forall k | 0 <= k < |files| :: !Claimable(files[k].job, now))
    {
      var result := Summary(0, 0, 0, 0);
      handled := {};
      assert forall k | 0 <= k < |files| :: files[k] in files;
      for index := 0 to Clamp(limit)
        invariant Accounted(old(files), files, handled, result, now) && index == result.claimed
      {
        if world.throws(index, 8) {
          return Failure(ClaimFailed), handled;
        }
        ghost var before := files;
        var candidate := ClaimNext(now);
        if candidate.None? { break; }
        var i := candidate.value;
        NotClaimableAgain(old(files), before, handled, i, now);
        StepIsSafe(before[i], Idle, Work(now, false));
        var outcome, stopped := Handle(i, now, index, world);
        if stopped {
          return Failure(RetryFailed), handled;
        }
        AccountOne(old(files), before, files, handled, i, result, outcome, now);
        result := Counted(result, outcome);
        handled := handled + {i};
      }
      r := Success(result);
    }
  }

  function Counted(s: Summary, outcome: Outcome): Summary {
    var t := s.(claimed := s.claimed + 1);
    match outcome
    case WasRetained => t.(retained := s.retained + 1)
    case WasCompleted => t.(completed := s.completed + 1)
    case Threw => t.(failed := s.failed + 1)
  }

  /** The summary counts exactly the files handled so far, each by how it ended. */
  ghost predicate Accounted(start: seq<File>, files: seq<File>, handled: set<nat>, s: Summary, now: int) {
    && |files| == |start| && (forall k | 0 <= k < |files| :: Safe(files[k], Idle))
    && (forall k <- handled :: k < |files|)
    && (forall k | 0 <= k < |files| :: if k in handled then Handled(start[k], files[k], now) else files[k] == start[k])
    && s.claimed == |handled| == s.completed + s.retained + s.failed
    && s.completed == Tally(files, handled, Completed) && s.retained == Tally(files, handled, Retained) && s.failed == Tally(files, handled, Pending)
  }

  ghost function EndedAs(outcome: Outcome): JobStatus {
    match outcome
    case WasRetained => Retained
    case WasCompleted => Completed
    case Threw => Pending
  }

  lemma AccountOne(start: seq<File>, before: seq<File>, after: seq<File>, handled: set<nat>, i: nat, s: Summary, outcome: Outcome, now: int)
    requires Accounted(start, before, handled, s, now)
    requires i < |before| == |after| && i !in handled && Handled(before[i], after[i], now) && Safe(after[i], Idle)
    requires after[i].job.status == EndedAs(outcome)
    requires forall k | 0 <= k < |before| && k != i :: after[k] == before[k]
    ensures Accounted(start, after, handled + {i}, Counted(s, outcome), now)
  {
    assert after == before[i := after[i]];
    TallyStep(before, after[i], i, handled, Completed);
    TallyStep(before, after[i], i, handled, Retained);
    TallyStep(before, after[i], i, handled, Pending);
  }

  /** A file already handled in this run cannot be claimed again in it. */
  lemma NotClaimableAgain(start: seq<File>, files: seq<File>, handled: set<nat>, i: nat, now: int)
    requires i < |files| == |start| && Claimable(files[i].job, now)
    requires i in handled ==> Handled(start[i], files[i], now)
    ensures i !in handled
  {
    if i in handled { DelayBounds(files[i].job.attempts); }
  }
}
