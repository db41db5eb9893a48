/** The background-job runner: claim the first waiting job, mark it
    running, run it unless it was cancelled or is already complete, and
    settle it as finished, failed or cancelled, counting completions and
    failures. The job table is a sequence of jobs in query order; what a
    job's `run` does and whether a client asked to cancel it are part of
    the job's description. */
module BackgroundJobs {
  import opened Wrappers

  datatype JobState = Waiting | Running | Cancelling | Finished | Cancelled | Failed

  predicate Terminal(s: JobState) {
    s.Finished? || s.Cancelled? || s.Failed?
  }

  /** What `job.run()` does: return (leaving the job in some state), raise
      an `Exception`, or be interrupted by a `KeyboardInterrupt`. */
  datatype RunOutcome = Completed(stateAfter: JobState) | Raised | Interrupted

  /** A background job: its state, its progress, whether a client set it
      to cancelling before the runner looked at it again, and what its
      `run` does. */
  datatype Job = Job(state: JobState, progress: real, cancelRequested: bool, outcome: RunOutcome)

  function WaitingCount(jobs: seq<Job>): (n: nat)
    ensures n <= |jobs|
  {
    if jobs == [] then 0
    else WaitingCount(jobs[..|jobs| - 1]) + (if jobs[|jobs| - 1].state.Waiting? then 1 else 0)
  }

  /** The first waiting job, as `.filter(_exec_state=WAITING).first()`
      finds it. */
  function FirstWaiting(jobs: seq<Job>): (r: Option<nat>)
    ensures r.Some? ==> r.value < |jobs| && jobs[r.value].state.Waiting?
    ensures r.Some? ==> forall k :: 0 <= k < r.value ==> !jobs[k].state.Waiting?
    ensures r.None? <==> forall k :: 0 <= k < |jobs| ==> !jobs[k].state.Waiting?
  {
    if jobs == [] then None
    else if jobs[0].state.Waiting? then Some(0)
    else match FirstWaiting(jobs[1..])
      case None => None
      case Some(i) => Some(i + 1)
  }

  /** The `finally` clause: a cancelling job becomes cancelled, a failed or
      cancelled one stays so, anything else becomes finished. */
  function FinallyState(s: JobState): (t: JobState)
    ensures Terminal(t)
    ensures Terminal(s) ==> t == (if s.Finished? then Finished else s)
    ensures s.Cancelling? <==> (t.Cancelled? && !s.Cancelled?)
    ensures !Terminal(s) && !s.Cancelling? ==> t == Finished
  {
    if s.Cancelling? then Cancelled
    else if s.Failed? || s.Cancelled? then s
    else Finished
  }

  /** What the runner does with a job it has claimed. */
  datatype Settled = Settled(state: JobState, completed: nat, failed: nat, skipped: bool)

  /** The state the claimed job ends in, whether it counts as completed or
      failed, and whether it was skipped by the `continue`. */
  function Settle(j: Job): (r: Settled)
    ensures Terminal(r.state)
    ensures r.skipped <==> j.cancelRequested || j.progress == 1.0
    ensures r.completed == (if !r.skipped && j.outcome.Completed? then 1 else 0)
    ensures r.failed == (if !r.skipped && j.outcome.Raised? then 1 else 0)
    ensures j.cancelRequested ==> r.state == Cancelled
    ensures r.skipped && !j.cancelRequested ==> r.state == Finished
    ensures !r.skipped && j.outcome.Raised? ==> r.state == Failed
    ensures !r.skipped && j.outcome.Interrupted? ==> r.state == Cancelled
    ensures !r.skipped && j.outcome.Completed? ==> r.state == FinallyState(j.outcome.stateAfter)
  {
    var observed := if j.cancelRequested then Cancelling else Running;
    if observed.Cancelling? || j.progress == 1.0 then
      Settled(FinallyState(observed), 0, 0, true)
    else
      match j.outcome
      case Completed(after) => Settled(FinallyState(after), 1, 0, false)
      case Raised => Settled(FinallyState(Failed), 0, 1, false)
      case Interrupted => Settled(FinallyState(Cancelling), 0, 0, false)
  }

  /** The runner's state between iterations of its loop. */
  datatype Progress = Progress(jobs: seq<Job>, count: nat, errors: nat, sleeps: nat, stop: bool)

  /** One iteration of the loop. With no waiting job it sleeps, unless in
      single mode; with one it claims and settles it. Single mode stops
      after the iteration, except when the claimed job was skipped by the
      `continue`, which jumps over the stop. */
  function Step(p: Progress, single: bool): (q: Progress)
    ensures |q.jobs| == |p.jobs|
    ensures q.stop <==> single && (FirstWaiting(p.jobs).None? || !Settle(p.jobs[FirstWaiting(p.jobs).value]).skipped)
  {
    match FirstWaiting(p.jobs)
    case None =>
      Progress(p.jobs, p.count, p.errors, if single then p.sleeps else p.sleeps + 1, single)
    case Some(i) =>
      var s := Settle(p.jobs[i]);
      Progress(p.jobs[i := p.jobs[i].(state := s.state)], p.count + s.completed, p.errors + s.failed,
               p.sleeps, single && !s.skipped)
  }

  /** The loop run until it stops by itself or until the SIGTERM that
      arrives during iteration `term` (counting from 0). It keeps the job
      table's size, stops by itself only in single mode, and sleeps at
      most once per iteration. */
  function Loop(p: Progress, single: bool, term: nat): (r: Progress)
    ensures |r.jobs| == |p.jobs|
    ensures r.stop ==> single
    ensures p.sleeps <= r.sleeps <= p.sleeps + term + 1
    decreases term
  {
    var q := Step(p, single);
    if q.stop || term == 0 then q else Loop(q, single, term - 1)
  }

  /** One iteration settles the first waiting job and leaves every other
      job alone. */
  lemma StepSettlesOne(p: Progress, single: bool)
    ensures var q := Step(p, single);
      forall k :: 0 <= k < |p.jobs| ==>
        q.jobs[k] == p.jobs[k] || (Some(k) == FirstWaiting(p.jobs) && Terminal(q.jobs[k].state))
    ensures var q := Step(p, single);
      q.count >= p.count && q.errors >= p.errors &&
      (q.count - p.count) + (q.errors - p.errors) + WaitingCount(q.jobs) <= WaitingCount(p.jobs)
  {
    match FirstWaiting(p.jobs)
    case None =>
    case Some(i) =>
      WaitingCountUpdate(p.jobs, i, p.jobs[i].(state := Settle(p.jobs[i]).state));
  }

  lemma {:induction false} WaitingCountUpdate(jobs: seq<Job>, i: nat, j: Job)
    requires i < |jobs| && jobs[i].state.Waiting? && !j.state.Waiting?
    ensures WaitingCount(jobs[i := j]) + 1 == WaitingCount(jobs)
    decreases |jobs|
  {
    var n := |jobs| - 1;
    if i < n {
      WaitingCountUpdate(jobs[..n], i, j);
      assert jobs[i := j][..n] == jobs[..n][i := j];
    } else {
      assert jobs[i := j][..n] == jobs[..n];
    }
  }

  /** The runner only ever changes waiting jobs, and leaves each job it
      changes finished, failed or cancelled: never running, never
      cancelling. */
  lemma {:induction false} LoopSettlesWaitingJobs(p: Progress, single: bool, term: nat)
    ensures |Loop(p, single, term).jobs| == |p.jobs|
    ensures forall k :: 0 <= k < |p.jobs| ==>
      Loop(p, single, term).jobs[k] == p.jobs[k] ||
      (p.jobs[k].state.Waiting? && Terminal(Loop(p, single, term).jobs[k].state))
    decreases term
  {
    StepSettlesOne(p, single);
    var q := Step(p, single);
    if !q.stop && term > 0 {
      LoopSettlesWaitingJobs(q, single, term - 1);
    }
  }

  /** Each completion or failure uses up one waiting job. */
  lemma {:induction false} LoopCounters(p: Progress, single: bool, term: nat)
    ensures var r := Loop(p, single, term);
      r.count >= p.count && r.errors >= p.errors &&
      (r.count - p.count) + (r.errors - p.errors) + WaitingCount(r.jobs) <= WaitingCount(p.jobs)
    decreases term
  {
    StepSettlesOne(p, single);
    var q := Step(p, single);
    if !q.stop && term > 0 {
      LoopCounters(q, single, term - 1);
    }
  }

  /** In single mode the runner never sleeps and runs at most one job:
      skipped jobs do not stop it, the first job it really runs does. */
  lemma {:induction false} SingleRunsAtMostOneJob(p: Progress, term: nat)
    ensures var r := Loop(p, true, term);
      r.sleeps == p.sleeps && (r.count - p.count) + (r.errors - p.errors) <= 1
    ensures Loop(p, true, term).count >= p.count && Loop(p, true, term).errors >= p.errors
    decreases term
  {
    var q := Step(p, true);
    StepSettlesOne(p, true);
    if !q.stop && term > 0 {
      SingleRunsAtMostOneJob(q, term - 1);
      assert q.count == p.count && q.errors == p.errors;
    }
  }

  /** With nothing to do, a looping runner sleeps once per iteration until
      SIGTERM, touching nothing. */
  lemma {:induction false} IdleLoopSleeps(p: Progress, term: nat)
    requires FirstWaiting(p.jobs).None?
    ensures var r := Loop(p, false, term);
      r.jobs == p.jobs && r.count == p.count && r.errors == p.errors && r.sleeps == p.sleeps + term + 1
    decreases term
  {
    if term > 0 {
      IdleLoopSleeps(Step(p, false), term - 1);
    }
  }

  /** The runner: the job table it works on and the number of times it
      slept for want of jobs. */
  class Runner {
    var jobs: seq<Job>
    var sleeps: nat

    constructor (jobs: seq<Job>)
      ensures this.jobs == jobs && sleeps == 0
    {
      this.jobs := jobs;
      sleeps := 0;
    }

    /** The locked query and the claim: the first waiting job becomes
        running. */
    method ClaimFirstWaiting() returns (claimed: Option<nat>)
      modifies this
      ensures claimed == FirstWaiting(old(jobs))
      ensures claimed.Some? ==> jobs == old(jobs)[claimed.value := old(jobs)[claimed.value].(state := Running)]
      ensures claimed.None? ==> jobs == old(jobs)
      ensures sleeps == old(sleeps)
    {
      var k := 0;
      while k < |jobs| && !jobs[k].state.Waiting?
        invariant 0 <= k <= |jobs|
        invariant forall m :: 0 <= m < k ==> !jobs[m].state.Waiting?
      {
        k := k + 1;
      }
      if k == |jobs| {
        claimed := None;
      } else {
        FirstWaitingIs(jobs, k);
        claimed := Some(k);
        jobs := jobs[k := jobs[k].(state := Running)];
      }
    }

    /** The `try` / `except` / `finally` around a claimed job. */
    method RunClaimed(i: nat) returns (completed: nat, failed: nat, skipped: bool)
      requires i < |jobs|
      modifies this
      ensures jobs == old(jobs)[i := old(jobs)[i].(state := Settle(old(jobs)[i]).state)]
      ensures Settled(jobs[i].state, completed, failed, skipped) == Settle(old(jobs)[i])
      ensures sleeps == old(sleeps)
    {
      var job := jobs[i];
      completed, failed, skipped := 0, 0, false;
      var state := if job.cancelRequested then Cancelling else Running;
      if state == Cancelling || job.progress == 1.0 {
        skipped := true;
      } else {
        match job.outcome
        case Completed(after) =>
          state := after;
          completed := 1;
        case Raised =>
          state := Failed;
          failed := 1;
        case Interrupted =>
          state := Cancelling;
      }
      if state == Cancelling {
        state := Cancelled;
      } else if state != Failed && state != Cancelled {
        state := Finished;
      }
      jobs := jobs[i := job.(state := state)];
    }

    /** One iteration of `handle`'s loop: claim the first waiting job and
        run it, or sleep when there is none outside single mode; `stop`
        says whether single mode leaves the loop after it. */
    method Iteration(single: bool, count: nat, errors: nat) returns (count': nat, errors': nat, stop: bool)
      modifies this
      ensures Progress(jobs, count', errors', sleeps, stop)
           == Step(Progress(old(jobs), count, errors, old(sleeps), false), single)
    {
      count', errors' := count, errors;
      var claimed := ClaimFirstWaiting();
      var skipped := false;
      if claimed.Some? {
        var completed, failed;
        completed, failed, skipped := RunClaimed(claimed.value);
        count', errors' := count + completed, errors + failed;
      } else if !single {
        sleeps := sleeps + 1;
      }
      stop := single && !skipped;
    }

    /** `handle`: loop until SIGTERM (which arrives during iteration
        `term`) or, in single mode, until a job was run or none was found.
        Returns the completed and failed counts it prints. */
    method Handle(single: bool, term: nat) returns (count: nat, errors: nat)
      modifies this
      ensures var r := Loop(Progress(old(jobs), 0, 0, old(sleeps), false), single, term);
        jobs == r.jobs && count == r.count && errors == r.errors && sleeps == r.sleeps
    {
      count, errors := 0, 0;
      ghost var final := Loop(Progress(jobs, 0, 0, sleeps, false), single, term);
      var running := true;
      var iteration := 0;
      while running
        invariant iteration <= term + 1
        invariant running ==> iteration <= term
        invariant running ==> Loop(Progress(jobs, count, errors, sleeps, false), single, term - iteration) == final
        invariant !running ==> jobs == final.jobs && count == final.count && errors == final.errors && sleeps == final.sleeps
        decreases term + 1 - iteration
      {
        var stop;
        count, errors, stop := Iteration(single, count, errors);
        if stop || iteration == term {
          running := false;
        }
        iteration := iteration + 1;
      }
    }
  }

  lemma FirstWaitingIs(jobs: seq<Job>, k: nat)
    requires k < |jobs| && jobs[k].state.Waiting?
    requires forall m :: 0 <= m < k ==> !jobs[m].state.Waiting?
    ensures FirstWaiting(jobs) == Some(k)
  {
  }
}
