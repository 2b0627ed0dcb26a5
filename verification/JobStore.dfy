/** The persistent job table (`token_bench/job_store.py`).  Every operation holds the
    write lock of the database for its whole length, so it is one step. */
module JobStore {
  import opened Wrappers

  datatype Status =
    | Queued | Running
    | Succeeded | Failed | Timeout | Cancelled | Blocked | ConfigError | WorkerError

  /** The columns that are written together when a job ends and cleared together. */
  datatype FinishData = FinishData(returncode: Option<int>, finishedAt: string, duration: real,
                                   stdoutPath: string, stderrPath: string, command: string)

  /** One run of a plan; `settings` are the columns that are only copied. */
  datatype RunSpec = RunSpec(runId: string, settings: string)

  datatype Plan = Plan(digest: string, runs: seq<RunSpec>, settings: string)

  datatype Approval = Approval(digest: string, plan: Plan)

  datatype Job = Job(sequence: nat, run: RunSpec, digest: string, status: Status, enqueuedAt: string,
                     startedAt: Option<string>, finish: Option<FinishData>)

  datatype StoreError = DigestMismatch | PlanMismatch | ApprovalConsumed | DuplicateRun | WrongState

  /** Both tables; `jobs` is in order of sequence numbers, which are never reused. */
  datatype Db = Db(jobs: seq<Job>, consumed: set<string>, nextSequence: nat)

  /** The position of a run's row, or the number of rows. */
  function Find(jobs: seq<Job>, runId: string): (i: nat)
    ensures i <= |jobs|
    ensures i < |jobs| ==> jobs[i].run.runId == runId
    ensures forall k :: 0 <= k < i ==> jobs[k].run.runId != runId
  {
    if jobs == [] || jobs[0].run.runId == runId then 0 else 1 + Find(jobs[1..], runId)
  }

  /** The position of the first row with a status, or the number of rows. */
  function FirstWith(jobs: seq<Job>, status: Status): (i: nat)
    ensures i <= |jobs|
    ensures i < |jobs| ==> jobs[i].status == status
    ensures forall k :: 0 <= k < i ==> jobs[k].status != status
  {
    if jobs == [] || jobs[0].status == status then 0 else 1 + FirstWith(jobs[1..], status)
  }

  function JobsForDigest(jobs: seq<Job>, digest: string): seq<Job> {
    if jobs == [] then []
    else (if jobs[0].digest == digest then [jobs[0]] else []) + JobsForDigest(jobs[1..], digest)
  }

  function NewJob(run: RunSpec, digest: string, now: string, sequence: nat): Job {
    Job(sequence, run, digest, Queued, now, None, None)
  }

  // ---------- the operations on values ----------

  /** Inserts the runs one after another; a run id that is taken fails. */
  function Inserted(db: Db, runs: seq<RunSpec>, digest: string, now: string): Option<Db>
    decreases |runs|
  {
    if runs == [] then Some(db)
    else if Find(db.jobs, runs[0].runId) < |db.jobs| then None
    else
      var job := NewJob(runs[0], digest, now, db.nextSequence);
      Inserted(db.(jobs := db.jobs + [job], nextSequence := db.nextSequence + 1), runs[1..], digest, now)
  }

  function AfterEnqueue(db: Db, plan: Plan, approval: Approval, now: string): (Db, Result<seq<Job>, StoreError>) {
    if approval.digest != plan.digest then (db, Err(DigestMismatch))
    else if approval.plan != plan then (db, Err(PlanMismatch))
    else
      var existing := JobsForDigest(db.jobs, plan.digest);
      if existing != [] then (db, Ok(existing))
      else if plan.digest in db.consumed then (db, Err(ApprovalConsumed))
      else
        match Inserted(db.(consumed := db.consumed + {plan.digest}), plan.runs, plan.digest, now)
        case None => (db, Err(DuplicateRun))
        case Some(db') => (db', Ok(JobsForDigest(db'.jobs, plan.digest)))
  }

  function AfterClaim(db: Db, now: string): (Db, Option<Job>) {
    var i := FirstWith(db.jobs, Queued);
    if i == |db.jobs| then (db, None)
    else
      var job := db.jobs[i].(status := Running, startedAt := Some(now));
      (db.(jobs := db.jobs[i := job]), Some(job))
  }

  /** Rewrites the row of a run if its status allows it. */
  function Rewritten(db: Db, runId: string, allowed: Status -> bool, change: Job -> Job)
    : (Db, Result<Job, StoreError>)
  {
    var i := Find(db.jobs, runId);
    if i == |db.jobs| || !allowed(db.jobs[i].status) then (db, Err(WrongState))
    else (db.(jobs := db.jobs[i := change(db.jobs[i])]), Ok(change(db.jobs[i])))
  }

  predicate IsRunning(s: Status) {
    s == Running
  }

  predicate IsRetryable(s: Status) {
    s != Queued && s != Running && s != Succeeded
  }

  function Reset(job: Job): Job {
    job.(status := Queued, startedAt := None, finish := None)
  }

  function Requeue(job: Job): Job {
    job.(status := Queued, startedAt := None)
  }

  function AfterFinish(db: Db, runId: string, status: Status, data: FinishData): (Db, Result<Job, StoreError>) {
    Rewritten(db, runId, IsRunning, (job: Job) => job.(status := status, finish := Some(data)))
  }

  function AfterRetry(db: Db, runId: string): (Db, Result<Job, StoreError>) {
    Rewritten(db, runId, IsRetryable, Reset)
  }

  function AfterRequeue(db: Db, runId: string): (Db, Result<Job, StoreError>) {
    Rewritten(db, runId, IsRunning, Requeue)
  }

  function AfterDelete(db: Db, runId: string): (Db, Option<StoreError>) {
    var i := Find(db.jobs, runId);
    if i == |db.jobs| || db.jobs[i].status == Running then (db, Some(WrongState))
    else (db.(jobs := db.jobs[..i] + db.jobs[i + 1..]), None)
  }

  function Recovered(job: Job): Job {
    if job.status == Running then Requeue(job) else job
  }

  function AfterRecovery(db: Db): Db {
    db.(jobs := seq(|db.jobs|, i requires 0 <= i < |db.jobs| => Recovered(db.jobs[i])))
  }

  // ---------- the store ----------

  class Store {
    var jobs: seq<Job>
    var consumed: set<string>
    var nextSequence: nat

    function Contents(): Db
      reads this
    {
      Db(jobs, consumed, nextSequence)
    }

    constructor ()
      ensures Contents() == Db([], {}, 1)
    {
      jobs, consumed, nextSequence := [], {}, 1;
    }

    method FindRow(runId: string) returns (i: nat)
      ensures i == Find(jobs, runId)
    {
      i := 0;
      while i < |jobs| && jobs[i].run.runId != runId
        invariant 0 <= i <= |jobs|
        invariant Find(jobs, runId) == i + Find(jobs[i..], runId)
      {
        assert jobs[i..][1..] == jobs[i + 1..];
        i := i + 1;
      }
    }

    method SelectDigest(digest: string) returns (found: seq<Job>)
      ensures found == JobsForDigest(jobs, digest)
    {
      found := [];
      for i := 0 to |jobs|
        invariant found + JobsForDigest(jobs[i..], digest) == JobsForDigest(jobs, digest)
      {
        assert jobs[i..][1..] == jobs[i + 1..];
        if jobs[i].digest == digest {
          found := found + [jobs[i]];
        }
      }
    }

    method Enqueue(plan: Plan, approval: Approval, now: string) returns (r: Result<seq<Job>, StoreError>)
      modifies this
      ensures (Contents(), r) == AfterEnqueue(old(Contents()), plan, approval, now)
    {
      if approval.digest != plan.digest {
        return Err(DigestMismatch);
      }
      if approval.plan != plan {
        return Err(PlanMismatch);
      }
      var existing := SelectDigest(plan.digest);
      if existing != [] {
        return Ok(existing);
      }
      if plan.digest in consumed {
        return Err(ApprovalConsumed);
      }
      // What a rollback restores.
      var savedJobs, savedConsumed, savedSequence := jobs, consumed, nextSequence;
      consumed := consumed + {plan.digest};
      ghost var begun := Contents();
      for k := 0 to |plan.runs|
        invariant Inserted(Contents(), plan.runs[k..], plan.digest, now) == Inserted(begun, plan.runs, plan.digest, now)
      {
        assert plan.runs[k..][0] == plan.runs[k] && plan.runs[k..][1..] == plan.runs[k + 1..];
        var i := FindRow(plan.runs[k].runId);
        if i < |jobs| {
          jobs, consumed, nextSequence := savedJobs, savedConsumed, savedSequence;
          return Err(DuplicateRun);
        }
        jobs := jobs + [NewJob(plan.runs[k], plan.digest, now, nextSequence)];
        nextSequence := nextSequence + 1;
      }
      var inserted := SelectDigest(plan.digest);
      r := Ok(inserted);
    }

    method ClaimNextQueued(now: string) returns (claimed: Option<Job>)
      modifies this
      ensures (Contents(), claimed) == AfterClaim(old(Contents()), now)
    {
      var i := 0;
      while i < |jobs| && jobs[i].status != Queued
        invariant 0 <= i <= |jobs|
        invariant FirstWith(jobs, Queued) == i + FirstWith(jobs[i..], Queued)
      {
        assert jobs[i..][1..] == jobs[i + 1..];
        i := i + 1;
      }
      if i == |jobs| {
        return None;
      }
      var job := jobs[i].(status := Running, startedAt := Some(now));
      jobs := jobs[i := job];
      claimed := Some(job);
    }

    method FinishJob(runId: string, status: Status, data: FinishData) returns (r: Result<Job, StoreError>)
      modifies this
      ensures (Contents(), r) == AfterFinish(old(Contents()), runId, status, data)
    {
      var i := FindRow(runId);
      if i == |jobs| || jobs[i].status != Running {
        return Err(WrongState);
      }
      var job := jobs[i].(status := status, finish := Some(data));
      jobs := jobs[i := job];
      r := Ok(job);
    }

    method DeleteJob(runId: string) returns (r: Option<StoreError>)
      modifies this
      ensures (Contents(), r) == AfterDelete(old(Contents()), runId)
    {
      var i := FindRow(runId);
      if i == |jobs| || jobs[i].status == Running {
        return Some(WrongState);
      }
      jobs := jobs[..i] + jobs[i + 1..];
      r := None;
    }

    method RetryJob(runId: string) returns (r: Result<Job, StoreError>)
      modifies this
      ensures (Contents(), r) == AfterRetry(old(Contents()), runId)
    {
      var i := FindRow(runId);
      if i == |jobs| || jobs[i].status == Queued || jobs[i].status == Running || jobs[i].status == Succeeded {
        return Err(WrongState);
      }
      var job := jobs[i].(status := Queued, startedAt := None, finish := None);
      jobs := jobs[i := job];
      r := Ok(job);
    }

    method RequeueJob(runId: string) returns (r: Result<Job, StoreError>)
      modifies this
      ensures (Contents(), r) == AfterRequeue(old(Contents()), runId)
    {
      var i := FindRow(runId);
      if i == |jobs| || jobs[i].status != Running {
        return Err(WrongState);
      }
      var job := jobs[i].(status := Queued, startedAt := None);
      jobs := jobs[i := job];
      r := Ok(job);
    }

    /** The rows returned are those found running, as they were. */
    method RequeueOrphanedRunning() returns (orphans: seq<Job>)
      modifies this
      ensures Contents() == AfterRecovery(old(Contents()))
      ensures forall job :: job in orphans <==> job in old(jobs) && job.status == Running
    {
      orphans := [];
      var rows := [];
      for i := 0 to |jobs|
        invariant rows == AfterRecovery(Contents()).jobs[..i]
        invariant jobs == old(jobs)
        invariant forall job :: job in orphans <==> job in jobs[..i] && job.status == Running
      {
        assert jobs[..i + 1] == jobs[..i] + [jobs[i]];
        if jobs[i].status == Running {
          orphans := orphans + [jobs[i]];
        }
        rows := rows + [Recovered(jobs[i])];
      }
      assert jobs[..|jobs|] == jobs;
      jobs := rows;
    }
  }
}
