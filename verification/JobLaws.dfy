/** What every operation of the job store keeps. */
module JobLaws {
  import opened Wrappers
  import opened Sequences
  import opened JobStore

  ghost predicate Increasing(db: Db) {
    && 1 <= db.nextSequence
    && (forall i :: 0 <= i < |db.jobs| ==> db.jobs[i].sequence < db.nextSequence)
    && forall i, j :: 0 <= i < j < |db.jobs| ==> db.jobs[i].sequence < db.jobs[j].sequence
  }

  ghost predicate UniqueRuns(db: Db) {
    forall i, j :: 0 <= i < j < |db.jobs| ==> db.jobs[i].run.runId != db.jobs[j].run.runId
  }

  /** Queued exactly when not started; no finish data before the end, always after it. */
  ghost predicate Lifecycle(job: Job) {
    && (job.status == Queued <==> job.startedAt.None?)
    && (job.status == Queued || job.status == Running <==> job.finish.None?)
  }

  ghost predicate StoreInvariant(db: Db) {
    && Increasing(db) && UniqueRuns(db)
    && (forall i :: 0 <= i < |db.jobs| ==> Lifecycle(db.jobs[i]))
    && forall i :: 0 <= i < |db.jobs| ==> db.jobs[i].digest in db.consumed
  }

  ghost predicate NoneRunning(db: Db) {
    forall i :: 0 <= i < |db.jobs| ==> db.jobs[i].status != Running
  }

  ghost predicate AtMostOneRunning(db: Db) {
    forall i, j :: 0 <= i < j < |db.jobs| ==> db.jobs[i].status != Running || db.jobs[j].status != Running
  }

  /** The run is the only one running. */
  ghost predicate OnlyRunning(db: Db, runId: string) {
    && Find(db.jobs, runId) < |db.jobs|
    && forall i :: 0 <= i < |db.jobs| ==> (db.jobs[i].status == Running <==> db.jobs[i].run.runId == runId)
  }

  predicate Terminal(s: Status) {
    s != Queued && s != Running
  }

  // ---------- enqueue ----------

  ghost predicate NewRuns(db: Db, runs: seq<RunSpec>) {
    && (forall i :: 0 <= i < |runs| ==> Find(db.jobs, runs[i].runId) == |db.jobs|)
    && forall i, j :: 0 <= i < j < |runs| ==> runs[i].runId != runs[j].runId
  }

  function NewJobs(runs: seq<RunSpec>, digest: string, now: string, first: nat): seq<Job> {
    seq(|runs|, i requires 0 <= i < |runs| => NewJob(runs[i], digest, now, first + i))
  }

  lemma {:induction false} FindAppended(jobs: seq<Job>, job: Job, runId: string)
    ensures Find(jobs + [job], runId) ==
            if Find(jobs, runId) < |jobs| then Find(jobs, runId)
            else if job.run.runId == runId then |jobs| else |jobs| + 1
  {
    if jobs == [] {
    } else {
      assert (jobs + [job])[1..] == jobs[1..] + [job];
      FindAppended(jobs[1..], job, runId);
    }
  }

  /** After the first run is inserted, the others are new if and only if they were. */
  lemma NewRunsAfterOne(db: Db, job: Job, runs: seq<RunSpec>)
    requires runs != [] && Find(db.jobs, runs[0].runId) == |db.jobs| && job.run == runs[0]
    ensures NewRuns(db, runs) <==> NewRuns(db.(jobs := db.jobs + [job], nextSequence := db.nextSequence + 1), runs[1..])
  {
    var db1 := db.(jobs := db.jobs + [job], nextSequence := db.nextSequence + 1);
    forall i | 0 <= i < |runs| - 1
      ensures Find(db1.jobs, runs[1..][i].runId) == |db1.jobs| <==>
              Find(db.jobs, runs[i + 1].runId) == |db.jobs| && runs[i + 1].runId != runs[0].runId
    {
      FindAppended(db.jobs, job, runs[i + 1].runId);
    }
    NewRunsStep(db, db1, runs);
  }

  lemma {:induction false} InsertedRows(db: Db, runs: seq<RunSpec>, digest: string, now: string)
    requires NewRuns(db, runs)
    ensures Inserted(db, runs, digest, now) ==
            Some(Db(db.jobs + NewJobs(runs, digest, now, db.nextSequence), db.consumed, db.nextSequence + |runs|))
    decreases |runs|
  {
    if runs == [] {
      assert db.jobs + NewJobs(runs, digest, now, db.nextSequence) == db.jobs;
    } else {
      var job := NewJob(runs[0], digest, now, db.nextSequence);
      var db1 := db.(jobs := db.jobs + [job], nextSequence := db.nextSequence + 1);
      NewRunsAfterOne(db, job, runs);
      InsertedRows(db1, runs[1..], digest, now);
      NewJobsAfterOne(runs, digest, now, db.nextSequence);
      assert db.jobs + [job] + NewJobs(runs[1..], digest, now, db1.nextSequence) ==
             db.jobs + NewJobs(runs, digest, now, db.nextSequence);
    }
  }

  lemma NewJobsAfterOne(runs: seq<RunSpec>, digest: string, now: string, first: nat)
    requires runs != []
    ensures NewJobs(runs, digest, now, first) ==
            [NewJob(runs[0], digest, now, first)] + NewJobs(runs[1..], digest, now, first + 1)
  {
  }

  lemma {:induction false} InsertionFails(db: Db, runs: seq<RunSpec>, digest: string, now: string)
    requires !NewRuns(db, runs)
    ensures Inserted(db, runs, digest, now).None?
    decreases |runs|
  {
    if Find(db.jobs, runs[0].runId) == |db.jobs| {
      var job := NewJob(runs[0], digest, now, db.nextSequence);
      NewRunsAfterOne(db, job, runs);
      InsertionFails(db.(jobs := db.jobs + [job], nextSequence := db.nextSequence + 1), runs[1..], digest, now);
    }
  }

  lemma NewRunsStep(db: Db, db1: Db, runs: seq<RunSpec>)
    requires runs != [] && Find(db.jobs, runs[0].runId) == |db.jobs|
    requires forall i :: 0 <= i < |runs| - 1 ==>
               (Find(db1.jobs, runs[1..][i].runId) == |db1.jobs| <==>
                Find(db.jobs, runs[i + 1].runId) == |db.jobs| && runs[i + 1].runId != runs[0].runId)
    ensures NewRuns(db, runs) <==> NewRuns(db1, runs[1..])
  {
    var rest := runs[1..];
    if NewRuns(db, runs) {
      forall i, j | 0 <= i < j < |rest|
        ensures rest[i].runId != rest[j].runId
      {
        assert runs[i + 1].runId != runs[j + 1].runId;
      }
    }
    if NewRuns(db1, rest) {
      forall i | 0 <= i < |runs|
        ensures Find(db.jobs, runs[i].runId) == |db.jobs|
      {
        assert i > 0 ==> rest[i - 1] == runs[i];
      }
      forall i, j | 0 <= i < j < |runs|
        ensures runs[i].runId != runs[j].runId
      {
        assert rest[j - 1] == runs[j];
        assert i > 0 ==> rest[i - 1] == runs[i];
      }
    }
  }

  lemma {:induction false} DigestOf(jobs: seq<Job>, digest: string)
    ensures forall job :: job in JobsForDigest(jobs, digest) <==> job in jobs && job.digest == digest
    ensures (forall i :: 0 <= i < |jobs| ==> jobs[i].digest == digest) ==> JobsForDigest(jobs, digest) == jobs
  {
    if jobs == [] {
    } else {
      DigestOf(jobs[1..], digest);
      assert jobs == [jobs[0]] + jobs[1..];
    }
  }

  lemma DigestFirst(job: Job, rest: seq<Job>, digest: string)
    ensures JobsForDigest([job] + rest, digest) ==
            (if job.digest == digest then [job] else []) + JobsForDigest(rest, digest)
  {
    assert ([job] + rest)[1..] == rest;
  }

  lemma {:induction false} DigestConcat(a: seq<Job>, b: seq<Job>, digest: string)
    ensures JobsForDigest(a + b, digest) == JobsForDigest(a, digest) + JobsForDigest(b, digest)
  {
    if a == [] {
      assert a + b == b;
    } else {
      var first, rest := a[0], a[1..];
      assert a == [first] + rest && a + b == [first] + (rest + b);
      DigestFirst(first, rest, digest);
      DigestFirst(first, rest + b, digest);
      DigestConcat(rest, b, digest);
      var found := if first.digest == digest then [first] else [];
      Associative(found, JobsForDigest(rest, digest), JobsForDigest(b, digest));
    }
  }

  /** When an approved plan is accepted anew. */
  ghost predicate Acceptable(db: Db, plan: Plan, approval: Approval) {
    && approval.digest == plan.digest && approval.plan == plan
    && JobsForDigest(db.jobs, plan.digest) == []
    && plan.digest !in db.consumed
    && NewRuns(db, plan.runs)
  }

  /** All or nothing: either every run of the plan is queued in plan order under the
      next sequence numbers and the approval is used up, or nothing changes. */
  lemma EnqueueIsAllOrNothing(db: Db, plan: Plan, approval: Approval, now: string)
    ensures var (db', r) := AfterEnqueue(db, plan, approval, now);
            if Acceptable(db, plan, approval) then
              var added := NewJobs(plan.runs, plan.digest, now, db.nextSequence);
              db' == Db(db.jobs + added, db.consumed + {plan.digest}, db.nextSequence + |plan.runs|) && r == Ok(added)
            else
              && db' == db
              && (r.Ok? <==> approval.digest == plan.digest && approval.plan == plan
                             && JobsForDigest(db.jobs, plan.digest) != [])
              && (r.Ok? ==> r.value == JobsForDigest(db.jobs, plan.digest))
  {
    var begun := db.(consumed := db.consumed + {plan.digest});
    if !NewRuns(begun, plan.runs) {
      InsertionFails(begun, plan.runs, plan.digest, now);
    } else {
      InsertedRows(begun, plan.runs, plan.digest, now);
      if Acceptable(db, plan, approval) {
        AddedAreSelected(db.jobs, NewJobs(plan.runs, plan.digest, now, db.nextSequence), plan.digest);
      }
    }
  }

  lemma AddedAreSelected(jobs: seq<Job>, added: seq<Job>, digest: string)
    requires JobsForDigest(jobs, digest) == []
    requires forall i :: 0 <= i < |added| ==> added[i].digest == digest
    ensures JobsForDigest(jobs + added, digest) == added
  {
    DigestConcat(jobs, added, digest);
    DigestOf(added, digest);
    assert [] + added == added;
  }

  lemma AppendedAreQueued(jobs: seq<Job>, runs: seq<RunSpec>, digest: string, now: string, first: nat)
    ensures var jobs' := jobs + NewJobs(runs, digest, now, first);
            jobs <= jobs' && forall i :: |jobs| <= i < |jobs'| ==> jobs'[i].status == Queued
  {
  }

  lemma EnqueueKeepsStore(db: Db, plan: Plan, approval: Approval, now: string)
    requires StoreInvariant(db)
    ensures var db' := AfterEnqueue(db, plan, approval, now).0;
            && StoreInvariant(db') && db.consumed <= db'.consumed
            && db.jobs <= db'.jobs
            && forall i :: |db.jobs| <= i < |db'.jobs| ==> db'.jobs[i].status == Queued
  {
    EnqueueIsAllOrNothing(db, plan, approval, now);
    if Acceptable(db, plan, approval) {
      AppendingKeepsStore(db, plan.runs, plan.digest, now);
      AppendedAreQueued(db.jobs, plan.runs, plan.digest, now, db.nextSequence);
    }
  }

  lemma AppendingKeepsOrder(db: Db, runs: seq<RunSpec>, digest: string, now: string)
    requires StoreInvariant(db) && NewRuns(db, runs)
    ensures var db' := Db(db.jobs + NewJobs(runs, digest, now, db.nextSequence), db.consumed + {digest},
                          db.nextSequence + |runs|);
            Increasing(db') && UniqueRuns(db')
  {
    var jobs := db.jobs + NewJobs(runs, digest, now, db.nextSequence);
    forall i, j | 0 <= i < j < |jobs|
      ensures jobs[i].run.runId != jobs[j].run.runId && jobs[i].sequence < jobs[j].sequence
    {
      if i < |db.jobs| <= j {
        assert Find(db.jobs, runs[j - |db.jobs|].runId) == |db.jobs|;
      }
    }
  }

  lemma AppendingKeepsStore(db: Db, runs: seq<RunSpec>, digest: string, now: string)
    requires StoreInvariant(db) && NewRuns(db, runs)
    ensures StoreInvariant(Db(db.jobs + NewJobs(runs, digest, now, db.nextSequence), db.consumed + {digest},
                              db.nextSequence + |runs|))
  {
    AppendingKeepsOrder(db, runs, digest, now);
    var jobs := db.jobs + NewJobs(runs, digest, now, db.nextSequence);
    forall i | 0 <= i < |jobs|
      ensures Lifecycle(jobs[i]) && jobs[i].digest in db.consumed + {digest}
    {
    }
  }

  lemma EnqueueKeepsRow(db: Db, plan: Plan, approval: Approval, now: string, job: Job)
    requires StoreInvariant(db) && job in db.jobs
    ensures job in AfterEnqueue(db, plan, approval, now).0.jobs
  {
    EnqueueKeepsStore(db, plan, approval, now);
    var k :| 0 <= k < |db.jobs| && db.jobs[k] == job;
    assert AfterEnqueue(db, plan, approval, now).0.jobs[k] == job;
  }

  // ---------- changes of one row ----------

  /** Only the progress of one job changed. */
  ghost predicate OneRowChanged(db: Db, db': Db, i: nat)
    requires i < |db.jobs|
  {
    && |db'.jobs| == |db.jobs| && db'.jobs == db.jobs[i := db'.jobs[i]]
    && db'.consumed == db.consumed && db'.nextSequence == db.nextSequence
    && db'.jobs[i].sequence == db.jobs[i].sequence
    && db'.jobs[i].run == db.jobs[i].run && db'.jobs[i].digest == db.jobs[i].digest
  }

  lemma RowChangeKeepsStore(db: Db, db': Db, i: nat)
    requires StoreInvariant(db) && i < |db.jobs| && OneRowChanged(db, db', i) && Lifecycle(db'.jobs[i])
    ensures StoreInvariant(db')
  {
  }

  lemma FindIsUnique(db: Db, i: nat)
    requires UniqueRuns(db) && i < |db.jobs|
    ensures Find(db.jobs, db.jobs[i].run.runId) == i
  {
    var k := Find(db.jobs, db.jobs[i].run.runId);
    assert k <= i;
  }

  /** Claiming takes the queued job with the smallest sequence number. */
  lemma ClaimTakesTheFirst(db: Db, now: string)
    requires StoreInvariant(db) && NoneRunning(db)
    ensures var (db', claimed) := AfterClaim(db, now);
            && StoreInvariant(db')
            && (claimed.None? ==> db' == db && forall i :: 0 <= i < |db.jobs| ==> db.jobs[i].status != Queued)
            && (claimed.Some? ==>
                  var i := FirstWith(db.jobs, Queued);
                  && i < |db.jobs| && OneRowChanged(db, db', i) && db'.jobs[i] == claimed.value
                  && OnlyRunning(db', claimed.value.run.runId)
                  && forall j :: 0 <= j < |db.jobs| && db.jobs[j].status == Queued ==>
                       claimed.value.sequence <= db.jobs[j].sequence)
  {
    var (db', claimed) := AfterClaim(db, now);
    var i := FirstWith(db.jobs, Queued);
    if claimed.Some? {
      RowChangeKeepsStore(db, db', i);
      FindIsUnique(db', i);
    }
  }

  /** Ending the running job succeeds and leaves none running. */
  lemma FinishEndsTheRun(db: Db, runId: string, status: Status, data: FinishData)
    requires StoreInvariant(db) && OnlyRunning(db, runId) && Terminal(status)
    ensures var (db', r) := AfterFinish(db, runId, status, data);
            && StoreInvariant(db') && NoneRunning(db')
            && r.Ok? && r.value.status == status && OneRowChanged(db, db', Find(db.jobs, runId))
  {
    var i := Find(db.jobs, runId);
    RowChangeKeepsStore(db, AfterFinish(db, runId, status, data).0, i);
  }

  lemma RequeueEndsTheRun(db: Db, runId: string)
    requires StoreInvariant(db) && OnlyRunning(db, runId)
    ensures var (db', r) := AfterRequeue(db, runId);
            && StoreInvariant(db') && NoneRunning(db')
            && r.Ok? && r.value.status == Queued && OneRowChanged(db, db', Find(db.jobs, runId))
  {
    var i := Find(db.jobs, runId);
    RowChangeKeepsStore(db, AfterRequeue(db, runId).0, i);
  }

  /** Which jobs are running is the same on both sides. */
  ghost predicate SameRunning(db: Db, db': Db) {
    && (NoneRunning(db) ==> NoneRunning(db'))
    && (AtMostOneRunning(db) ==> AtMostOneRunning(db'))
    && (forall runId :: OnlyRunning(db, runId) ==> OnlyRunning(db', runId))
  }

  /** A row that was not running and is not running now. */
  lemma QuietRowKeepsRunning(db: Db, db': Db, i: nat)
    requires UniqueRuns(db') && i < |db.jobs| && OneRowChanged(db, db', i)
    requires db.jobs[i].status != Running && db'.jobs[i].status != Running
    ensures SameRunning(db, db')
  {
    forall runId | OnlyRunning(db, runId)
      ensures OnlyRunning(db', runId)
    {
      FindIsUnique(db', Find(db.jobs, runId));
    }
  }

  lemma RetryKeepsStore(db: Db, runId: string)
    requires StoreInvariant(db)
    ensures var db' := AfterRetry(db, runId).0;
            StoreInvariant(db') && SameRunning(db, db')
  {
    if AfterRetry(db, runId).1.Ok? {
      RowChangeKeepsStore(db, AfterRetry(db, runId).0, Find(db.jobs, runId));
      QuietRowKeepsRunning(db, AfterRetry(db, runId).0, Find(db.jobs, runId));
    }
  }

  lemma EnqueueKeepsRunning(db: Db, plan: Plan, approval: Approval, now: string)
    requires StoreInvariant(db)
    ensures SameRunning(db, AfterEnqueue(db, plan, approval, now).0)
  {
    EnqueueKeepsStore(db, plan, approval, now);
    var db' := AfterEnqueue(db, plan, approval, now).0;
    forall r | OnlyRunning(db, r)
      ensures OnlyRunning(db', r)
    {
      var k := Find(db.jobs, r);
      assert db'.jobs[k] == db.jobs[k];
      FindIsUnique(db', k);
    }
  }

  /** The table without one row. */
  function Without(db: Db, i: nat): Db
    requires i < |db.jobs|
  {
    db.(jobs := db.jobs[..i] + db.jobs[i + 1..])
  }

  /** Where a row of the shorter table was. */
  function Before(i: nat, k: nat): nat {
    if k < i then k else k + 1
  }

  lemma WithoutRow(db: Db, i: nat, k: nat)
    requires i < |db.jobs| && k < |db.jobs| - 1
    ensures Without(db, i).jobs[k] == db.jobs[Before(i, k)]
  {
  }

  lemma WithoutKeepsInvariant(db: Db, i: nat)
    requires StoreInvariant(db) && i < |db.jobs|
    ensures StoreInvariant(Without(db, i))
  {
    var jobs := Without(db, i).jobs;
    forall k | 0 <= k < |jobs|
      ensures Lifecycle(jobs[k]) && jobs[k].digest in db.consumed && jobs[k].sequence < db.nextSequence
    {
      WithoutRow(db, i, k);
    }
    forall k, l | 0 <= k < l < |jobs|
      ensures jobs[k].sequence < jobs[l].sequence && jobs[k].run.runId != jobs[l].run.runId
    {
      WithoutRow(db, i, k);
      WithoutRow(db, i, l);
    }
  }

  lemma WithoutKeepsFew(db: Db, i: nat)
    requires i < |db.jobs|
    ensures NoneRunning(db) ==> NoneRunning(Without(db, i))
    ensures AtMostOneRunning(db) ==> AtMostOneRunning(Without(db, i))
  {
    var jobs := Without(db, i).jobs;
    if NoneRunning(db) {
      forall k | 0 <= k < |jobs|
        ensures jobs[k].status != Running
      {
        WithoutRow(db, i, k);
      }
    }
    if AtMostOneRunning(db) {
      forall k, l | 0 <= k < l < |jobs|
        ensures jobs[k].status != Running || jobs[l].status != Running
      {
        WithoutRow(db, i, k);
        WithoutRow(db, i, l);
      }
    }
  }

  lemma WithoutKeepsOnly(db: Db, i: nat, runId: string)
    requires StoreInvariant(db) && i < |db.jobs| && db.jobs[i].status != Running && OnlyRunning(db, runId)
    ensures OnlyRunning(Without(db, i), runId)
  {
    var db' := Without(db, i);
    WithoutKeepsInvariant(db, i);
    forall k | 0 <= k < |db'.jobs|
      ensures db'.jobs[k].status == Running <==> db'.jobs[k].run.runId == runId
    {
      WithoutRow(db, i, k);
    }
    var k := Find(db.jobs, runId);
    var k' := if k < i then k else k - 1;
    WithoutRow(db, i, k');
    FindIsUnique(db', k');
  }

  lemma WithoutKeepsRunning(db: Db, i: nat)
    requires StoreInvariant(db) && i < |db.jobs| && db.jobs[i].status != Running
    ensures SameRunning(db, Without(db, i))
  {
    WithoutKeepsFew(db, i);
    forall runId | OnlyRunning(db, runId)
      ensures OnlyRunning(Without(db, i), runId)
    {
      WithoutKeepsOnly(db, i, runId);
    }
  }

  lemma WithoutMembers(db: Db, i: nat)
    requires UniqueRuns(db) && i < |db.jobs|
    ensures forall job :: job in Without(db, i).jobs <==> job in db.jobs && job.run.runId != db.jobs[i].run.runId
  {
    var jobs := Without(db, i).jobs;
    forall job | job in db.jobs && job.run.runId != db.jobs[i].run.runId
      ensures job in jobs
    {
      var k :| 0 <= k < |db.jobs| && db.jobs[k] == job;
      var k' := if k < i then k else k - 1;
      WithoutRow(db, i, k');
    }
    forall job | job in jobs
      ensures job in db.jobs && job.run.runId != db.jobs[i].run.runId
    {
      var k :| 0 <= k < |jobs| && jobs[k] == job;
      WithoutRow(db, i, k);
    }
  }

  /** Deleting removes just the named job, and never one that is running. */
  lemma DeleteKeepsStore(db: Db, runId: string)
    requires StoreInvariant(db)
    ensures var (db', r) := AfterDelete(db, runId);
            && StoreInvariant(db') && SameRunning(db, db')
            && (r.None? <==> Find(db.jobs, runId) < |db.jobs| && db.jobs[Find(db.jobs, runId)].status != Running)
            && (r.None? ==> forall job :: job in db'.jobs <==> job in db.jobs && job.run.runId != runId)
            && (r.Some? ==> db' == db)
  {
    var i := Find(db.jobs, runId);
    if AfterDelete(db, runId).1.None? {
      assert AfterDelete(db, runId).0 == Without(db, i);
      WithoutKeepsInvariant(db, i);
      WithoutKeepsRunning(db, i);
      WithoutMembers(db, i);
    }
  }

  /** Recovery puts every orphan back in its place and touches no other job. */
  lemma RecoveryKeepsStore(db: Db)
    requires StoreInvariant(db)
    ensures var db' := AfterRecovery(db);
            && StoreInvariant(db') && NoneRunning(db')
            && |db'.jobs| == |db.jobs|
            && forall i :: 0 <= i < |db.jobs| ==>
                 if db.jobs[i].status == Running then db'.jobs[i] == Requeue(db.jobs[i]) else db'.jobs[i] == db.jobs[i]
  {
  }

  /** A claim whose job is never ended is undone by the next recovery: the job is back
      in its place as it was. */
  lemma RecoveryUndoesClaim(db: Db, now: string)
    requires StoreInvariant(db) && NoneRunning(db)
    ensures AfterRecovery(AfterClaim(db, now).0) == db
  {
    var i := FirstWith(db.jobs, Queued);
    var db' := AfterRecovery(AfterClaim(db, now).0);
    forall k | 0 <= k < |db.jobs|
      ensures db'.jobs[k] == db.jobs[k]
    {
      assert k == i ==> db.jobs[k].status == Queued && db.jobs[k].startedAt.None?;
    }
  }

  // ---------- a measured result stands ----------

  lemma RowChangeKeepsOthers(db: Db, db': Db, i: nat)
    requires i < |db.jobs| && OneRowChanged(db, db', i)
    ensures forall job :: job in db.jobs && job != db.jobs[i] ==> job in db'.jobs
  {
    forall job | job in db.jobs && job != db.jobs[i]
      ensures job in db'.jobs
    {
      var k :| 0 <= k < |db.jobs| && db.jobs[k] == job;
      assert db'.jobs[k] == job;
    }
  }

  /** A retry touches no job that cannot be retried. */
  lemma RetryKeepsRow(db: Db, runId: string, job: Job)
    requires job in db.jobs && !IsRetryable(job.status)
    ensures job in AfterRetry(db, runId).0.jobs
  {
    if AfterRetry(db, runId).1.Ok? {
      RowChangeKeepsOthers(db, AfterRetry(db, runId).0, Find(db.jobs, runId));
    }
  }
}
