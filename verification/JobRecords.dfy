/** What the operations of the job store write and answer, column by column. */
module JobRecords {
  import opened Wrappers
  import opened Sequences
  import opened JobStore
  import opened JobLaws

  // ---------- the rows of a digest ----------

  function HasDigest(digest: string): Job -> bool {
    (job: Job) => job.digest == digest
  }

  predicate SameJob(a: Job, b: Job) {
    a == b
  }

  /** All rows of the digest, in table order. */
  lemma {:induction false} DigestRowsAreAll(jobs: seq<Job>, digest: string)
    ensures Picked(jobs, HasDigest(digest), SameJob, JobsForDigest(jobs, digest))
  {
    if jobs == [] {
      NothingPicked<Job, Job>(HasDigest(digest), SameJob);
    } else {
      var init, last := jobs[..|jobs| - 1], jobs[|jobs| - 1];
      assert init + [last] == jobs;
      DigestRowsAreAll(init, digest);
      DigestFirst(last, [], digest);
      DigestConcat(init, [last], digest);
      assert [last] + [] == [last];
      var added := if last.digest == digest then [last] else [];
      assert added + [] == added;
      PickedLast(init, last, HasDigest(digest), SameJob, JobsForDigest(init, digest), added);
    }
  }

  // ---------- enqueue ----------

  ghost predicate Listed(db: Db, digest: string) {
    exists i :: 0 <= i < |db.jobs| && db.jobs[i].digest == digest
  }

  /** No run of the plan has a row yet, and none is in the plan twice. */
  ghost predicate FreshRuns(db: Db, runs: seq<RunSpec>) {
    && (forall i, k :: 0 <= i < |runs| && 0 <= k < |db.jobs| ==> runs[i].runId != db.jobs[k].run.runId)
    && (forall i, j :: 0 <= i < j < |runs| ==> runs[i].runId != runs[j].runId)
  }

  /** One new row for each run, in plan order, under the next sequence numbers. */
  ghost predicate NewRows(added: seq<Job>, plan: Plan, now: string, first: nat) {
    && |added| == |plan.runs|
    && forall i :: 0 <= i < |added| ==>
         added[i] == Job(first + i, plan.runs[i], plan.digest, Queued, now, None, None)
  }

  lemma ListedMeansFound(db: Db, digest: string)
    ensures Listed(db, digest) <==> JobsForDigest(db.jobs, digest) != []
  {
    DigestOf(db.jobs, digest);
    if Listed(db, digest) {
      var i :| 0 <= i < |db.jobs| && db.jobs[i].digest == digest;
      assert db.jobs[i] in JobsForDigest(db.jobs, digest);
    }
    if JobsForDigest(db.jobs, digest) != [] {
      assert JobsForDigest(db.jobs, digest)[0] in db.jobs;
    }
  }

  lemma FreshMeansNew(db: Db, runs: seq<RunSpec>)
    ensures FreshRuns(db, runs) <==> NewRuns(db, runs)
  {
    if FreshRuns(db, runs) {
      forall i | 0 <= i < |runs|
        ensures Find(db.jobs, runs[i].runId) == |db.jobs|
      {
        var k := Find(db.jobs, runs[i].runId);
      }
    }
  }

  /** Each answer, with exactly when it is given; only acceptance changes anything. */
  lemma EnqueueAnswers(db: Db, plan: Plan, approval: Approval, now: string)
    ensures var (db', r) := AfterEnqueue(db, plan, approval, now);
            var matches := approval.digest == plan.digest && approval.plan == plan;
            var listed, used := Listed(db, plan.digest), plan.digest in db.consumed;
            && (r == Err(DigestMismatch) <==> approval.digest != plan.digest)
            && (r == Err(PlanMismatch) <==> approval.digest == plan.digest && approval.plan != plan)
            && (r == Err(ApprovalConsumed) <==> matches && !listed && used)
            && (r == Err(DuplicateRun) <==> matches && !listed && !used && !FreshRuns(db, plan.runs))
            && (r.Ok? <==> matches && (listed || (!used && FreshRuns(db, plan.runs))))
            && (matches && listed ==> db' == db && Picked(db.jobs, HasDigest(plan.digest), SameJob, r.value))
            && (r.Err? ==> db' == db)
            && (r.Ok? && !listed ==>
                  && NewRows(r.value, plan, now, db.nextSequence)
                  && db' == Db(db.jobs + r.value, db.consumed + {plan.digest}, db.nextSequence + |plan.runs|))
  {
    ListedMeansFound(db, plan.digest);
    FreshMeansNew(db, plan.runs);
    DigestRowsAreAll(db.jobs, plan.digest);
    EnqueueIsAllOrNothing(db, plan, approval, now);
    InsertionDecides(db, plan, now);
  }

  lemma InsertionDecides(db: Db, plan: Plan, now: string)
    ensures Inserted(db.(consumed := db.consumed + {plan.digest}), plan.runs, plan.digest, now).Some? <==>
            NewRuns(db, plan.runs)
  {
    var begun := db.(consumed := db.consumed + {plan.digest});
    if NewRuns(begun, plan.runs) {
      InsertedRows(begun, plan.runs, plan.digest, now);
    } else {
      InsertionFails(begun, plan.runs, plan.digest, now);
    }
  }

  /** Submitting an accepted approval again changes nothing and returns what the first
      submission returned; an approval of an empty plan is refused the second time. */
  lemma SecondSubmission(db: Db, plan: Plan, approval: Approval, now: string, later: string)
    requires Acceptable(db, plan, approval)
    ensures var (db', first) := AfterEnqueue(db, plan, approval, now);
            AfterEnqueue(db', plan, approval, later) ==
            (db', if plan.runs == [] then Err(ApprovalConsumed) else first)
  {
    EnqueueIsAllOrNothing(db, plan, approval, now);
    var added := NewJobs(plan.runs, plan.digest, now, db.nextSequence);
    AddedAreSelected(db.jobs, added, plan.digest);
  }

  // ---------- changes of one row ----------

  /** The row of the run, and no other row is of that run. */
  ghost predicate RowOf(db: Db, runId: string, i: nat) {
    UniqueRuns(db) && i < |db.jobs| && db.jobs[i].run.runId == runId
  }

  ghost predicate NoRowOf(db: Db, runId: string) {
    forall i :: 0 <= i < |db.jobs| ==> db.jobs[i].run.runId != runId
  }

  function WithRow(db: Db, i: nat, row: Job): Db
    requires i < |db.jobs|
  {
    Db(db.jobs[i := row], db.consumed, db.nextSequence)
  }

  lemma RowIsFound(db: Db, runId: string, i: nat)
    requires RowOf(db, runId, i)
    ensures Find(db.jobs, runId) == i
  {
    FindIsUnique(db, i);
  }

  lemma RowIsNotFound(db: Db, runId: string)
    requires NoRowOf(db, runId)
    ensures Find(db.jobs, runId) == |db.jobs|
  {
    var k := Find(db.jobs, runId);
  }

  /** Without a row nothing but the answer happens. */
  lemma UnknownRun(db: Db, runId: string, status: Status, data: FinishData)
    requires NoRowOf(db, runId)
    ensures AfterFinish(db, runId, status, data) == (db, Err(WrongState))
    ensures AfterRetry(db, runId) == (db, Err(WrongState))
    ensures AfterRequeue(db, runId) == (db, Err(WrongState))
    ensures AfterDelete(db, runId) == (db, Some(WrongState))
  {
    RowIsNotFound(db, runId);
  }

  /** A running job gets the status and the finish data that are given, and keeps every
      other column; any other job is refused. */
  lemma FinishWrites(db: Db, runId: string, i: nat, status: Status, data: FinishData)
    requires RowOf(db, runId, i)
    ensures var row := db.jobs[i];
            var ended := Job(row.sequence, row.run, row.digest, status, row.enqueuedAt, row.startedAt, Some(data));
            AfterFinish(db, runId, status, data) ==
            if row.status == Running then (WithRow(db, i, ended), Ok(ended)) else (db, Err(WrongState))
  {
    RowIsFound(db, runId, i);
  }

  /** Exactly the jobs that ended without success can be retried; they start afresh. */
  lemma RetryWrites(db: Db, runId: string, i: nat)
    requires RowOf(db, runId, i)
    ensures var row := db.jobs[i];
            var again := Job(row.sequence, row.run, row.digest, Queued, row.enqueuedAt, None, None);
            AfterRetry(db, runId) ==
            if row.status in {Failed, Timeout, Cancelled, Blocked, ConfigError, WorkerError}
            then (WithRow(db, i, again), Ok(again)) else (db, Err(WrongState))
  {
    RowIsFound(db, runId, i);
  }

  /** A running job goes back to the queue; the finish data, which it does not have yet,
      is left alone. */
  lemma RequeueWrites(db: Db, runId: string, i: nat)
    requires RowOf(db, runId, i)
    ensures var row := db.jobs[i];
            var again := Job(row.sequence, row.run, row.digest, Queued, row.enqueuedAt, None, row.finish);
            && AfterRequeue(db, runId) ==
               (if row.status == Running then (WithRow(db, i, again), Ok(again)) else (db, Err(WrongState)))
            && Recovered(row) == if row.status == Running then again else row
  {
    RowIsFound(db, runId, i);
  }

  /** The first queued job starts now and keeps every other column. */
  lemma ClaimWrites(db: Db, now: string, i: nat)
    requires i < |db.jobs| && db.jobs[i].status == Queued
    requires forall k :: 0 <= k < i ==> db.jobs[k].status != Queued
    ensures var row := db.jobs[i];
            var started := Job(row.sequence, row.run, row.digest, Running, row.enqueuedAt, Some(now), row.finish);
            AfterClaim(db, now) == (WithRow(db, i, started), Some(started))
  {
    var k := FirstWith(db.jobs, Queued);
    assert k == i;
  }

  lemma DeleteWrites(db: Db, runId: string, i: nat)
    requires RowOf(db, runId, i)
    ensures AfterDelete(db, runId) ==
            if db.jobs[i].status == Running then (db, Some(WrongState))
            else (Db(db.jobs[..i] + db.jobs[i + 1..], db.consumed, db.nextSequence), None)
  {
    RowIsFound(db, runId, i);
  }
}
