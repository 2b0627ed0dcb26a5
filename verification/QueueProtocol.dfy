/** All interleavings of workers and web actions over the job store.

    A worker acts on the store only while it holds the worker lock, so one holder and
    where it is in its loop stand for all workers.  A worker may disappear at any
    point, by a normal exit, an exception or a crash; the lock is then free.
 */
module QueueProtocol {
  import opened Wrappers
  import opened JobStore
  import opened JobLaws
  import opened JobRunner

  /** Where the lock holder is: before recovery, at the top of its loop, at work on a
      job, or done with it. */
  datatype Phase = Recovering | AtTop | AtWork(runId: string) | JobDone

  datatype State = State(db: Db, holder: Option<Phase>)

  datatype Step =
    | TakeLock
    | Recover
    | Claim(now: string)
    | EndJob(inputs: Inputs, now: string) // when the call raises, the worker is gone
    | NextRound
    | Leave
    | WebEnqueue(plan: Plan, approval: Approval, now: string)
    | WebRetry(runId: string)
    | WebDelete(runId: string)

  ghost predicate Next(s: State, step: Step, s': State) {
    match step
    case TakeLock => s.holder == None && s' == s.(holder := Some(Recovering))
    case Recover => s.holder == Some(Recovering) && s' == State(AfterRecovery(s.db), Some(AtTop))
    case Claim(now) =>
      && s.holder == Some(AtTop)
      && var (db', claimed) := AfterClaim(s.db, now);
         s' == State(db', Some(if claimed.Some? then AtWork(claimed.value.run.runId) else AtTop))
    case EndJob(inputs, now) =>
      && s.holder.Some? && s.holder.value.AtWork? && ValidInputs(inputs)
      && var (db', reply) := AfterProcess(s.db, s.holder.value.runId, inputs, now);
         s' == State(db', if reply.Ok? then Some(JobDone) else None)
    case NextRound => s.holder == Some(JobDone) && s' == s.(holder := Some(AtTop))
    case Leave => s.holder.Some? && s' == s.(holder := None)
    case WebEnqueue(plan, approval, now) => s' == s.(db := AfterEnqueue(s.db, plan, approval, now).0)
    case WebRetry(runId) => s' == s.(db := AfterRetry(s.db, runId).0)
    case WebDelete(runId) => s' == s.(db := AfterDelete(s.db, runId).0)
  }

  /** A run of the system from an empty store. */
  ghost predicate Trace(states: seq<State>, steps: seq<Step>) {
    && |states| == |steps| + 1
    && states[0] == State(Db([], {}, 1), None)
    && forall i :: 0 <= i < |steps| ==> Next(states[i], steps[i], states[i + 1])
  }

  ghost predicate Invariant(s: State) {
    && StoreInvariant(s.db)
    && AtMostOneRunning(s.db)
    && match s.holder
       case None => true
       case Some(Recovering) => true
       case Some(AtTop) => NoneRunning(s.db)
       case Some(AtWork(runId)) => OnlyRunning(s.db, runId)
       case Some(JobDone) => NoneRunning(s.db)
  }

  lemma OnlyOneIsAtMostOne(db: Db, runId: string)
    requires UniqueRuns(db) && OnlyRunning(db, runId)
    ensures AtMostOneRunning(db)
  {
  }

  lemma WorkerStepKeepsInvariant(s: State, step: Step, s': State)
    requires Invariant(s) && Next(s, step, s')
    requires step.Recover? || step.Claim? || step.EndJob?
    ensures Invariant(s')
  {
    match step
    case Recover => RecoveryKeepsStore(s.db);
    case Claim(now) =>
      ClaimTakesTheFirst(s.db, now);
      var claimed := AfterClaim(s.db, now).1;
      if claimed.Some? {
        OnlyOneIsAtMostOne(s'.db, claimed.value.run.runId);
      }
    case EndJob(inputs, now) =>
      RunEndsUnlessItRaises(s.db, s.holder.value.runId, inputs, now);
      OnlyOneIsAtMostOne(s.db, s.holder.value.runId);
  }

  lemma StepKeepsInvariant(s: State, step: Step, s': State)
    requires Invariant(s) && Next(s, step, s')
    ensures Invariant(s')
  {
    match step
    case WebEnqueue(plan, approval, now) =>
      EnqueueKeepsStore(s.db, plan, approval, now);
      EnqueueKeepsRunning(s.db, plan, approval, now);
    case WebRetry(runId) => RetryKeepsStore(s.db, runId);
    case WebDelete(runId) => DeleteKeepsStore(s.db, runId);
    case TakeLock =>
    case NextRound =>
    case Leave =>
    case Recover => WorkerStepKeepsInvariant(s, step, s');
    case Claim(now) => WorkerStepKeepsInvariant(s, step, s');
    case EndJob(inputs, now) => WorkerStepKeepsInvariant(s, step, s');
  }

  lemma {:induction false} InvariantOfRuns(states: seq<State>, steps: seq<Step>, i: nat)
    requires Trace(states, steps) && i < |states|
    ensures Invariant(states[i])
  {
    if i == 0 {
    } else {
      InvariantOfRuns(states, steps, i - 1);
      StepKeepsInvariant(states[i - 1], steps[i - 1], states[i]);
    }
  }

  /** Main result: in every run, under every interleaving and every crash, at most one
      job is running; a worker at the top of its loop sees none, a worker at work on a
      job sees just that one; and every row's columns fit its status. */
  lemma AtMostOneJobRuns(states: seq<State>, steps: seq<Step>, i: nat)
    requires Trace(states, steps) && i < |states|
    ensures AtMostOneRunning(states[i].db)
    ensures states[i].holder == Some(AtTop) ==> NoneRunning(states[i].db)
    ensures forall runId :: states[i].holder == Some(AtWork(runId)) ==> OnlyRunning(states[i].db, runId)
    ensures forall k :: 0 <= k < |states[i].db.jobs| ==> Lifecycle(states[i].db.jobs[k])
    ensures UniqueRuns(states[i].db) && Increasing(states[i].db)
  {
    InvariantOfRuns(states, steps, i);
  }

  // ---------- approvals are used once ----------

  /** The step put jobs of the digest into the table. */
  ghost predicate Inserts(s: State, step: Step, digest: string) {
    step.WebEnqueue? && step.plan.digest == digest && Acceptable(s.db, step.plan, step.approval)
  }

  lemma StepKeepsConsumed(s: State, step: Step, s': State)
    requires Next(s, step, s')
    ensures s.db.consumed <= s'.db.consumed
    ensures forall digest :: Inserts(s, step, digest) ==> digest in s'.db.consumed
  {
    if step.WebEnqueue? {
      EnqueueIsAllOrNothing(s.db, step.plan, step.approval, step.now);
    }
  }

  lemma {:induction false} ConsumedStays(states: seq<State>, steps: seq<Step>, i: nat, j: nat)
    requires Trace(states, steps) && i <= j < |states|
    ensures states[i].db.consumed <= states[j].db.consumed
  {
    if i < j {
      ConsumedStays(states, steps, i, j - 1);
      StepKeepsConsumed(states[j - 1], steps[j - 1], states[j]);
    }
  }

  /** An approved digest inserts its jobs at most once over a run, whatever was deleted
      in between. */
  lemma ApprovalInsertsOnce(states: seq<State>, steps: seq<Step>, i: nat, j: nat, digest: string)
    requires Trace(states, steps) && i < j < |steps|
    requires Inserts(states[i], steps[i], digest)
    ensures !Inserts(states[j], steps[j], digest)
  {
    StepKeepsConsumed(states[i], steps[i], states[i + 1]);
    ConsumedStays(states, steps, i + 1, j);
  }

  ghost predicate Knows(db: Db, runId: string) {
    exists i :: 0 <= i < |db.jobs| && db.jobs[i].run.runId == runId
  }

  lemma SameRunsAreKnown(db: Db, db': Db, k: nat)
    requires |db'.jobs| == |db.jobs| && k < |db.jobs| && db'.jobs[k].run == db.jobs[k].run
    ensures Knows(db, db'.jobs[k].run.runId)
  {
    assert db.jobs[k].run.runId == db'.jobs[k].run.runId;
  }

  lemma EnqueuedRunsAreInserted(s: State, step: Step, s': State, k: nat)
    requires Next(s, step, s') && step.WebEnqueue? && k < |s'.db.jobs|
    ensures Knows(s.db, s'.db.jobs[k].run.runId) || Inserts(s, step, s'.db.jobs[k].digest)
  {
    EnqueueIsAllOrNothing(s.db, step.plan, step.approval, step.now);
    if k < |s.db.jobs| {
      assert s'.db.jobs[k] == s.db.jobs[k];
    }
  }

  lemma DeletionAddsNoRun(db: Db, runId: string, k: nat)
    requires k < |AfterDelete(db, runId).0.jobs|
    ensures Knows(db, AfterDelete(db, runId).0.jobs[k].run.runId)
  {
    var i := Find(db.jobs, runId);
    if AfterDelete(db, runId).1.None? {
      WithoutRow(db, i, k);
      assert db.jobs[Before(i, k)].run.runId == AfterDelete(db, runId).0.jobs[k].run.runId;
    }
  }

  /** And nothing but such a step makes a run id appear. */
  lemma OnlyInsertionAddsRuns(s: State, step: Step, s': State, k: nat)
    requires Invariant(s) && Next(s, step, s') && k < |s'.db.jobs|
    ensures Knows(s.db, s'.db.jobs[k].run.runId) || Inserts(s, step, s'.db.jobs[k].digest)
  {
    match step
    case WebEnqueue(plan, approval, now) => EnqueuedRunsAreInserted(s, step, s', k);
    case WebDelete(runId) => DeletionAddsNoRun(s.db, runId, k);
    case EndJob(inputs, now) =>
      RunEndsUnlessItRaises(s.db, s.holder.value.runId, inputs, now);
      SameRunsAreKnown(s.db, s'.db, k);
    case Claim(now) =>
      ClaimTakesTheFirst(s.db, now);
      SameRunsAreKnown(s.db, s'.db, k);
    case WebRetry(runId) => SameRunsAreKnown(s.db, s'.db, k);
    case Recover => SameRunsAreKnown(s.db, s'.db, k);
    case TakeLock => SameRunsAreKnown(s.db, s'.db, k);
    case NextRound => SameRunsAreKnown(s.db, s'.db, k);
    case Leave => SameRunsAreKnown(s.db, s'.db, k);
  }

  // ---------- a measured result stands ----------

  lemma WorkerStepKeepsSuccess(s: State, step: Step, s': State, job: Job)
    requires Invariant(s) && Next(s, step, s')
    requires step.Recover? || step.Claim? || step.EndJob?
    requires job in s.db.jobs && job.status == Succeeded
    ensures job in s'.db.jobs
  {
    match step
    case EndJob(inputs, now) =>
      RunEndsUnlessItRaises(s.db, s.holder.value.runId, inputs, now);
      RowChangeKeepsOthers(s.db, s'.db, Find(s.db.jobs, s.holder.value.runId));
    case Claim(now) =>
      ClaimTakesTheFirst(s.db, now);
      if s'.db != s.db {
        RowChangeKeepsOthers(s.db, s'.db, FirstWith(s.db.jobs, Queued));
      }
    case Recover =>
      var k :| 0 <= k < |s.db.jobs| && s.db.jobs[k] == job;
      assert s'.db.jobs[k] == job;
  }

  lemma DeletionRemovesOnly(db: Db, runId: string, job: Job)
    requires StoreInvariant(db) && job in db.jobs
    ensures var db' := AfterDelete(db, runId).0;
            job in db'.jobs || (job.run.runId == runId && !Knows(db', runId))
  {
    DeleteKeepsStore(db, runId);
    var db' := AfterDelete(db, runId).0;
    if AfterDelete(db, runId).1.None? {
      forall i | 0 <= i < |db'.jobs|
        ensures db'.jobs[i].run.runId != runId
      {
        assert db'.jobs[i] in db'.jobs;
      }
    }
  }

  /** No step changes a succeeded job; only deleting it removes it. */
  lemma SuccessChangesOnlyByDeletion(s: State, step: Step, s': State, job: Job)
    requires Invariant(s) && Next(s, step, s')
    requires job in s.db.jobs && job.status == Succeeded
    ensures job in s'.db.jobs || (step == WebDelete(job.run.runId) && !Knows(s'.db, job.run.runId))
  {
    match step
    case WebEnqueue(plan, approval, now) => EnqueueKeepsRow(s.db, plan, approval, now, job);
    case WebDelete(runId) => DeletionRemovesOnly(s.db, runId, job);
    case WebRetry(runId) => RetryKeepsRow(s.db, runId, job);
    case TakeLock =>
    case NextRound =>
    case Leave =>
    case Recover => WorkerStepKeepsSuccess(s, step, s', job);
    case Claim(now) => WorkerStepKeepsSuccess(s, step, s', job);
    case EndJob(inputs, now) => WorkerStepKeepsSuccess(s, step, s', job);
  }
}
