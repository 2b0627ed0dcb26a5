/** When the worker's loop goes on, and that it empties the queue. */
module QueueDrain {
  import opened Wrappers
  import opened JobStore
  import opened JobLaws
  import opened JobRecords
  import opened JobRunner
  import opened QueueRunner

  // ---------- when a round goes on ----------

  /** What the loop does after a job, by the status that is stored for it: a measured
      result lets it go on; a job put back ends it when it is to exit; anything else ends
      it when it is to stop on errors, except a run that failed without being a result. */
  ghost predicate GoesOnBy(exit: Exit, stored: Status, inputs: Inputs, flags: Flags)
    requires ValidInputs(inputs)
  {
    if RaisesBeforeEnd(inputs) then exit == Threw
    else if RaisesAfterEnd(inputs) then exit == if inputs.trouble == InPublication(true) then Code(1) else Threw
    else
      match stored
      case Succeeded => exit == Waiting
      case Failed => exit == Waiting
      case Queued => exit == if flags.exitWhenEmpty then Code(1) else Waiting
      case Blocked =>
        exit == if flags.stopOnError && !(Approved(inputs) && inputs.processStarts) then Code(1) else Waiting
      case Timeout => exit == if flags.stopOnError then Code(1) else Waiting
      case Cancelled => exit == if flags.stopOnError then Code(1) else Waiting
      case ConfigError => exit == if flags.stopOnError then Code(1) else Waiting
      case WorkerError => exit == if flags.stopOnError then Code(1) else Waiting
      case Running => false
  }

  ghost predicate StatusOf(db: Db, sequence: nat, status: Status) {
    exists i :: 0 <= i < |db.jobs| && db.jobs[i].sequence == sequence && db.jobs[i].status == status
  }

  /** The status that is stored, when the job does not stay running. */
  function StoredStatus(inputs: Inputs): Status
    requires ValidInputs(inputs)
  {
    match Disposed(inputs, "")
    case End(status, _) => status
    case BackToQueue => Queued
    case LeftRunning => Running
  }

  lemma StatusDecides(inputs: Inputs, flags: Flags)
    requires ValidInputs(inputs) && !flags.once
    ensures RaisesBeforeEnd(inputs) || StoredStatus(inputs) != Running
    ensures GoesOnBy(ExitFor(Replied(inputs), flags), StoredStatus(inputs), inputs, flags)
  {
  }

  lemma StatusIsStored(db: Db, i: nat, inputs: Inputs, now: string)
    requires StoreInvariant(db) && i < |db.jobs| && OnlyRunning(db, db.jobs[i].run.runId) && ValidInputs(inputs)
    ensures var (db', reply) := AfterProcess(db, db.jobs[i].run.runId, inputs, now);
            && i < |db'.jobs| && db'.jobs[i].sequence == db.jobs[i].sequence
            && db'.jobs[i].status == StoredStatus(inputs) && reply == Replied(inputs)
  {
    FindIsUnique(db, i);
    RunEndsUnlessItRaises(db, db.jobs[i].run.runId, inputs, now);
  }

  lemma RunningRowIsOnly(db: Db, job: Job) returns (i: nat)
    requires StoreInvariant(db) && OnlyRunning(db, job.run.runId) && job in db.jobs
    ensures i < |db.jobs| && db.jobs[i] == job
  {
    i :| 0 <= i < |db.jobs| && db.jobs[i] == job;
  }

  lemma WorkDecides(db: Db, job: Job, tick: Tick, flags: Flags) returns (stored: Status)
    requires StoreInvariant(db) && OnlyRunning(db, job.run.runId) && job in db.jobs && job.status == Running
    requires ValidInputs(tick.inputs) && !flags.once
    ensures var (db', _, reply) := AfterWork(db, false, job.run.runId, tick);
            && StatusOf(db', job.sequence, stored)
            && GoesOnBy(ExitFor(reply, flags), stored, InputsOf(tick, tick.stopAfterClaim), flags)
  {
    var inputs := InputsOf(tick, tick.stopAfterClaim);
    var db1 := AfterWeb(db, tick.during);
    WebKeepsStore(db, tick.during);
    WebKeepsRunningRow(db, tick.during, job);
    var i := RunningRowIsOnly(db1, job);
    StatusIsStored(db1, i, inputs, tick.now);
    StatusDecides(inputs, flags);
    stored := StoredStatus(inputs);
  }

  /** Main result: exactly when a round without `once` goes on, and how it ends otherwise:
      at a stop, over an empty queue by `exitWhenEmpty`, and after a job by the status that
      is now stored for it. */
  lemma WhenARoundGoesOn(db: Db, shutdown: bool, flags: Flags, tick: Tick) returns (stored: Status)
    requires StoreInvariant(db) && NoneRunning(db) && ValidInputs(tick.inputs)
    requires !flags.once
    ensures var r := RoundOf(db, shutdown, flags, tick);
            if shutdown || tick.stopBefore then
              r.db == AfterWeb(db, tick.before) && r.shutdown && r.taken == [] && r.exit == Code(0)
            else if NoneQueued(AfterWeb(db, tick.before)) then
              r.taken == [] && r.exit == if flags.exitWhenEmpty then Code(0) else Waiting
            else
              && |r.taken| == 1 && StatusOf(r.db, r.taken[0], stored)
              && GoesOnBy(r.exit, stored, InputsOf(tick, tick.stopAfterClaim), flags)
  {
    var db1 := AfterWeb(db, tick.before);
    WebKeepsStore(db, tick.before);
    ClaimTakesTheFirst(db1, tick.now);
    stored := Queued;
    var (db2, claimed) := AfterClaim(db1, tick.now);
    if !shutdown && !tick.stopBefore && claimed.Some? {
      assert db1.jobs[FirstWith(db1.jobs, Queued)].status == Queued;
      assert db2.jobs[FirstWith(db1.jobs, Queued)] == claimed.value;
      stored := WorkDecides(db2, claimed.value, tick, flags);
    }
  }

  /** A stop between the claim and the start: a process that is started and has not
      exited when it is first looked at ends as cancelled. */
  lemma StopBeforeStartCancels(db: Db, i: nat, shutdown: bool, tick: Tick)
    requires StoreInvariant(db) && i < |db.jobs| && OnlyRunning(db, db.jobs[i].run.runId)
    requires ValidInputs(tick.inputs) && tick.during == []
    requires Approved(tick.inputs) && tick.inputs.processStarts && tick.inputs.trouble == NoTrouble
    requires tick.stopAfterClaim && tick.inputs.polls[0].exit.None?
    ensures var (db', shutdown', reply) := AfterWork(db, shutdown, db.jobs[i].run.runId, tick);
            && shutdown' && reply == Ok(Ended(Cancelled))
            && db'.jobs == db.jobs[i := db.jobs[i].(status := Cancelled, finish := Some(tick.inputs.data))]
  {
    var inputs := InputsOf(tick, true);
    assert inputs.polls[0].exit.None? && inputs.polls[0].cancelled;
    FindIsUnique(db, i);
    DecidingIs(inputs.polls, 0);
    FinishWrites(db, db.jobs[i].run.runId, i, Cancelled, tick.inputs.data);
  }

  // ---------- draining ----------

  /** No stop and no trouble, and the process gives a result. */
  ghost predicate Measures(tick: Tick) {
    && ValidInputs(tick.inputs) && !tick.stopBefore && !tick.stopAfterClaim
    && Approved(tick.inputs) && tick.inputs.processStarts && tick.inputs.trouble == NoTrouble
    && (Outcome(tick.inputs.polls) == Succeeded
        || (Outcome(tick.inputs.polls) == Failed && !(tick.inputs.interrupted && tick.inputs.usageLimit)))
  }

  ghost predicate DeletedBy(actions: seq<WebAction>, runId: string) {
    exists i :: 0 <= i < |actions| && actions[i] == Delete(runId)
  }

  ghost predicate DeletedIn(env: seq<Tick>, runId: string) {
    exists t :: 0 <= t < |env| && (DeletedBy(env[t].before, runId) || DeletedBy(env[t].during, runId))
  }

  /** Only a deletion takes a queued job away. */
  lemma {:induction false} QueuedJobStays(db: Db, actions: seq<WebAction>, job: Job)
    requires StoreInvariant(db) && OnlyDeletes(actions) && job in db.jobs && job.status == Queued
    ensures job in AfterWeb(db, actions).jobs || DeletedBy(actions, job.run.runId)
  {
    if actions == [] {
    } else {
      var n := |actions| - 1;
      var init := actions[..n];
      WebKeepsStore(db, init);
      QueuedJobStays(db, init, job);
      if DeletedBy(init, job.run.runId) {
        var i :| 0 <= i < |init| && init[i] == Delete(job.run.runId);
        assert actions[i] == Delete(job.run.runId);
      } else if actions[n] != Delete(job.run.runId) {
        DeleteKeepsStore(AfterWeb(db, init), actions[n].runId);
      }
    }
  }

  /** A claim leaves the other jobs alone. */
  lemma OnlyTheClaimedMoves(db: Db, now: string, job: Job)
    requires StoreInvariant(db) && NoneRunning(db) && job in db.jobs && job.status == Queued
    requires AfterClaim(db, now).1.Some?
    ensures job in AfterClaim(db, now).0.jobs || job.sequence == AfterClaim(db, now).1.value.sequence
  {
    ClaimTakesTheFirst(db, now);
    RowChangeKeepsOthers(db, AfterClaim(db, now).0, FirstWith(db.jobs, Queued));
  }

  lemma WorkKeepsQueuedJob(db: Db, runId: string, tick: Tick, job: Job)
    requires StoreInvariant(db) && OnlyRunning(db, runId) && ValidInputs(tick.inputs) && OnlyDeletes(tick.during)
    requires job in db.jobs && job.status == Queued
    ensures job in AfterWork(db, false, runId, tick).0.jobs || DeletedBy(tick.during, job.run.runId)
  {
    WebKeepsStore(db, tick.during);
    QueuedJobStays(db, tick.during, job);
    var db1, inputs := AfterWeb(db, tick.during), InputsOf(tick, tick.stopAfterClaim);
    RunEndsUnlessItRaises(db1, runId, inputs, tick.now);
    RowChangeKeepsOthers(db1, AfterProcess(db1, runId, inputs, tick.now).0, Find(db1.jobs, runId));
  }

  /** In a round a queued job stays queued, is taken or is deleted. */
  lemma RoundKeepsOrTakes(db: Db, flags: Flags, tick: Tick, job: Job)
    requires StoreInvariant(db) && NoneRunning(db) && ValidInputs(tick.inputs)
    requires OnlyDeletes(tick.before) && OnlyDeletes(tick.during)
    requires job in db.jobs && job.status == Queued
    ensures var r := RoundOf(db, false, flags, tick);
            job in r.db.jobs || job.sequence in r.taken || DeletedIn([tick], job.run.runId)
  {
    var db1 := AfterWeb(db, tick.before);
    WebKeepsStore(db, tick.before);
    QueuedJobStays(db, tick.before, job);
    assert [tick][0] == tick;
    if !tick.stopBefore && job in db1.jobs && AfterClaim(db1, tick.now).1.Some? {
      var (db2, claimed) := AfterClaim(db1, tick.now);
      ClaimTakesTheFirst(db1, tick.now);
      OnlyTheClaimedMoves(db1, tick.now, job);
      if job.sequence != claimed.value.sequence {
        WorkKeepsQueuedJob(db2, claimed.value.run.runId, tick, job);
      }
    }
  }

  lemma MeasuringWorkGoesOn(db: Db, runId: string, flags: Flags, tick: Tick)
    requires StoreInvariant(db) && OnlyRunning(db, runId) && Measures(tick) && !flags.once
    ensures var (_, shutdown, reply) := AfterWork(db, false, runId, tick);
            !shutdown && ExitFor(reply, flags) == Waiting
  {
    WebKeepsStore(db, tick.during);
    assert InputsOf(tick, false) == tick.inputs;
    RunEndsUnlessItRaises(AfterWeb(db, tick.during), runId, tick.inputs, tick.now);
  }

  lemma MeasuringRoundGoesOn(db: Db, flags: Flags, tick: Tick)
    requires StoreInvariant(db) && NoneRunning(db) && Measures(tick) && flags.exitWhenEmpty && !flags.once
    ensures var r := RoundOf(db, false, flags, tick);
            && !r.shutdown
            && (if NoneQueued(AfterWeb(db, tick.before)) then r.exit == Code(0) && NoneQueued(r.db)
                else r.exit == Waiting)
  {
    var db1 := AfterWeb(db, tick.before);
    WebKeepsStore(db, tick.before);
    ClaimTakesTheFirst(db1, tick.now);
    var (db2, claimed) := AfterClaim(db1, tick.now);
    if claimed.Some? {
      assert db1.jobs[FirstWith(db1.jobs, Queued)].status == Queued;
      MeasuringWorkGoesOn(db2, claimed.value.run.runId, flags, tick);
    }
  }

  ghost predicate AllMeasure(env: seq<Tick>) {
    forall t :: 0 <= t < |env| ==> Measures(env[t])
  }

  /** A job that was queued when the loop started was taken by it, or deleted. */
  ghost predicate TakenOrDeleted(job: Job, claimed: seq<nat>, env: seq<Tick>) {
    job.sequence in claimed || DeletedIn(env, job.run.runId)
  }

  lemma FateGoesOn(job: Job, taken: seq<nat>, claimed: seq<nat>, env: seq<Tick>)
    requires env != []
    requires job.sequence in taken || DeletedIn([env[0]], job.run.runId) || TakenOrDeleted(job, claimed, env[1..])
    ensures TakenOrDeleted(job, taken + claimed, env)
  {
    if DeletedIn([env[0]], job.run.runId) {
      var t :| 0 <= t < |[env[0]]|
               && (DeletedBy([env[0]][t].before, job.run.runId) || DeletedBy([env[0]][t].during, job.run.runId));
      assert [env[0]][t] == env[0];
    } else if DeletedIn(env[1..], job.run.runId) {
      var t :| 0 <= t < |env[1..]|
               && (DeletedBy(env[1..][t].before, job.run.runId) || DeletedBy(env[1..][t].during, job.run.runId));
      assert env[t + 1] == env[1..][t];
    }
  }

  /** The fate of every job that was queued before a round, from what the rest does. */
  lemma FatesGoOn(db: Db, flags: Flags, env: seq<Tick>, claimed: seq<nat>)
    requires StoreInvariant(db) && NoneRunning(db) && env != [] && ValidInputs(env[0].inputs)
    requires OnlyDeletes(env[0].before) && OnlyDeletes(env[0].during)
    requires var r := RoundOf(db, false, flags, env[0]);
             forall job :: job in r.db.jobs && job.status == Queued ==> TakenOrDeleted(job, claimed, env[1..])
    ensures var r := RoundOf(db, false, flags, env[0]);
            forall job :: job in db.jobs && job.status == Queued ==> TakenOrDeleted(job, r.taken + claimed, env)
  {
    forall job | job in db.jobs && job.status == Queued
      ensures TakenOrDeleted(job, RoundOf(db, false, flags, env[0]).taken + claimed, env)
    {
      RoundKeepsOrTakes(db, flags, env[0], job);
      FateGoesOn(job, RoundOf(db, false, flags, env[0]).taken, claimed, env);
    }
  }

  /** Main result: with `exitWhenEmpty`, while nobody does anything but delete and every
      process gives a result, the loop returns 0 over an empty queue after at most one
      round more than there are queued jobs, and has taken every one that was not deleted. */
  lemma {:induction false} UndisturbedRunDrains(db: Db, flags: Flags, env: seq<Tick>)
    requires StoreInvariant(db) && NoneRunning(db) && ValidTicks(env)
    requires flags.exitWhenEmpty && !flags.once && Undisturbed(env) && AllMeasure(env)
    requires |env| > QueuedCount(db.jobs)
    ensures var r := RunOf(db, false, flags, env);
            && r.exit == Code(0) && !r.shutdown && NoneQueued(r.db)
            && forall job :: job in db.jobs && job.status == Queued ==> TakenOrDeleted(job, r.claimed, env)
    decreases |env|
  {
    var r := RoundOf(db, false, flags, env[0]);
    MeasuringRoundGoesOn(db, flags, env[0]);
    RoundShortensQueue(db, false, flags, env[0], -1);
    RoundKeepsStore(db, false, flags, env[0]);
    if r.exit == Waiting {
      UndisturbedRunDrains(r.db, flags, env[1..]);
      FatesGoOn(db, flags, env, RunOf(r.db, false, flags, env[1..]).claimed);
    } else {
      FatesGoOn(db, flags, env, []);
      assert r.taken + [] == r.taken;
    }
  }

  // ---------- web actions ----------

  /** Each button calls one operation of the store, one action after the other. */
  lemma ActionsInTurn(db: Db, actions: seq<WebAction>, plan: Plan, approval: Approval, now: string, runId: string)
    ensures AfterWeb(db, []) == db
    ensures var before := AfterWeb(db, actions);
            && AfterWeb(db, actions + [Enqueue(plan, approval, now)]) == AfterEnqueue(before, plan, approval, now).0
            && AfterWeb(db, actions + [Retry(runId)]) == AfterRetry(before, runId).0
            && AfterWeb(db, actions + [Delete(runId)]) == AfterDelete(before, runId).0
  {
    assert (actions + [Enqueue(plan, approval, now)])[..|actions|] == actions;
    assert (actions + [Retry(runId)])[..|actions|] == actions;
    assert (actions + [Delete(runId)])[..|actions|] == actions;
  }
}
