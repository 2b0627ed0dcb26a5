/** The worker loop (`token_bench/queue_runner.py`). */
module QueueRunner {
  import opened Wrappers
  import opened JobStore
  import opened JobLaws
  import opened JobRunner

  datatype WebAction =
    | Enqueue(plan: Plan, approval: Approval, now: string)
    | Retry(runId: string)
    | Delete(runId: string)

  /** What happens around one round of the loop: web actions and a stop before the
      claim, web actions and a stop while the job is at work, and how the job ends. */
  datatype Tick = Tick(before: seq<WebAction>, stopBefore: bool, stopAfterClaim: bool, during: seq<WebAction>,
                       inputs: Inputs, now: string)

  function AfterWeb(db: Db, actions: seq<WebAction>): Db {
    if actions == [] then db
    else
      AfterAction(AfterWeb(db, actions[..|actions| - 1]), actions[|actions| - 1])
  }

  function AfterAction(db: Db, action: WebAction): Db {
    match action
    case Enqueue(plan, approval, now) => AfterEnqueue(db, plan, approval, now).0
    case Retry(runId) => AfterRetry(db, runId).0
    case Delete(runId) => AfterDelete(db, runId).0
  }

  ghost predicate OnlyDeletes(actions: seq<WebAction>) {
    forall i :: 0 <= i < |actions| ==> actions[i].Delete?
  }

  /** Nobody enqueues or retries while the worker runs. */
  ghost predicate Undisturbed(env: seq<Tick>) {
    forall i :: 0 <= i < |env| ==> OnlyDeletes(env[i].before) && OnlyDeletes(env[i].during)
  }

  function QueuedCount(jobs: seq<Job>): nat {
    if jobs == [] then 0
    else QueuedCount(jobs[..|jobs| - 1]) + if jobs[|jobs| - 1].status == Queued then 1 else 0
  }

  /** No queued job that was not queued before. */
  ghost predicate NoNewQueued(db: Db, db': Db) {
    && QueuedCount(db'.jobs) <= QueuedCount(db.jobs)
    && forall i :: 0 <= i < |db'.jobs| && db'.jobs[i].status == Queued ==> db'.jobs[i] in db.jobs
  }

  lemma NoNewQueuedChains(a: Db, b: Db, c: Db)
    requires NoNewQueued(a, b) && NoNewQueued(b, c)
    ensures NoNewQueued(a, c)
  {
    forall i | 0 <= i < |c.jobs| && c.jobs[i].status == Queued
      ensures c.jobs[i] in a.jobs
    {
      var k :| 0 <= k < |b.jobs| && b.jobs[k] == c.jobs[i];
    }
  }

  lemma {:induction false} QueuedConcat(a: seq<Job>, b: seq<Job>)
    ensures QueuedCount(a + b) == QueuedCount(a) + QueuedCount(b)
  {
    if b == [] {
      assert a + b == a;
    } else {
      assert (a + b)[..|a + b| - 1] == a + b[..|b| - 1];
      QueuedConcat(a, b[..|b| - 1]);
    }
  }

  lemma QueuedAround(jobs: seq<Job>, i: nat, job: Job)
    requires i < |jobs|
    ensures QueuedCount(jobs[i := job]) ==
            QueuedCount(jobs[..i] + jobs[i + 1..]) + if job.status == Queued then 1 else 0
  {
    QueuedConcat(jobs[..i], [job]);
    QueuedConcat(jobs[..i] + [job], jobs[i + 1..]);
    QueuedConcat(jobs[..i], jobs[i + 1..]);
    assert jobs[i := job] == jobs[..i] + [job] + jobs[i + 1..];
    assert [job][..0] == [];
  }

  lemma WithoutAddsNoneQueued(db: Db, i: nat)
    requires i < |db.jobs|
    ensures NoNewQueued(db, Without(db, i))
  {
    QueuedAround(db.jobs, i, db.jobs[i]);
    assert db.jobs[i := db.jobs[i]] == db.jobs;
    forall k | 0 <= k < |Without(db, i).jobs| && Without(db, i).jobs[k].status == Queued
      ensures Without(db, i).jobs[k] in db.jobs
    {
      WithoutRow(db, i, k);
    }
  }

  lemma DeleteAddsNoneQueued(db: Db, runId: string)
    ensures NoNewQueued(db, AfterDelete(db, runId).0)
  {
    if AfterDelete(db, runId).1.None? {
      WithoutAddsNoneQueued(db, Find(db.jobs, runId));
    }
  }

  lemma ActionKeepsStore(db: Db, action: WebAction)
    requires StoreInvariant(db)
    ensures StoreInvariant(AfterAction(db, action)) && SameRunning(db, AfterAction(db, action))
    ensures action.Delete? ==> NoNewQueued(db, AfterAction(db, action))
  {
    match action
    case Enqueue(plan, approval, now) =>
      EnqueueKeepsStore(db, plan, approval, now);
      EnqueueKeepsRunning(db, plan, approval, now);
    case Retry(runId) => RetryKeepsStore(db, runId);
    case Delete(runId) =>
      DeleteKeepsStore(db, runId);
      DeleteAddsNoneQueued(db, runId);
  }

  lemma SameRunningChains(a: Db, b: Db, c: Db)
    requires SameRunning(a, b) && SameRunning(b, c)
    ensures SameRunning(a, c)
  {
  }

  lemma {:induction false} WebKeepsStore(db: Db, actions: seq<WebAction>)
    requires StoreInvariant(db)
    ensures StoreInvariant(AfterWeb(db, actions)) && SameRunning(db, AfterWeb(db, actions))
    ensures OnlyDeletes(actions) ==> NoNewQueued(db, AfterWeb(db, actions))
  {
    if actions == [] {
    } else {
      var init, last := actions[..|actions| - 1], actions[|actions| - 1];
      WebKeepsStore(db, init);
      ActionKeepsStore(AfterWeb(db, init), last);
      SameRunningChains(db, AfterWeb(db, init), AfterWeb(db, actions));
      if OnlyDeletes(actions) {
        NoNewQueuedChains(db, AfterWeb(db, init), AfterWeb(db, actions));
      }
    }
  }

  /** A job that leaves the queue and does not come back makes the queue one shorter,
      and every job still queued comes after it. */
  lemma ClaimShortensQueue(db: Db, now: string)
    requires StoreInvariant(db) && NoneRunning(db) && AfterClaim(db, now).1.Some?
    ensures var (db', claimed) := AfterClaim(db, now);
            && NoNewQueued(db, db')
            && QueuedCount(db'.jobs) == QueuedCount(db.jobs) - 1
            && (forall i :: 0 <= i < |db'.jobs| && db'.jobs[i].status == Queued ==>
                  claimed.value.sequence < db'.jobs[i].sequence)
  {
    var (db', claimed) := AfterClaim(db, now);
    var i := FirstWith(db.jobs, Queued);
    ClaimTakesTheFirst(db, now);
    RowLeavesQueue(db, db', i);
    forall k | 0 <= k < |db'.jobs| && db'.jobs[k].status == Queued
      ensures claimed.value.sequence < db'.jobs[k].sequence
    {
      assert k != i && db'.jobs[k] == db.jobs[k];
    }
  }

  lemma RowLeavesQueue(db: Db, db': Db, i: nat)
    requires i < |db.jobs| && OneRowChanged(db, db', i)
    requires db.jobs[i].status == Queued && db'.jobs[i].status != Queued
    ensures NoNewQueued(db, db') && QueuedCount(db'.jobs) == QueuedCount(db.jobs) - 1
  {
    QueuedAround(db.jobs, i, db.jobs[i]);
    QueuedAround(db.jobs, i, db'.jobs[i]);
    assert db.jobs[i := db.jobs[i]] == db.jobs;
    forall k | 0 <= k < |db'.jobs| && db'.jobs[k].status == Queued
      ensures db'.jobs[k] in db.jobs
    {
      assert db'.jobs[k] == db.jobs[k];
    }
  }

  lemma ProcessAddsNoneQueued(db: Db, runId: string, inputs: Inputs, now: string)
    requires StoreInvariant(db) && OnlyRunning(db, runId) && ValidInputs(inputs)
    requires AfterProcess(db, runId, inputs, now).1 != Ok(RateLimited)
    ensures NoNewQueued(db, AfterProcess(db, runId, inputs, now).0)
  {
    RunEndsUnlessItRaises(db, runId, inputs, now);
    RowLeavesNoneQueued(db, AfterProcess(db, runId, inputs, now).0, Find(db.jobs, runId));
  }

  lemma RowLeavesNoneQueued(db: Db, db': Db, i: nat)
    requires i < |db.jobs| && OneRowChanged(db, db', i)
    requires db.jobs[i].status != Queued && db'.jobs[i].status != Queued
    ensures NoNewQueued(db, db')
  {
    QueuedAround(db.jobs, i, db.jobs[i]);
    QueuedAround(db.jobs, i, db'.jobs[i]);
    assert db.jobs[i := db.jobs[i]] == db.jobs;
    forall k | 0 <= k < |db'.jobs| && db'.jobs[k].status == Queued
      ensures db'.jobs[k] in db.jobs
    {
      assert db'.jobs[k] == db.jobs[k];
    }
  }

  /** A cancellation that is already set is seen in every round of waiting. */
  function Cancelling(inputs: Inputs, cancelled: bool): (r: Inputs)
    ensures ValidInputs(inputs) ==> ValidInputs(r)
  {
    if cancelled then
      var polls := seq(|inputs.polls|, i requires 0 <= i < |inputs.polls| => inputs.polls[i].(cancelled := true));
      assert forall i :: 0 <= i < |polls| ==> polls[i].late == inputs.polls[i].late;
      inputs.(polls := polls)
    else inputs
  }

  // ---------- the loop on values ----------

  /** How the loop ends: with an exit code or with an exception; `Waiting` when it goes on. */
  datatype Exit = Waiting | Code(value: nat) | Threw

  datatype Flags = Flags(once: bool, exitWhenEmpty: bool, stopOnError: bool)

  /** After a claim: a stop that came before the start still cancels the job. */
  function AfterWork(db: Db, shutdown: bool, runId: string, tick: Tick): (Db, bool, Result<Reply, Failure>)
    requires ValidInputs(tick.inputs)
  {
    var shutdown' := shutdown || tick.stopAfterClaim;
    var (db', reply) := AfterProcess(AfterWeb(db, tick.during), runId, InputsOf(tick, shutdown'), tick.now);
    (db', shutdown', reply)
  }

  /** The inputs of the job at work, under a cancellation that came before its start. */
  function InputsOf(tick: Tick, cancelled: bool): Inputs {
    Cancelling(tick.inputs, cancelled)
  }

  /** Whether what the call said or raised ends the loop, and how.  A held publication
      lock is taken for a held worker lock. */
  function ExitFor(reply: Result<Reply, Failure>, flags: Flags): Exit {
    if reply.Err? then if reply.error.LockHeld? then Code(1) else Threw
    else if flags.once then Code(if reply.value == Ended(Succeeded) then 0 else 1)
    else if reply.value == RateLimited then if flags.exitWhenEmpty then Code(1) else Waiting
    else if flags.stopOnError && reply.value != Ended(Succeeded) && reply.value != Ended(Failed) then Code(1)
    else Waiting
  }

  datatype RoundResult = RoundResult(db: Db, shutdown: bool, exit: Exit, taken: seq<nat>)

  function RoundOf(db: Db, shutdown: bool, flags: Flags, tick: Tick): RoundResult
    requires ValidInputs(tick.inputs)
  {
    var db1 := AfterWeb(db, tick.before);
    if shutdown || tick.stopBefore then RoundResult(db1, true, Code(0), [])
    else
      var (db2, job) := AfterClaim(db1, tick.now);
      if job.None? then RoundResult(db2, false, if flags.once || flags.exitWhenEmpty then Code(0) else Waiting, [])
      else
        var (db3, shutdown', reply) := AfterWork(db2, false, job.value.run.runId, tick);
        RoundResult(db3, shutdown', ExitFor(reply, flags), [job.value.sequence])
  }

  datatype RunResult = RunResult(db: Db, shutdown: bool, exit: Exit, claimed: seq<nat>)

  ghost predicate ValidTicks(env: seq<Tick>) {
    forall i :: 0 <= i < |env| ==> ValidInputs(env[i].inputs)
  }

  /** The whole loop; `claimed` lists the sequence numbers of the jobs it took. */
  function RunOf(db: Db, shutdown: bool, flags: Flags, env: seq<Tick>): RunResult
    requires ValidTicks(env)
    decreases |env|
  {
    if env == [] then RunResult(db, shutdown, Waiting, [])
    else
      var r := RoundOf(db, shutdown, flags, env[0]);
      if r.exit != Waiting then RunResult(r.db, r.shutdown, r.exit, r.taken)
      else
        var rest := RunOf(r.db, r.shutdown, flags, env[1..]);
        rest.(claimed := r.taken + rest.claimed)
  }

  /** The rounds still to come lead to `all` when `claimed` is what was taken so far. */
  ghost predicate Leads(db: Db, shutdown: bool, flags: Flags, env: seq<Tick>, claimed: seq<nat>, all: RunResult)
    requires ValidTicks(env)
  {
    var rest := RunOf(db, shutdown, flags, env);
    all == rest.(claimed := claimed + rest.claimed)
  }

  lemma RoundLeads(db: Db, shutdown: bool, flags: Flags, env: seq<Tick>, claimed: seq<nat>, all: RunResult)
    requires ValidTicks(env) && env != [] && Leads(db, shutdown, flags, env, claimed, all)
    ensures var r := RoundOf(db, shutdown, flags, env[0]);
            if r.exit != Waiting then all == RunResult(r.db, r.shutdown, r.exit, claimed + r.taken)
            else Leads(r.db, r.shutdown, flags, env[1..], claimed + r.taken, all)
  {
    var r := RoundOf(db, shutdown, flags, env[0]);
    if r.exit == Waiting {
      var rest := RunOf(r.db, r.shutdown, flags, env[1..]);
      assert claimed + (r.taken + rest.claimed) == claimed + r.taken + rest.claimed;
    }
  }

  // ---------- the runner ----------

  class Runner {
    const store: Store
    var currentRunId: Option<string>
    var cancelled: bool
    var shutdown: bool

    constructor (store: Store)
      ensures this.store == store && currentRunId == None && !cancelled && !shutdown
    {
      this.store := store;
      currentRunId, cancelled, shutdown := None, false, false;
    }

    /** The stop button: it reports whether there was a job to cancel. */
    method StopCurrent() returns (stopped: bool)
      modifies this
      ensures stopped <==> currentRunId.Some?
      ensures cancelled == (old(cancelled) || stopped)
      ensures currentRunId == old(currentRunId) && shutdown == old(shutdown)
    {
      if currentRunId.None? {
        return false;
      }
      cancelled := true;
      stopped := true;
    }

    method Stop()
      modifies this
      ensures shutdown && cancelled && currentRunId == old(currentRunId)
    {
      shutdown := true;
      cancelled := true;
    }

    method Web(actions: seq<WebAction>)
      modifies store
      ensures store.Contents() == AfterWeb(old(store.Contents()), actions)
    {
      for i := 0 to |actions|
        invariant store.Contents() == AfterWeb(old(store.Contents()), actions[..i])
      {
        assert actions[..i + 1][..i] == actions[..i];
        match actions[i] {
          case Enqueue(plan, approval, now) => var _ := store.Enqueue(plan, approval, now);
          case Retry(runId) => var _ := store.RetryJob(runId);
          case Delete(runId) => var _ := store.DeleteJob(runId);
        }
      }
      assert actions[..|actions|] == actions;
    }

    /** The claimed job, from taking note of it to forgetting it, also when it raises. */
    method WorkOn(job: Job, tick: Tick) returns (reply: Result<Reply, Failure>)
      requires StoreInvariant(store.Contents()) && OnlyRunning(store.Contents(), job.run.runId)
      requires ValidInputs(tick.inputs)
      modifies this, store
      ensures (store.Contents(), shutdown, reply) ==
              AfterWork(old(store.Contents()), old(shutdown), job.run.runId, tick)
      ensures currentRunId == None && cancelled == shutdown
    {
      if tick.stopAfterClaim {
        Stop();
      }
      currentRunId := Some(job.run.runId);
      cancelled := false;
      if shutdown {
        cancelled := true;
      }
      Web(tick.during);
      reply := ProcessJob(store, job.run.runId, InputsOf(tick, cancelled), tick.now);
      currentRunId := None;
    }

    /** One round of the loop; `Waiting` is to go on. */
    method Round(flags: Flags, tick: Tick) returns (exit: Exit, taken: seq<nat>)
      requires StoreInvariant(store.Contents()) && NoneRunning(store.Contents())
      requires ValidInputs(tick.inputs)
      modifies this, store
      ensures RoundResult(store.Contents(), shutdown, exit, taken) ==
              RoundOf(old(store.Contents()), old(shutdown), flags, tick)
      ensures old(currentRunId) == None ==> currentRunId == None
    {
      WebKeepsStore(store.Contents(), tick.before);
      Web(tick.before);
      if tick.stopBefore {
        Stop();
      }
      if shutdown {
        return Code(0), [];
      }
      ClaimTakesTheFirst(store.Contents(), tick.now);
      var job := store.ClaimNextQueued(tick.now);
      if job.None? {
        return if flags.once || flags.exitWhenEmpty then Code(0) else Waiting, [];
      }
      taken := [job.value.sequence];
      var reply := WorkOn(job.value, tick);
      exit := ExitAfter(flags, reply);
    }

    /** The tests after a job, in the order of the loop. */
    method ExitAfter(flags: Flags, reply: Result<Reply, Failure>) returns (exit: Exit)
      ensures exit == ExitFor(reply, flags)
    {
      if reply.Err? {
        return if reply.error.LockHeld? then Code(1) else Threw;
      }
      var status := reply.value;
      if flags.once {
        return Code(if status == Ended(Succeeded) then 0 else 1);
      }
      if status == RateLimited && flags.exitWhenEmpty {
        return Code(1);
      }
      if status == RateLimited {
        return Waiting;
      } else if flags.stopOnError && status != Ended(Succeeded) && status != Ended(Failed) {
        return Code(1);
      }
      exit := Waiting;
    }

    /** The loop under the worker lock.  When another worker has the lock this one
        leaves at once; when it gets it, orphans are recovered first. */
    method Run(lockFree: bool, flags: Flags, env: seq<Tick>) returns (exit: Exit, claimed: seq<nat>)
      requires StoreInvariant(store.Contents()) && currentRunId == None
      requires ValidTicks(env)
      modifies this, store
      ensures currentRunId == None
      ensures !lockFree ==> exit == Code(1) && claimed == [] && store.Contents() == old(store.Contents())
      ensures lockFree ==> RunResult(store.Contents(), shutdown, exit, claimed) ==
                           RunOf(AfterRecovery(old(store.Contents())), old(shutdown), flags, env)
    {
      claimed := [];
      if !lockFree {
        return Code(1), [];
      }
      RecoveryKeepsStore(store.Contents());
      var _ := store.RequeueOrphanedRunning();
      ghost var all := RunOf(store.Contents(), shutdown, flags, env);
      for t := 0 to |env|
        invariant currentRunId == None && StoreInvariant(store.Contents()) && NoneRunning(store.Contents())
        invariant Leads(store.Contents(), shutdown, flags, env[t..], claimed, all)
      {
        RoundGoesOn(store.Contents(), shutdown, flags, env, t, claimed, all);
        var taken;
        exit, taken := Round(flags, env[t]);
        claimed := claimed + taken;
        if exit != Waiting {
          return exit, claimed;
        }
      }
      exit := Waiting;
      assert claimed + [] == claimed;
    }
  }

  // ---------- what the loop promises ----------

  /** The part of a round in which a job is at work. */
  lemma WorkKeepsStore(db: Db, shutdown: bool, runId: string, tick: Tick)
    requires StoreInvariant(db) && OnlyRunning(db, runId) && ValidInputs(tick.inputs)
    ensures var (db', shutdown', reply) := AfterWork(db, shutdown, runId, tick);
            && StoreInvariant(db')
            && (RaisesBeforeEnd(tick.inputs) ==> OnlyRunning(db', runId) && reply == Err(Unexpected))
            && (!RaisesBeforeEnd(tick.inputs) ==> NoneRunning(db'))
  {
    WebKeepsStore(db, tick.during);
    ProcessKeepsStore(AfterWeb(db, tick.during), runId, InputsOf(tick, shutdown || tick.stopAfterClaim), tick.now);
  }

  lemma ProcessKeepsStore(db: Db, runId: string, inputs: Inputs, now: string)
    requires StoreInvariant(db) && OnlyRunning(db, runId) && ValidInputs(inputs)
    ensures var (db', reply) := AfterProcess(db, runId, inputs, now);
            && StoreInvariant(db')
            && (RaisesBeforeEnd(inputs) ==> OnlyRunning(db', runId) && reply == Err(Unexpected))
            && (!RaisesBeforeEnd(inputs) ==> NoneRunning(db'))
  {
    RunEndsUnlessItRaises(db, runId, inputs, now);
  }

  /** After a round no job is running, unless the round threw before its job was ended:
      then just that one is. */
  lemma RoundKeepsStore(db: Db, shutdown: bool, flags: Flags, tick: Tick)
    requires StoreInvariant(db) && NoneRunning(db) && ValidInputs(tick.inputs)
    ensures var r := RoundOf(db, shutdown, flags, tick);
            && StoreInvariant(r.db)
            && (NoneRunning(r.db) <==> r.taken == [] || !RaisesBeforeEnd(tick.inputs))
            && (!NoneRunning(r.db) ==> r.exit == Threw && AtMostOneRunning(r.db))
  {
    WebKeepsStore(db, tick.before);
    var db1 := AfterWeb(db, tick.before);
    ClaimTakesTheFirst(db1, tick.now);
    var (db2, job) := AfterClaim(db1, tick.now);
    if !shutdown && !tick.stopBefore && job.Some? {
      WorkKeepsStore(db2, false, job.value.run.runId, tick);
      OnlyRunningMeansSome(RoundOf(db, shutdown, flags, tick).db, job.value.run.runId);
    }
  }

  lemma OnlyRunningMeansSome(db: Db, runId: string)
    requires StoreInvariant(db)
    ensures OnlyRunning(db, runId) ==> !NoneRunning(db) && AtMostOneRunning(db)
  {
    if OnlyRunning(db, runId) {
      assert db.jobs[Find(db.jobs, runId)].status == Running;
    }
  }

  /** One turn of the loop: either it is over, or the rest of it starts like this one. */
  lemma RoundGoesOn(db: Db, shutdown: bool, flags: Flags, env: seq<Tick>, t: nat, claimed: seq<nat>, all: RunResult)
    requires ValidTicks(env) && t < |env| && StoreInvariant(db) && NoneRunning(db)
    requires Leads(db, shutdown, flags, env[t..], claimed, all)
    ensures var r := RoundOf(db, shutdown, flags, env[t]);
            if r.exit != Waiting then all == RunResult(r.db, r.shutdown, r.exit, claimed + r.taken)
            else
              && StoreInvariant(r.db) && NoneRunning(r.db)
              && Leads(r.db, r.shutdown, flags, env[t + 1..], claimed + r.taken, all)
  {
    assert env[t..][0] == env[t] && env[t..][1..] == env[t + 1..];
    RoundKeepsStore(db, shutdown, flags, env[t]);
    RoundLeads(db, shutdown, flags, env[t..], claimed, all);
  }

  ghost predicate NoneQueued(db: Db) {
    forall i :: 0 <= i < |db.jobs| ==> db.jobs[i].status != Queued
  }

  ghost predicate Ascends(claimed: seq<nat>) {
    forall i, j :: 0 <= i < j < |claimed| ==> claimed[i] < claimed[j]
  }

  /** Every queued job has a larger sequence number. */
  ghost predicate AllAfter(db: Db, bound: int) {
    forall i :: 0 <= i < |db.jobs| && db.jobs[i].status == Queued ==> bound < db.jobs[i].sequence
  }

  lemma AllAfterStands(db: Db, db': Db, bound: int)
    requires AllAfter(db, bound) && NoNewQueued(db, db')
    ensures AllAfter(db', bound)
  {
    forall i | 0 <= i < |db'.jobs| && db'.jobs[i].status == Queued
      ensures bound < db'.jobs[i].sequence
    {
      var k :| 0 <= k < |db.jobs| && db.jobs[k] == db'.jobs[i];
    }
  }

  /** The queue after working on a claimed job that did not go back to it. */
  lemma WorkShortensQueue(db: Db, tick: Tick)
    requires StoreInvariant(db) && NoneRunning(db) && ValidInputs(tick.inputs) && OnlyDeletes(tick.during)
    requires AfterClaim(db, tick.now).1.Some?
    ensures var (db2, job) := AfterClaim(db, tick.now);
            var (db3, _, reply) := AfterWork(db2, false, job.value.run.runId, tick);
            reply != Ok(RateLimited) ==>
              QueuedCount(db3.jobs) < QueuedCount(db.jobs) && AllAfter(db3, job.value.sequence)
  {
    var (db2, job) := AfterClaim(db, tick.now);
    ClaimTakesTheFirst(db, tick.now);
    ClaimShortensQueue(db, tick.now);
    if AfterWork(db2, false, job.value.run.runId, tick).2 != Ok(RateLimited) {
      WorkAddsNoneQueued(db2, job.value.run.runId, tick);
      AllAfterStands(db2, AfterWork(db2, false, job.value.run.runId, tick).0, job.value.sequence);
    }
  }

  lemma WorkAddsNoneQueued(db: Db, runId: string, tick: Tick)
    requires StoreInvariant(db) && OnlyRunning(db, runId) && ValidInputs(tick.inputs) && OnlyDeletes(tick.during)
    requires AfterWork(db, false, runId, tick).2 != Ok(RateLimited)
    ensures NoNewQueued(db, AfterWork(db, false, runId, tick).0)
  {
    var db' := AfterWeb(db, tick.during);
    WebKeepsStore(db, tick.during);
    ProcessAddsNoneQueued(db', runId, InputsOf(tick, tick.stopAfterClaim), tick.now);
    NoNewQueuedChains(db, db', AfterWork(db, false, runId, tick).0);
  }

  lemma ClaimedComesAfter(db: Db, now: string, bound: int)
    requires AllAfter(db, bound) && AfterClaim(db, now).1.Some?
    ensures bound < AfterClaim(db, now).1.value.sequence
  {
    assert db.jobs[FirstWith(db.jobs, Queued)].status == Queued;
  }

  /** A round that does not end the loop makes the queue shorter: with `exitWhenEmpty`
      it has claimed a job, and that one does not come back. */
  ghost predicate Shortens(db: Db, r: RoundResult, bound: int) {
    && |r.taken| <= 1
    && (r.taken != [] ==> bound < r.taken[0] && QueuedCount(db.jobs) >= 1)
    && (r.exit == Waiting ==>
          r.taken != [] && QueuedCount(r.db.jobs) < QueuedCount(db.jobs) && AllAfter(r.db, r.taken[0]))
  }

  lemma QuietRoundShortensQueue(db: Db, shutdown: bool, flags: Flags, tick: Tick, bound: int)
    requires StoreInvariant(db) && NoneRunning(db) && ValidInputs(tick.inputs)
    requires tick.before == [] && OnlyDeletes(tick.during)
    requires flags.exitWhenEmpty && AllAfter(db, bound)
    ensures Shortens(db, RoundOf(db, shutdown, flags, tick), bound)
  {
    if !shutdown && !tick.stopBefore && AfterClaim(db, tick.now).1.Some? {
      ClaimedComesAfter(db, tick.now, bound);
      ClaimShortensQueue(db, tick.now);
      WorkShortensQueue(db, tick);
    }
  }

  lemma RoundShortensQueue(db: Db, shutdown: bool, flags: Flags, tick: Tick, bound: int)
    requires StoreInvariant(db) && NoneRunning(db) && ValidInputs(tick.inputs)
    requires OnlyDeletes(tick.before) && OnlyDeletes(tick.during)
    requires flags.exitWhenEmpty && AllAfter(db, bound)
    ensures Shortens(db, RoundOf(db, shutdown, flags, tick), bound)
  {
    var db1, later := AfterWeb(db, tick.before), tick.(before := []);
    WebKeepsStore(db, tick.before);
    AllAfterStands(db, db1, bound);
    QuietRoundShortensQueue(db1, shutdown, flags, later, bound);
    assert RoundOf(db, shutdown, flags, tick) == RoundOf(db1, shutdown, flags, later);
  }

  /** Strictly ascending from above `bound`. */
  ghost predicate AscendsFrom(bound: int, claimed: seq<nat>) {
    Ascends(claimed) && forall i :: 0 <= i < |claimed| ==> bound < claimed[i]
  }

  lemma AscendsPrepend(bound: int, taken: seq<nat>, rest: seq<nat>)
    requires |taken| == 1 && bound < taken[0] && AscendsFrom(taken[0], rest)
    ensures AscendsFrom(bound, taken + rest)
  {
  }

  /** Main result: with `exitWhenEmpty` and nobody enqueueing or retrying, the loop ends
      within one round more than there are queued jobs, takes each job at most once and
      in the order of the sequence numbers. */
  lemma {:induction false} UndisturbedRunEnds(db: Db, shutdown: bool, flags: Flags, env: seq<Tick>, bound: int)
    requires StoreInvariant(db) && NoneRunning(db) && ValidTicks(env)
    requires flags.exitWhenEmpty && Undisturbed(env) && AllAfter(db, bound)
    ensures var r := RunOf(db, shutdown, flags, env);
            && (|env| > QueuedCount(db.jobs) ==> r.exit != Waiting)
            && |r.claimed| <= QueuedCount(db.jobs)
            && AscendsFrom(bound, r.claimed)
    decreases |env|
  {
    if env == [] {
    } else {
      var r := RoundOf(db, shutdown, flags, env[0]);
      RoundShortensQueue(db, shutdown, flags, env[0], bound);
      if r.exit == Waiting {
        RoundKeepsStore(db, shutdown, flags, env[0]);
        assert Undisturbed(env[1..]);
        UndisturbedRunEnds(r.db, r.shutdown, flags, env[1..], r.taken[0]);
        AscendsPrepend(bound, r.taken, RunOf(r.db, r.shutdown, flags, env[1..]).claimed);
      }
    }
  }

  lemma ZeroMeansEmptyQueue(db: Db, shutdown: bool, flags: Flags, tick: Tick)
    requires StoreInvariant(db) && NoneRunning(db) && ValidInputs(tick.inputs) && !flags.once
    requires var r := RoundOf(db, shutdown, flags, tick); r.exit == Code(0) && !r.shutdown
    ensures NoneQueued(RoundOf(db, shutdown, flags, tick).db)
  {
    WebKeepsStore(db, tick.before);
    ClaimTakesTheFirst(AfterWeb(db, tick.before), tick.now);
  }

  /** Without a stop the loop reports success only over an empty queue, whatever web
      actions went on. */
  lemma {:induction false} SuccessMeansEmptyQueue(db: Db, shutdown: bool, flags: Flags, env: seq<Tick>)
    requires StoreInvariant(db) && NoneRunning(db) && ValidTicks(env)
    requires flags.exitWhenEmpty && !flags.once
    ensures var r := RunOf(db, shutdown, flags, env);
            && StoreInvariant(r.db) && (r.exit != Threw ==> NoneRunning(r.db))
            && (r.exit == Code(0) && !r.shutdown ==> NoneQueued(r.db))
    decreases |env|
  {
    if env == [] {
    } else {
      var r := RoundOf(db, shutdown, flags, env[0]);
      RoundKeepsStore(db, shutdown, flags, env[0]);
      if r.exit == Waiting {
        SuccessMeansEmptyQueue(r.db, r.shutdown, flags, env[1..]);
      } else if r.exit == Code(0) && !r.shutdown {
        ZeroMeansEmptyQueue(db, shutdown, flags, env[0]);
      }
    }
  }

  // ---------- one job only ----------

  lemma ActionKeepsRunningRow(db: Db, action: WebAction, job: Job)
    requires StoreInvariant(db) && job in db.jobs && job.status == Running
    ensures job in AfterAction(db, action).jobs
  {
    match action
    case Enqueue(plan, approval, now) => EnqueueKeepsRow(db, plan, approval, now, job);
    case Retry(runId) => RetryKeepsRow(db, runId, job);
    case Delete(runId) => DeleteKeepsRow(db, runId, job);
  }

  lemma DeleteKeepsRow(db: Db, runId: string, job: Job)
    requires StoreInvariant(db) && job in db.jobs && job.status == Running
    ensures job in AfterDelete(db, runId).0.jobs
  {
    DeleteKeepsStore(db, runId);
    var k :| 0 <= k < |db.jobs| && db.jobs[k] == job;
    FindIsUnique(db, k);
  }

  /** Whatever the web does, the row of a running job stays as it is. */
  lemma {:induction false} WebKeepsRunningRow(db: Db, actions: seq<WebAction>, job: Job)
    requires StoreInvariant(db) && job in db.jobs && job.status == Running
    ensures job in AfterWeb(db, actions).jobs
  {
    if actions == [] {
    } else {
      var init := actions[..|actions| - 1];
      WebKeepsStore(db, init);
      WebKeepsRunningRow(db, init, job);
      ActionKeepsRunningRow(AfterWeb(db, init), actions[|actions| - 1], job);
    }
  }

  /** The job with a sequence number is stored as succeeded. */
  ghost predicate StoredSuccess(db: Db, sequence: nat) {
    exists i :: 0 <= i < |db.jobs| && db.jobs[i].sequence == sequence && db.jobs[i].status == Succeeded
  }

  /** The stored status says success exactly when the process succeeded and nothing raised
      before the job was ended; a failure afterwards does not change it. */
  lemma StoredSuccessOf(db: Db, job: Job, inputs: Inputs, now: string)
    requires StoreInvariant(db) && OnlyRunning(db, job.run.runId) && job in db.jobs && job.status == Running
    requires ValidInputs(inputs)
    ensures var stored := StoredSuccess(AfterProcess(db, job.run.runId, inputs, now).0, job.sequence);
            && (Replied(inputs) == Ok(Ended(Succeeded)) <==> stored && !RaisesAfterEnd(inputs))
            && (stored ==> !RaisesBeforeEnd(inputs))
  {
    RunEndsUnlessItRaises(db, job.run.runId, inputs, now);
    var db', i := AfterProcess(db, job.run.runId, inputs, now).0, Find(db.jobs, job.run.runId);
    var k :| 0 <= k < |db.jobs| && db.jobs[k] == job;
    FindIsUnique(db, k);
    SequenceFindsRow(db', i);
    if Replied(inputs).Ok? && Replied(inputs).value.Ended? {
      ReplyVersusStore(db, job.run.runId, inputs, now);
    }
  }

  lemma SequenceFindsRow(db: Db, i: nat)
    requires StoreInvariant(db) && i < |db.jobs|
    ensures StoredSuccess(db, db.jobs[i].sequence) <==> db.jobs[i].status == Succeeded
  {
    if j :| 0 <= j < |db.jobs| && db.jobs[j].sequence == db.jobs[i].sequence && db.jobs[j].status == Succeeded {
      assert j == i;
    }
  }

  /** The exit after one job, with `once`. */
  ghost predicate OnceExit(exit: Exit, stored: bool, inputs: Inputs)
    requires ValidInputs(inputs)
  {
    && (exit == Code(0) <==> stored && !RaisesAfterEnd(inputs))
    && (exit == Threw <==> RaisesBeforeEnd(inputs) || (RaisesAfterEnd(inputs) && inputs.trouble != InPublication(true)))
    && exit != Waiting
  }

  lemma OnceProcessed(db: Db, job: Job, flags: Flags, inputs: Inputs, now: string)
    requires StoreInvariant(db) && OnlyRunning(db, job.run.runId) && job in db.jobs && job.status == Running
    requires ValidInputs(inputs) && flags.once
    ensures var (db', reply) := AfterProcess(db, job.run.runId, inputs, now);
            OnceExit(ExitFor(reply, flags), StoredSuccess(db', job.sequence), inputs)
  {
    StoredSuccessOf(db, job, inputs, now);
    RunEndsUnlessItRaises(db, job.run.runId, inputs, now);
  }

  lemma OnceAtWork(db: Db, job: Job, flags: Flags, tick: Tick)
    requires StoreInvariant(db) && OnlyRunning(db, job.run.runId) && job in db.jobs && job.status == Running
    requires ValidInputs(tick.inputs) && flags.once
    ensures var (db', _, reply) := AfterWork(db, false, job.run.runId, tick);
            OnceExit(ExitFor(reply, flags), StoredSuccess(db', job.sequence), InputsOf(tick, tick.stopAfterClaim))
  {
    WebKeepsStore(db, tick.during);
    WebKeepsRunningRow(db, tick.during, job);
    OnceProcessed(AfterWeb(db, tick.during), job, flags, InputsOf(tick, tick.stopAfterClaim), tick.now);
  }

  /** With `once` the loop ends in its first round having taken the first queued job, if
      there is one.  It returns 0 exactly when nothing was queued, or that job is now
      stored as succeeded and nothing was raised after it was; a success whose publication
      found the lock held gives 1; any other exception is passed on. */
  lemma OnceMeansStoredSuccess(db: Db, flags: Flags, env: seq<Tick>)
    requires StoreInvariant(db) && NoneRunning(db) && ValidTicks(env)
    requires flags.once && env != [] && !env[0].stopBefore
    ensures var r := RunOf(db, false, flags, env);
            var inputs := InputsOf(env[0], env[0].stopAfterClaim);
            && |r.claimed| <= 1
            && (r.claimed == [] <==> NoneQueued(AfterWeb(db, env[0].before)))
            && (r.claimed == [] ==> r.exit == Code(0))
            && (r.claimed != [] ==> OnceExit(r.exit, StoredSuccess(r.db, r.claimed[0]), inputs))
  {
    var tick := env[0];
    var db1 := AfterWeb(db, tick.before);
    WebKeepsStore(db, tick.before);
    ClaimTakesTheFirst(db1, tick.now);
    var (db2, claimed) := AfterClaim(db1, tick.now);
    if claimed.Some? {
      assert db1.jobs[FirstWith(db1.jobs, Queued)].status == Queued;
      assert db2.jobs[FirstWith(db1.jobs, Queued)] == claimed.value;
      OnceAtWork(db2, claimed.value, flags, tick);
    }
  }

  // ---------- jobs stored as blocked ----------

  /** A run that was cut off, or left no output, is stored as blocked and yet does not
      stop a loop that stops on infrastructure errors, because it is reported as failed.
      A blocked preflight does stop it, and so does an exception. */
  lemma CutOffRunsDoNotStopTheLoop(db: Db, runId: string, inputs: Inputs, now: string, flags: Flags)
    requires StoreInvariant(db) && OnlyRunning(db, runId) && ValidInputs(inputs)
    requires flags.stopOnError && !flags.once
    requires AfterProcess(db, runId, inputs, now).0.jobs[Find(db.jobs, runId)].status == Blocked
    ensures ExitFor(Replied(inputs), flags) == Waiting <==> CutOff(inputs) && !RaisesAfterEnd(inputs)
  {
    RunEndsUnlessItRaises(db, runId, inputs, now);
    if Replied(inputs).Ok? && Replied(inputs).value.Ended? {
      ReplyVersusStore(db, runId, inputs, now);
    }
  }

  /** A loop that stops on infrastructure errors goes on after a process that exits with
      code 1 and says nothing, although the job is stored as blocked. */
  lemma SilentExitDoesNotStopTheLoop(flags: Flags)
    requires flags.stopOnError && !flags.once
    ensures ValidInputs(SILENT_EXIT)
    ensures AfterProcess(RUNNING_STORE, "r", SILENT_EXIT, "09:02").0.jobs[0].status == Blocked
    ensures ExitFor(Replied(SILENT_EXIT), flags) == Waiting
  {
    RunningStoreIsValid();
    SilentExitIsMisreported();
    CutOffRunsDoNotStopTheLoop(RUNNING_STORE, "r", SILENT_EXIT, "09:02", flags);
  }

  // ---------- the same failure without end ----------

  /** One worker after another: each recovers orphans, starts its loop and, when that
      ends in its first round, makes way for the next. */
  function Restarts(db: Db, flags: Flags, ticks: seq<Tick>): (Db, seq<nat>)
    requires ValidTicks(ticks)
  {
    if ticks == [] then (db, [])
    else
      var (db1, taken) := Restarts(db, flags, ticks[..|ticks| - 1]);
      var r := RoundOf(AfterRecovery(db1), false, flags, ticks[|ticks| - 1]);
      (r.db, taken + r.taken)
  }

  /** Nothing but the worker acts, and its job raises before it is ended. */
  ghost predicate Fails(tick: Tick) {
    && tick.before == [] && tick.during == [] && !tick.stopBefore
    && RaisesBeforeEnd(tick.inputs)
  }

  lemma FailureIsRepeated(db: Db, flags: Flags, tick: Tick)
    requires StoreInvariant(db) && NoneRunning(db) && !NoneQueued(db) && ValidInputs(tick.inputs) && Fails(tick)
    ensures var r := RoundOf(db, false, flags, tick);
            && r.exit == Threw && r.taken == [db.jobs[FirstWith(db.jobs, Queued)].sequence]
            && AfterRecovery(r.db) == db
  {
    ClaimTakesTheFirst(db, tick.now);
    RecoveryUndoesClaim(db, tick.now);
    var (db2, job) := AfterClaim(db, tick.now);
    RunEndsUnlessItRaises(db2, job.value.run.runId, InputsOf(tick, tick.stopAfterClaim), tick.now);
  }

  /** A job that raises before it is ended comes back to the head of the queue with every
      restart: each worker takes that one job, and recovery finds the store as it was. */
  lemma {:induction false} FailureRepeatsForever(db: Db, flags: Flags, ticks: seq<Tick>)
    requires StoreInvariant(db) && NoneRunning(db) && !NoneQueued(db) && ValidTicks(ticks)
    requires forall i :: 0 <= i < |ticks| ==> Fails(ticks[i])
    ensures var (db', taken) := Restarts(db, flags, ticks);
            && AfterRecovery(db') == db
            && |taken| == |ticks|
            && forall i :: 0 <= i < |taken| ==> taken[i] == db.jobs[FirstWith(db.jobs, Queued)].sequence
  {
    if ticks == [] {
      assert AfterRecovery(db).jobs == db.jobs;
    } else {
      var init := ticks[..|ticks| - 1];
      FailureRepeatsForever(db, flags, init);
      FailureIsRepeated(db, flags, ticks[|ticks| - 1]);
    }
  }
}
