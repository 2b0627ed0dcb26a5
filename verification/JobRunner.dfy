/** Running one claimed job to a recorded end (`token_bench/job_runner.py` and the wait
    loop of `token_bench/worker.py`).  What the snapshot, the preflight, the child
    process and its transcript say is input. */
module JobRunner {
  import opened Wrappers
  import opened JobStore
  import opened JobLaws

  /** What one round of waiting saw: an exit code, a cancellation, the deadline. */
  datatype Poll = Poll(exit: Option<int>, cancelled: bool, late: bool)

  /** How a round ends the wait, if it does. */
  function Verdict(p: Poll): Option<Status> {
    match p.exit
    case Some(code) => Some(if code == 0 then Succeeded else Failed)
    case None => if p.cancelled then Some(Cancelled) else if p.late then Some(Timeout) else None
  }

  /** The deadline passes at some round. */
  ghost predicate Bounded(polls: seq<Poll>) {
    exists i :: 0 <= i < |polls| && polls[i].late
  }

  /** The first round that ends the wait. */
  function Deciding(polls: seq<Poll>): (i: nat)
    ensures i <= |polls|
    ensures i < |polls| ==> Verdict(polls[i]).Some?
    ensures forall k :: 0 <= k < i ==> Verdict(polls[k]).None?
  {
    if polls == [] || Verdict(polls[0]).Some? then 0 else 1 + Deciding(polls[1..])
  }

  function Outcome(polls: seq<Poll>): Status
    requires Bounded(polls)
  {
    Verdict(polls[Deciding(polls)]).value
  }

  /** Waits for the process: an exit is looked at before a cancellation, a cancellation
      before the deadline, and nothing after the first of them. */
  method WaitForEnd(polls: seq<Poll>) returns (status: Status, rounds: nat)
    requires Bounded(polls)
    ensures status == Outcome(polls)
    ensures rounds < |polls|
    ensures forall k :: 0 <= k < rounds ==> polls[k] == Poll(None, false, false)
    ensures status == Succeeded <==> polls[rounds].exit == Some(0)
    ensures status == Failed <==> polls[rounds].exit.Some? && polls[rounds].exit != Some(0)
    ensures status == Cancelled <==> polls[rounds].exit.None? && polls[rounds].cancelled
    ensures status == Timeout <==> polls[rounds].exit.None? && !polls[rounds].cancelled
  {
    rounds := 0;
    while true
      invariant rounds < |polls|
      invariant forall k :: 0 <= k < rounds ==> polls[k] == Poll(None, false, false)
      decreases |polls| - rounds
    {
      var p := polls[rounds];
      if p.exit.Some? {
        status := if p.exit.value == 0 then Succeeded else Failed;
        break;
      }
      if p.cancelled {
        status := Cancelled;
        break;
      }
      if p.late {
        status := Timeout;
        break;
      }
      rounds := rounds + 1;
    }
    assert Verdict(polls[rounds]) == Some(status);
    DecidingIs(polls, rounds);
  }

  lemma DecidingIs(polls: seq<Poll>, i: nat)
    requires i < |polls| && Verdict(polls[i]).Some?
    requires forall k :: 0 <= k < i ==> Verdict(polls[k]).None?
    ensures Deciding(polls) == i
  {
    var d := Deciding(polls);
  }

  /** Where the call raises something that no branch of it catches: while it reads the
      snapshot, in the preflight, while it reads the prompt, while it runs the process,
      while it reads the transcript; and, once the job is ended, while it makes, saves or
      prints the report, or in the publication of a success. */
  datatype Trouble =
    | NoTrouble
    | InSnapshot | InPreflight | InPreparation | InProcess | InTranscript
    | InReport | InPublication(lockHeld: bool)

  /** Everything outside that decides how a job ends. */
  datatype Inputs = Inputs(
    snapshotReadable: bool, preflightOk: bool, fingerprintSame: bool, processStarts: bool,
    polls: seq<Poll>, data: FinishData,
    interrupted: bool, usageLimit: bool, hasOutput: bool, trouble: Trouble)

  ghost predicate ValidInputs(inputs: Inputs) {
    Bounded(inputs.polls)
  }

  datatype Reply = Ended(status: Status) | RateLimited

  /** What the call raises; a held publication lock raises the same error as a held
      worker lock. */
  datatype Failure = Store(error: StoreError) | LockHeld | Unexpected

  /** The record of a job that could not be run. */
  function NoRun(now: string): FinishData {
    FinishData(None, now, 0.0, "", "", "[]")
  }

  /** What becomes of the job in the store: an end, back to the queue, or nothing. */
  datatype Disposal = End(status: Status, data: FinishData) | BackToQueue | LeftRunning

  /** Nothing keeps the process from being started and awaited. */
  predicate Approved(inputs: Inputs) {
    inputs.snapshotReadable && inputs.preflightOk && inputs.fingerprintSame
  }

  function Disposed(inputs: Inputs, now: string): Disposal
    requires ValidInputs(inputs)
  {
    if inputs.trouble.InSnapshot? then LeftRunning
    else if !inputs.snapshotReadable then End(ConfigError, NoRun(now))
    else if inputs.trouble.InPreflight? then LeftRunning
    else if !inputs.preflightOk || !inputs.fingerprintSame then End(Blocked, NoRun(now))
    else if inputs.trouble.InPreparation? || inputs.trouble.InProcess? then LeftRunning
    else if !inputs.processStarts then End(WorkerError, NoRun(now))
    else if inputs.trouble.InTranscript? then LeftRunning
    else
      var status := Outcome(inputs.polls);
      if status == Failed && inputs.interrupted && inputs.usageLimit then BackToQueue
      else if status == Failed && (inputs.interrupted || !inputs.hasOutput) then End(Blocked, inputs.data)
      else End(status, inputs.data)
  }

  /** What the caller is told, or what is raised. */
  function Replied(inputs: Inputs): Result<Reply, Failure>
    requires ValidInputs(inputs)
  {
    if inputs.trouble.InSnapshot? then Err(Unexpected)
    else if !inputs.snapshotReadable then Ok(Ended(ConfigError))
    else if inputs.trouble.InPreflight? then Err(Unexpected)
    else if !inputs.preflightOk || !inputs.fingerprintSame then Ok(Ended(Blocked))
    else if inputs.trouble.InPreparation? || inputs.trouble.InProcess? then Err(Unexpected)
    else if !inputs.processStarts then Ok(Ended(WorkerError))
    else if inputs.trouble.InTranscript? then Err(Unexpected)
    else
      var status := Outcome(inputs.polls);
      if status == Failed && inputs.interrupted && inputs.usageLimit then Ok(RateLimited)
      else if inputs.trouble.InReport? then Err(Unexpected)
      else if status == Succeeded && inputs.trouble.InPublication? then
        Err(if inputs.trouble.lockHeld then LockHeld else Unexpected)
      else Ok(Ended(status))
  }

  function AfterProcess(db: Db, runId: string, inputs: Inputs, now: string): (Db, Result<Reply, Failure>)
    requires ValidInputs(inputs)
  {
    match Disposed(inputs, now)
    case LeftRunning => (db, Replied(inputs))
    case End(status, data) =>
      var (db', r) := AfterFinish(db, runId, status, data);
      (db', if r.Ok? then Replied(inputs) else Err(Store(r.error)))
    case BackToQueue =>
      var (db', r) := AfterRequeue(db, runId);
      (db', if r.Ok? then Replied(inputs) else Err(Store(r.error)))
  }

  method EndWithoutRun(store: Store, runId: string, status: Status, now: string) returns (r: Result<Reply, Failure>)
    modifies store
    ensures store.Contents() == AfterFinish(old(store.Contents()), runId, status, NoRun(now)).0
    ensures r == match AfterFinish(old(store.Contents()), runId, status, NoRun(now)).1
                 case Ok(_) => Ok(Ended(status))
                 case Err(e) => Err(Store(e))
  {
    var finished := store.FinishJob(runId, status, NoRun(now));
    r := if finished.Ok? then Ok(Ended(status)) else Err(Store(finished.error));
  }

  method ProcessJob(store: Store, runId: string, inputs: Inputs, now: string) returns (reply: Result<Reply, Failure>)
    requires ValidInputs(inputs)
    modifies store
    ensures (store.Contents(), reply) == AfterProcess(old(store.Contents()), runId, inputs, now)
  {
    if inputs.trouble.InSnapshot? {
      return Err(Unexpected);
    }
    if !inputs.snapshotReadable {
      reply := EndWithoutRun(store, runId, ConfigError, now);
      return;
    }
    if inputs.trouble.InPreflight? {
      return Err(Unexpected);
    }
    if !inputs.preflightOk {
      reply := EndWithoutRun(store, runId, Blocked, now);
      return;
    }
    if !inputs.fingerprintSame {
      reply := EndWithoutRun(store, runId, Blocked, now);
      return;
    }
    if inputs.trouble.InPreparation? || inputs.trouble.InProcess? {
      return Err(Unexpected);
    }
    if !inputs.processStarts {
      reply := EndWithoutRun(store, runId, WorkerError, now);
      return;
    }
    var outcome, _ := WaitForEnd(inputs.polls);
    if inputs.trouble.InTranscript? {
      return Err(Unexpected);
    }
    reply := RecordOutcome(store, runId, inputs, outcome, now);
  }

  /** The second half of the call: from the outcome of the process to the report. */
  method RecordOutcome(store: Store, runId: string, inputs: Inputs, outcome: Status, ghost now: string)
    returns (reply: Result<Reply, Failure>)
    requires ValidInputs(inputs) && outcome == Outcome(inputs.polls)
    requires Approved(inputs) && inputs.processStarts && !RaisesBeforeEnd(inputs)
    modifies store
    ensures (store.Contents(), reply) == AfterProcess(old(store.Contents()), runId, inputs, now)
  {
    var status := outcome;
    if status == Failed && inputs.interrupted && inputs.usageLimit {
      var requeued := store.RequeueJob(runId);
      return if requeued.Ok? then Ok(RateLimited) else Err(Store(requeued.error));
    }
    if status == Failed && inputs.interrupted {
      status := Blocked;
    } else if status == Failed && !inputs.hasOutput {
      status := Blocked;
    }
    var finished := store.FinishJob(runId, status, inputs.data);
    if finished.Err? {
      return Err(Store(finished.error));
    }
    if inputs.trouble.InReport? {
      return Err(Unexpected);
    }
    if outcome == Succeeded && inputs.trouble.InPublication? {
      return Err(if inputs.trouble.lockHeld then LockHeld else Unexpected);
    }
    reply := Ok(Ended(outcome));
  }

  // ---------- when a job is left running ----------

  /** The trouble comes while the call still has the job to end, and is reached. */
  predicate RaisesBeforeEnd(inputs: Inputs) {
    match inputs.trouble
    case InSnapshot => true
    case InPreflight => inputs.snapshotReadable
    case InPreparation => Approved(inputs)
    case InProcess => Approved(inputs)
    case InTranscript => Approved(inputs) && inputs.processStarts
    case _ => false
  }

  /** The process ran and its outcome was not put back in the queue. */
  predicate Measured(inputs: Inputs)
    requires ValidInputs(inputs)
  {
    && Approved(inputs) && inputs.processStarts
    && !(Outcome(inputs.polls) == Failed && inputs.interrupted && inputs.usageLimit)
  }

  /** The trouble comes once the job is ended. */
  predicate RaisesAfterEnd(inputs: Inputs)
    requires ValidInputs(inputs)
  {
    && Measured(inputs)
    && (inputs.trouble.InReport? || (inputs.trouble.InPublication? && Outcome(inputs.polls) == Succeeded))
  }

  /** The job is left running exactly when the call raises before its end, and then
      nothing has changed; otherwise it is queued again exactly when the caller is told
      so, and ended in every other case, also when the call raises afterwards. */
  lemma RunEndsUnlessItRaises(db: Db, runId: string, inputs: Inputs, now: string)
    requires StoreInvariant(db) && OnlyRunning(db, runId) && ValidInputs(inputs)
    ensures var (db', reply) := AfterProcess(db, runId, inputs, now);
            var i := Find(db.jobs, runId);
            && StoreInvariant(db') && OneRowChanged(db, db', i)
            && (db'.jobs[i].status == Running <==> RaisesBeforeEnd(inputs))
            && (RaisesBeforeEnd(inputs) ==> db' == db)
            && (!RaisesBeforeEnd(inputs) ==> NoneRunning(db'))
            && (reply == Ok(RateLimited) <==> db'.jobs[i].status == Queued)
            && (reply.Err? <==> RaisesBeforeEnd(inputs) || RaisesAfterEnd(inputs))
            && reply == Replied(inputs)
  {
    match Disposed(inputs, now)
    case LeftRunning =>
    case End(status, data) => FinishEndsTheRun(db, runId, status, data);
    case BackToQueue => RequeueEndsTheRun(db, runId);
  }

  /** A failed run that was cut off without a usage limit, or without any output. */
  predicate CutOff(inputs: Inputs)
    requires ValidInputs(inputs)
  {
    Measured(inputs) && Outcome(inputs.polls) == Failed && (inputs.interrupted || !inputs.hasOutput)
  }

  /** The reply is the stored status except for one family of runs: those that failed
      after being cut off or without any output are stored as blocked and reported as
      failed. */
  lemma ReplyVersusStore(db: Db, runId: string, inputs: Inputs, now: string)
    requires StoreInvariant(db) && OnlyRunning(db, runId) && ValidInputs(inputs)
    requires Replied(inputs).Ok? && Replied(inputs).value.Ended?
    ensures var stored := AfterProcess(db, runId, inputs, now).0.jobs[Find(db.jobs, runId)].status;
            && (Replied(inputs).value.status == stored <==> !CutOff(inputs))
            && (CutOff(inputs) ==> Replied(inputs).value.status == Failed && stored == Blocked)
  {
    RunEndsUnlessItRaises(db, runId, inputs, now);
  }

  // ---------- at concrete inputs ----------

  const RUNNING_STORE := Db([Job(1, RunSpec("r", ""), "d", Running, "09:00", Some("09:01"), None)], {"d"}, 2)

  /** A process that exits with code 1 and says nothing. */
  const SILENT_EXIT := Inputs(true, true, true, true, [Poll(Some(1), false, true)],
                              FinishData(Some(1), "09:02", 1.0, "out", "err", "[]"), false, false, false, NoTrouble)

  lemma RunningStoreIsValid()
    ensures StoreInvariant(RUNNING_STORE) && OnlyRunning(RUNNING_STORE, "r")
    ensures ValidInputs(SILENT_EXIT) && Outcome(SILENT_EXIT.polls) == Failed
  {
    assert SILENT_EXIT.polls[0].late;
  }

  /** One of the runs whose reply is not what is stored. */
  lemma SilentExitIsMisreported()
    ensures ValidInputs(SILENT_EXIT)
    ensures AfterProcess(RUNNING_STORE, "r", SILENT_EXIT, "09:02").1 == Ok(Ended(Failed))
    ensures AfterProcess(RUNNING_STORE, "r", SILENT_EXIT, "09:02").0.jobs[0].status == Blocked
  {
    RunningStoreIsValid();
    ReplyVersusStore(RUNNING_STORE, "r", SILENT_EXIT, "09:02");
  }

  /** One of the runs that leave the job running: the proxy's arguments cannot be filled in. */
  lemma BrokenProxyLeavesItRunning()
    ensures var inputs := SILENT_EXIT.(trouble := InProcess);
            && ValidInputs(inputs)
            && AfterProcess(RUNNING_STORE, "r", inputs, "09:02") == (RUNNING_STORE, Err(Unexpected))
  {
    RunningStoreIsValid();
    RunEndsUnlessItRaises(RUNNING_STORE, "r", SILENT_EXIT.(trouble := InProcess), "09:02");
  }
}
