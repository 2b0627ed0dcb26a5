/** What becomes of a claimed job, case by case: the row that is stored and what the
    caller is told. */
module JobOutcomes {
  import opened Wrappers
  import opened JobStore
  import opened JobLaws
  import opened JobRecords
  import opened JobRunner

  /** The poll that ends the wait; nothing happened in those before it. */
  ghost predicate Ends(polls: seq<Poll>, d: nat) {
    && d < |polls| && polls[d] != Poll(None, false, false)
    && forall k :: 0 <= k < d ==> polls[k] == Poll(None, false, false)
  }

  lemma OutcomeOfEnd(polls: seq<Poll>, d: nat)
    requires Bounded(polls) && Ends(polls, d)
    ensures polls[d].exit == Some(0) ==> Outcome(polls) == Succeeded
    ensures polls[d].exit.Some? && polls[d].exit != Some(0) ==> Outcome(polls) == Failed
    ensures polls[d].exit.None? ==> Outcome(polls) == if polls[d].cancelled then Cancelled else Timeout
  {
    DecidingIs(polls, d);
  }

  /** The row is that of a running job, and the only one of its run. */
  ghost predicate AtWorkOn(db: Db, i: nat) {
    UniqueRuns(db) && i < |db.jobs| && db.jobs[i].status == Running
  }

  /** The row with another end, everything else as it was. */
  function EndedRow(row: Job, status: Status, data: FinishData): Job {
    Job(row.sequence, row.run, row.digest, status, row.enqueuedAt, row.startedAt, Some(data))
  }

  /** The snapshot cannot be read. */
  lemma UnreadableSnapshot(db: Db, i: nat, inputs: Inputs, now: string)
    requires AtWorkOn(db, i) && ValidInputs(inputs)
    requires !inputs.snapshotReadable && inputs.trouble != InSnapshot
    ensures AfterProcess(db, db.jobs[i].run.runId, inputs, now) ==
            (WithRow(db, i, EndedRow(db.jobs[i], ConfigError, FinishData(None, now, 0.0, "", "", "[]"))),
             Ok(Ended(ConfigError)))
  {
    FinishWrites(db, db.jobs[i].run.runId, i, ConfigError, FinishData(None, now, 0.0, "", "", "[]"));
  }

  /** The preflight finds a problem, or the tools are not those that were approved. */
  lemma FailedPreflight(db: Db, i: nat, inputs: Inputs, now: string)
    requires AtWorkOn(db, i) && ValidInputs(inputs)
    requires inputs.snapshotReadable && (!inputs.preflightOk || !inputs.fingerprintSame)
    requires inputs.trouble != InSnapshot && inputs.trouble != InPreflight
    ensures AfterProcess(db, db.jobs[i].run.runId, inputs, now) ==
            (WithRow(db, i, EndedRow(db.jobs[i], Blocked, FinishData(None, now, 0.0, "", "", "[]"))),
             Ok(Ended(Blocked)))
  {
    FinishWrites(db, db.jobs[i].run.runId, i, Blocked, FinishData(None, now, 0.0, "", "", "[]"));
  }

  /** The process cannot be started. */
  lemma NoProcess(db: Db, i: nat, inputs: Inputs, now: string)
    requires AtWorkOn(db, i) && ValidInputs(inputs)
    requires inputs.snapshotReadable && inputs.preflightOk && inputs.fingerprintSame && !inputs.processStarts
    requires inputs.trouble !in {InSnapshot, InPreflight, InPreparation, InProcess}
    ensures AfterProcess(db, db.jobs[i].run.runId, inputs, now) ==
            (WithRow(db, i, EndedRow(db.jobs[i], WorkerError, FinishData(None, now, 0.0, "", "", "[]"))),
             Ok(Ended(WorkerError)))
  {
    FinishWrites(db, db.jobs[i].run.runId, i, WorkerError, FinishData(None, now, 0.0, "", "", "[]"));
  }

  /** The process is started and awaited. */
  ghost predicate Started(inputs: Inputs) {
    && inputs.snapshotReadable && inputs.preflightOk && inputs.fingerprintSame && inputs.processStarts
    && inputs.trouble !in {InSnapshot, InPreflight, InPreparation, InProcess, InTranscript}
  }

  /** What is said once the job is ended: the outcome of the process, unless the report or,
      for a success, the publication raises. */
  function Told(status: Status, trouble: Trouble): Result<Reply, Failure> {
    match trouble
    case InReport => Err(Unexpected)
    case InPublication(lockHeld) =>
      if status != Succeeded then Ok(Ended(status)) else if lockHeld then Err(LockHeld) else Err(Unexpected)
    case _ => Ok(Ended(status))
  }

  /** The process ends by itself. */
  lemma ProcessExits(db: Db, i: nat, inputs: Inputs, now: string, d: nat)
    requires AtWorkOn(db, i) && ValidInputs(inputs)
    requires Started(inputs) && Ends(inputs.polls, d) && inputs.polls[d].exit.Some?
    ensures var row, code := db.jobs[i], inputs.polls[d].exit.value;
            AfterProcess(db, row.run.runId, inputs, now) ==
            if code == 0 then
              (WithRow(db, i, EndedRow(row, Succeeded, inputs.data)), Told(Succeeded, inputs.trouble))
            else if inputs.interrupted && inputs.usageLimit then
              (WithRow(db, i, Job(row.sequence, row.run, row.digest, Queued, row.enqueuedAt, None, row.finish)),
               Ok(RateLimited))
            else
              var stored := if inputs.interrupted || !inputs.hasOutput then Blocked else Failed;
              (WithRow(db, i, EndedRow(row, stored, inputs.data)), Told(Failed, inputs.trouble))
  {
    OutcomeOfEnd(inputs.polls, d);
    var runId := db.jobs[i].run.runId;
    FinishWrites(db, runId, i, Succeeded, inputs.data);
    FinishWrites(db, runId, i, Failed, inputs.data);
    FinishWrites(db, runId, i, Blocked, inputs.data);
    RequeueWrites(db, runId, i);
  }

  /** The process is stopped, by the button or by the deadline. */
  lemma ProcessIsStopped(db: Db, i: nat, inputs: Inputs, now: string, d: nat)
    requires AtWorkOn(db, i) && ValidInputs(inputs)
    requires Started(inputs) && Ends(inputs.polls, d) && inputs.polls[d].exit.None?
    ensures var status := if inputs.polls[d].cancelled then Cancelled else Timeout;
            AfterProcess(db, db.jobs[i].run.runId, inputs, now) ==
            (WithRow(db, i, EndedRow(db.jobs[i], status, inputs.data)), Told(status, inputs.trouble))
  {
    OutcomeOfEnd(inputs.polls, d);
    FinishWrites(db, db.jobs[i].run.runId, i, if inputs.polls[d].cancelled then Cancelled else Timeout, inputs.data);
  }

  /** What is raised while the job is not ended yet leaves everything as it was. */
  lemma RaisedBeforeTheEnd(db: Db, i: nat, inputs: Inputs, now: string)
    requires AtWorkOn(db, i) && ValidInputs(inputs)
    requires || inputs.trouble == InSnapshot
             || (inputs.trouble == InPreflight && inputs.snapshotReadable)
             || (inputs.trouble in {InPreparation, InProcess}
                 && inputs.snapshotReadable && inputs.preflightOk && inputs.fingerprintSame)
             || (inputs.trouble == InTranscript
                 && inputs.snapshotReadable && inputs.preflightOk && inputs.fingerprintSame && inputs.processStarts)
    ensures AfterProcess(db, db.jobs[i].run.runId, inputs, now) == (db, Err(Unexpected))
  {
  }
}
