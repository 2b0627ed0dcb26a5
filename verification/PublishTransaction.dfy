/** The rollback-journal publication of `token_bench/ledger.py`.

    Every file operation takes its verdict from a schedule of faults, so a method
    verified for every schedule is verified for a failure or a crash at every
    point, including inside recovery.  The staging directory is private to one
    call and is a local variable.
 */
module PublishTransaction {
  import opened Wrappers

  /** The five public files, in the order they are replaced. */
  datatype Name = Results | Activity | Summary | Comparison | Diagnostics

  const OUTPUT_NAMES: seq<Name> := [Results, Activity, Summary, Comparison, Diagnostics]

  /** A file that does not exist has no entry. */
  type Outputs<T> = map<Name, T>

  type Operation<!T> = Outputs<T> -> Option<Outputs<T>>

  datatype Path = Output(name: Name) | RestoreTemp(name: Name) | Journal | PendingJournal

  /** `Torn` is what an interrupted write leaves behind. */
  datatype Content<T> = Data(bytes: T) | Backup(before: Outputs<T>) | Torn

  type Disk<T> = map<Path, Content<T>>

  datatype Fault = Proceed | Fail | Crash

  /** Where a call that raised was. */
  datatype Stage = Recovery | Staging | Journaling | Swapping | Rollback | Commit | Cleanup

  datatype Outcome = Returned | Raised(at: Stage) | Crashed

  // ---------- which fault gives which outcome ----------

  /** The verdict on the next file operation; when the schedule is over all succeed. */
  function Verdict(schedule: seq<Fault>): Fault {
    if schedule == [] then Proceed else schedule[0]
  }

  function Later(schedule: seq<Fault>): seq<Fault> {
    if schedule == [] then [] else schedule[1..]
  }

  /** A block of `n` operations that stops at the first one that does not succeed: its
      verdict and what is left of the schedule. */
  function Steps(schedule: seq<Fault>, n: nat): (Fault, seq<Fault>) {
    if n == 0 then (Proceed, schedule)
    else if Verdict(schedule) != Proceed then (Verdict(schedule), Later(schedule))
    else Steps(Later(schedule), n - 1)
  }

  /** How many operations playing back a journal takes: a file that was there is written
      aside and moved over, one that was not is removed, and at last the journal goes. */
  ghost function RestoreSteps<T>(before: Outputs<T>, names: seq<Name>): nat {
    if names == [] then 1 else (if names[0] in before then 2 else 1) + RestoreSteps(before, names[1..])
  }

  /** Playing back the journal after a failed replace. */
  function RollbackOutcome(schedule: seq<Fault>, back: nat): Outcome {
    var r := Steps(schedule, back).0;
    if r == Proceed then Raised(Swapping) else if r == Crash then Crashed else Raised(Rollback)
  }

  /** Replacing `n` files, with the `back` operations of a rollback when one fails. */
  function SwapOutcome(schedule: seq<Fault>, n: nat, back: nat): Outcome {
    if n == 0 then
      // The removal of the journal, and the sweep of the stage.
      if Verdict(schedule) == Crash then Crashed
      else if Verdict(schedule) == Fail then Raised(Commit)
      else SweepOutcome(Later(schedule))
    else if Verdict(schedule) == Crash then Crashed
    else if Verdict(schedule) == Fail then RollbackOutcome(Later(schedule), back)
    else SwapOutcome(Later(schedule), n - 1, back)
  }

  function SweepOutcome(schedule: seq<Fault>): Outcome {
    if Verdict(schedule) == Proceed then Returned
    else if Verdict(schedule) == Crash then Crashed
    else Raised(Cleanup)
  }

  function StageOutcome(schedule: seq<Fault>, n: nat, back: nat): Outcome {
    if n == 0 then SweepOutcome(schedule)
    else
      var (r, rest) := Steps(schedule, 2);
      if r != Proceed then if r == Crash then Crashed else Raised(Journaling)
      else SwapOutcome(rest, n, back)
  }

  /** How a call ends: `recovery` operations of playing back a journal, one to open the
      stage, then, unless the operation itself raises, the sweep of the stage alone or
      two for the journal, one for each of the `n` changed files, the commit and the
      sweep. */
  function PublishOutcome(schedule: seq<Fault>, recovery: nat, raises: bool, n: nat, back: nat): Outcome {
    var (r1, s1) := Steps(schedule, recovery);
    if r1 != Proceed then if r1 == Crash then Crashed else Raised(Recovery)
    else
      if Verdict(s1) != Proceed then if Verdict(s1) == Crash then Crashed else Raised(Staging)
      else if raises then Raised(Staging)
      else StageOutcome(Later(s1), n, back)
  }

  lemma {:induction false} StepsCompose(schedule: seq<Fault>, m: nat, n: nat)
    ensures Steps(schedule, m + n) ==
            var (r, rest) := Steps(schedule, m); if r == Proceed then Steps(rest, n) else (r, rest)
  {
    if m == 0 {
    } else {
      StepsCompose(Later(schedule), m - 1, n);
    }
  }

  lemma {:induction false} CrashesComeFromTheSchedule(schedule: seq<Fault>, n: nat)
    requires Crash !in schedule
    ensures Steps(schedule, n).0 != Crash && Crash !in Steps(schedule, n).1
  {
    if n == 0 {
    } else {
      CrashesComeFromTheSchedule(Later(schedule), n - 1);
    }
  }

  lemma {:induction false} NoCrashInSwap(schedule: seq<Fault>, n: nat, back: nat)
    requires Crash !in schedule
    ensures SwapOutcome(schedule, n, back) != Crashed
  {
    if n == 0 {
    } else {
      CrashesComeFromTheSchedule(Later(schedule), back);
      NoCrashInSwap(Later(schedule), n - 1, back);
    }
  }

  lemma NoCrashWithoutCrash(schedule: seq<Fault>, recovery: nat, raises: bool, n: nat, back: nat)
    requires Crash !in schedule
    ensures PublishOutcome(schedule, recovery, raises, n, back) != Crashed
  {
    var (r1, s1) := Steps(schedule, recovery);
    CrashesComeFromTheSchedule(schedule, recovery);
    CrashesComeFromTheSchedule(Later(s1), 2);
    NoCrashInSwap(Steps(Later(s1), 2).1, n, back);
  }

  ghost predicate NoFault(schedule: seq<Fault>) {
    forall i :: 0 <= i < |schedule| ==> schedule[i] == Proceed
  }

  lemma {:induction false} StepsWithoutFaults(schedule: seq<Fault>, n: nat)
    requires NoFault(schedule)
    ensures Steps(schedule, n).0 == Proceed && NoFault(Steps(schedule, n).1)
  {
    if n == 0 {
    } else {
      StepsWithoutFaults(Later(schedule), n - 1);
    }
  }

  lemma {:induction false} SwapWithoutFaults(schedule: seq<Fault>, n: nat, back: nat)
    requires NoFault(schedule)
    ensures SwapOutcome(schedule, n, back) == Returned
  {
    if n == 0 {
    } else {
      SwapWithoutFaults(Later(schedule), n - 1, back);
    }
  }

  lemma ReturnsWithoutFaults(schedule: seq<Fault>, recovery: nat, raises: bool, n: nat, back: nat)
    requires NoFault(schedule)
    ensures PublishOutcome(schedule, recovery, raises, n, back) == if raises then Raised(Staging) else Returned
  {
    StepsWithoutFaults(schedule, recovery);
    var s1 := Steps(schedule, recovery).1;
    StepsWithoutFaults(Later(s1), 2);
    SwapWithoutFaults(Steps(Later(s1), 2).1, n, back);
  }

  /** Nothing half-written stands under a public name or under the journal's name. */
  ghost predicate Valid<T>(disk: Disk<T>) {
    && (forall n: Name :: Output(n) in disk ==> disk[Output(n)].Data?)
    && (Journal in disk ==> disk[Journal].Backup?)
  }

  /** What a reader of the directory sees. */
  ghost function Visible<T>(disk: Disk<T>): Outputs<T> {
    map n: Name | n in OUTPUT_NAMES && Output(n) in disk && disk[Output(n)].Data? :: disk[Output(n)].bytes
  }

  /** The state the directory stands for: a surviving journal overrides the files. */
  ghost function Committed<T>(disk: Disk<T>): Outputs<T>
    requires Valid(disk)
  {
    if Journal in disk then disk[Journal].before else Visible(disk)
  }

  /** The staged files that differ from what was there before, in replacement order.
      A file the operation deleted from the stage is not published. */
  function ChangedFrom<T(==)>(before: Outputs<T>, stage: Outputs<T>, names: seq<Name>): (changed: seq<Name>)
    ensures forall n :: n in changed <==> n in names && n in stage && (n !in before || stage[n] != before[n])
  {
    if names == [] then []
    else
      var rest := ChangedFrom(before, stage, names[1..]);
      if names[0] in stage && (names[0] !in before || stage[names[0]] != before[names[0]])
      then [names[0]] + rest
      else rest
  }

  /** The state a successful call commits. */
  ghost function Target<T>(before: Outputs<T>, operation: Operation<T>): Outputs<T> {
    match operation(before)
    case None => before
    case Some(stage) => before + stage
  }

  lemma EveryNameIsAnOutput(n: Name)
    ensures n in OUTPUT_NAMES
  {
    match n
    case Results => assert OUTPUT_NAMES[0] == n;
    case Activity => assert OUTPUT_NAMES[1] == n;
    case Summary => assert OUTPUT_NAMES[2] == n;
    case Comparison => assert OUTPUT_NAMES[3] == n;
    case Diagnostics => assert OUTPUT_NAMES[4] == n;
  }

  /** The file is as the journal has it. */
  ghost predicate RestoredAt<T>(disk: Disk<T>, n: Name, before: Outputs<T>) {
    && (Output(n) in disk <==> n in before)
    && (n in before ==> disk[Output(n)] == Data(before[n]))
  }

  lemma VisibleIs<T>(disk: Disk<T>, files: Outputs<T>)
    requires forall n: Name :: RestoredAt(disk, n, files)
    ensures Visible(disk) == files
  {
    forall n: Name
      ensures (n in Visible(disk) <==> n in files) && (n in files ==> Visible(disk)[n] == files[n])
    {
      EveryNameIsAnOutput(n);
      assert RestoredAt(disk, n, files);
    }
  }

  /** No other output is touched. */
  ghost predicate OthersStand<T>(disk: Disk<T>, disk': Disk<T>, n: Name) {
    forall m: Name :: m != n ==>
      && (Output(m) in disk' <==> Output(m) in disk)
      && (Output(m) in disk' ==> disk'[Output(m)] == disk[Output(m)])
  }

  ghost predicate FirstRestored<T>(disk: Disk<T>, before: Outputs<T>, i: nat)
    requires i <= |OUTPUT_NAMES|
  {
    forall j :: 0 <= j < i ==> RestoredAt(disk, OUTPUT_NAMES[j], before)
  }

  lemma OneMoreRestored<T>(disk: Disk<T>, disk': Disk<T>, before: Outputs<T>, i: nat)
    requires i < |OUTPUT_NAMES| && FirstRestored(disk, before, i)
    requires OthersStand(disk, disk', OUTPUT_NAMES[i]) && RestoredAt(disk', OUTPUT_NAMES[i], before)
    ensures FirstRestored(disk', before, i + 1)
  {
    forall j | 0 <= j < i + 1
      ensures RestoredAt(disk', OUTPUT_NAMES[j], before)
    {
      if OUTPUT_NAMES[j] != OUTPUT_NAMES[i] {
        assert RestoredAt(disk, OUTPUT_NAMES[j], before);
      }
    }
  }

  lemma AllRestored<T>(disk: Disk<T>, before: Outputs<T>)
    requires FirstRestored(disk, before, |OUTPUT_NAMES|)
    ensures Visible(disk) == before
  {
    forall n: Name
      ensures RestoredAt(disk, n, before)
    {
      EveryNameIsAnOutput(n);
      var j :| 0 <= j < |OUTPUT_NAMES| && OUTPUT_NAMES[j] == n;
    }
    VisibleIs(disk, before);
  }

  lemma RestoreStepsFirst<T>(schedule: seq<Fault>, before: Outputs<T>, names: seq<Name>, i: nat)
    requires i < |names|
    ensures Steps(schedule, RestoreSteps(before, names[i..])) ==
            var (r, rest) := Steps(schedule, if names[i] in before then 2 else 1);
            if r == Proceed then Steps(rest, RestoreSteps(before, names[i + 1..])) else (r, rest)
  {
    assert names[i..][0] == names[i] && names[i..][1..] == names[i + 1..];
    StepsCompose(schedule, if names[i] in before then 2 else 1, RestoreSteps(before, names[i + 1..]));
  }

  /** What is visible once the first `done` of the changed files are in place. */
  ghost function Overlay<T>(before: Outputs<T>, stage: Outputs<T>, done: seq<Name>): Outputs<T> {
    map n: Name | n in before.Keys + stage.Keys && (n in before || n in done) ::
      if n in done && n in stage then stage[n] else before[n]
  }

  lemma ChangesMakeTarget<T>(before: Outputs<T>, stage: Outputs<T>, changed: seq<Name>)
    requires changed == ChangedFrom(before, stage, OUTPUT_NAMES)
    ensures Overlay(before, stage, changed) == before + stage
    ensures changed == [] <==> before + stage == before
  {
    forall n: Name
      ensures n in OUTPUT_NAMES
    {
      EveryNameIsAnOutput(n);
    }
    if changed != [] {
      assert changed[0] in changed;
      assert (before + stage)[changed[0]] == stage[changed[0]];
    }
  }

  /** Between writing the journal and committing. */
  ghost predicate Midway<T>(disk: Disk<T>, before: Outputs<T>, stage: Outputs<T>, done: seq<Name>) {
    && Valid(disk)
    && Journal in disk && disk[Journal] == Backup(before)
    && Visible(disk) == Overlay(before, stage, done)
  }

  lemma MidwayBegins<T>(disk: Disk<T>, disk': Disk<T>, before: Outputs<T>, stage: Outputs<T>)
    requires Valid(disk) && Visible(disk) == before
    requires PendingJournal in disk && disk[PendingJournal] == Backup(before)
    requires disk' == (disk - {PendingJournal})[Journal := disk[PendingJournal]]
    ensures Midway(disk', before, stage, [])
  {
    assert Visible(disk') == before;
    assert Overlay(before, stage, []) == before;
  }

  lemma VisibleAfterReplace<T>(disk: Disk<T>, n: Name, bytes: T)
    ensures Visible(disk[Output(n) := Data(bytes)]) == Visible(disk)[n := bytes]
  {
    EveryNameIsAnOutput(n);
  }

  lemma OverlayGrows<T>(before: Outputs<T>, stage: Outputs<T>, done: seq<Name>, n: Name)
    requires n in stage
    ensures Overlay(before, stage, done + [n]) == Overlay(before, stage, done)[n := stage[n]]
  {
    assert forall m :: m in done + [n] <==> m in done || m == n;
  }

  lemma MidwayAdvances<T>(disk: Disk<T>, before: Outputs<T>, stage: Outputs<T>, done: seq<Name>, n: Name)
    requires Midway(disk, before, stage, done) && n in stage
    ensures Midway(disk[Output(n) := Data(stage[n])], before, stage, done + [n])
  {
    VisibleAfterReplace(disk, n, stage[n]);
    OverlayGrows(before, stage, done, n);
  }

  /** Everything a caller may rely on after one call, whatever the faults were. */
  ghost predicate CallEffect<T(!new)>(d: Disk<T>, operation: Operation<T>, d': Disk<T>,
                                      seen: Option<Outputs<T>>, outcome: Outcome, committed: bool)
    requires Valid(d)
  {
    && Valid(d')
       // The operation is shown exactly the committed state, never a mix.
    && (seen.Some? ==> seen.value == Committed(d))
       // All or nothing.
    && (committed ==> seen.Some? && operation(Committed(d)).Some? && Journal !in d')
    && Committed(d') == (if committed then Target(Committed(d), operation) else Committed(d))
       // A returning call has published everything it was asked to.
    && (outcome.Returned? ==>
          && Journal !in d'
          && operation(Committed(d)).Some?
          && Visible(d') == Target(Committed(d), operation))
       // A failed replace was undone before the call raised.
    && (outcome == Raised(Swapping) ==> !committed && Journal !in d' && Visible(d') == Committed(d))
       // A failed commit leaves the new files on disk under a journal that disowns them.
    && (outcome == Raised(Commit) ==>
          && !committed && Journal in d'
          && operation(Committed(d)).Some? && Visible(d') == Target(Committed(d), operation))
    && (outcome == Raised(Rollback) ==> !committed && Journal in d')
    && (outcome == Raised(Staging) ==> !committed && Journal !in d' && Visible(d') == Committed(d))
  }

  /** What replacing the files and committing leaves behind. */
  ghost predicate SwapEffect<T>(disk: Disk<T>, before: Outputs<T>, stage: Outputs<T>, changed: seq<Name>,
                                outcome: Outcome, committed: bool)
  {
    && Valid(disk)
    && (outcome.Returned? || outcome == Raised(Cleanup) ==> committed)
    && (outcome.Raised? && outcome != Raised(Cleanup) ==> !committed)
    && (committed ==> Journal !in disk && Visible(disk) == Overlay(before, stage, changed))
    && (outcome == Raised(Swapping) ==> Journal !in disk && Visible(disk) == before)
    && (!committed && outcome != Raised(Swapping) ==> Journal in disk && disk[Journal] == Backup(before))
    && (outcome == Raised(Commit) ==> Visible(disk) == Overlay(before, stage, changed))
    && (outcome.Raised? ==> outcome.at in {Swapping, Rollback, Commit, Cleanup})
  }

  /** What journalling, replacing and committing leave behind. */
  ghost predicate InstallEffect<T>(disk: Disk<T>, before: Outputs<T>, target: Outputs<T>,
                                   outcome: Outcome, committed: bool)
  {
    && Valid(disk)
    && Committed(disk) == (if committed then target else before)
    && (committed || outcome.Returned? ==> Journal !in disk && Visible(disk) == target)
    && (outcome == Raised(Swapping) || outcome == Raised(Journaling) ==> !committed && Journal !in disk)
    && (outcome == Raised(Rollback) ==> !committed && Journal in disk)
    && (outcome == Raised(Commit) ==> !committed && Journal in disk && Visible(disk) == target)
    && (outcome.Raised? ==> outcome.at != Staging && outcome.at != Recovery)
  }

  ghost function RecoverySteps<T>(disk: Disk<T>): nat
    requires Valid(disk)
  {
    if Journal in disk then RestoreSteps(disk[Journal].before, OUTPUT_NAMES) else 0
  }

  /** How a call ends on a directory, for every schedule. */
  ghost function OutcomeOn<T>(disk: Disk<T>, operation: Operation<T>, schedule: seq<Fault>): Outcome
    requires Valid(disk)
  {
    var before := Committed(disk);
    var staged := operation(before);
    PublishOutcome(schedule, RecoverySteps(disk), staged.None?,
                   if staged.None? then 0 else |ChangedFrom(before, staged.value, OUTPUT_NAMES)|,
                   RestoreSteps(before, OUTPUT_NAMES))
  }

  /** Without a fault the call returns, unless the operation raises. */
  lemma OutcomeWithoutFaults<T>(disk: Disk<T>, operation: Operation<T>, schedule: seq<Fault>)
    requires Valid(disk) && NoFault(schedule)
    ensures OutcomeOn(disk, operation, schedule) ==
            if operation(Committed(disk)).None? then Raised(Staging) else Returned
  {
    var staged := operation(Committed(disk));
    ReturnsWithoutFaults(schedule, RecoverySteps(disk), staged.None?,
                         if staged.None? then 0 else |ChangedFrom(Committed(disk), staged.value, OUTPUT_NAMES)|,
                         RestoreSteps(Committed(disk), OUTPUT_NAMES));
  }

  /** A call crashes only if the schedule says so. */
  lemma OutcomeWithoutCrash<T>(disk: Disk<T>, operation: Operation<T>, schedule: seq<Fault>)
    requires Valid(disk) && Crash !in schedule
    ensures OutcomeOn(disk, operation, schedule) != Crashed
  {
    var staged := operation(Committed(disk));
    NoCrashWithoutCrash(schedule, RecoverySteps(disk), staged.None?,
                        if staged.None? then 0 else |ChangedFrom(Committed(disk), staged.value, OUTPUT_NAMES)|,
                        RestoreSteps(Committed(disk), OUTPUT_NAMES));
  }

  class DataDir<T(==, !new)> {
    var disk: Disk<T>
    var faults: seq<Fault>

    constructor (disk: Disk<T>, faults: seq<Fault>)
      ensures this.disk == disk && this.faults == faults
    {
      this.disk := disk;
      this.faults := faults;
    }

    /** An operation on files this model does not name. */
    method Elsewhere() returns (r: Fault)
      modifies `faults
      ensures r == Verdict(old(faults)) && faults == Later(old(faults))
    {
      r, faults := Verdict(faults), Later(faults);
    }

    /** Writing in place is not atomic: a failure may leave a torn file. */
    method Write(p: Path, content: Content<T>) returns (r: Fault)
      modifies this
      ensures r == Verdict(old(faults)) && faults == Later(old(faults))
      ensures r.Proceed? ==> disk == old(disk)[p := content]
      ensures !r.Proceed? ==> disk == old(disk) || disk == old(disk)[p := Torn]
    {
      r, faults := Verdict(faults), Later(faults);
      if r.Proceed? {
        disk := disk[p := content];
      } else if * {
        disk := disk[p := Torn];
      }
    }

    /** Renaming over a file is atomic. */
    method Replace(source: Path, target: Path) returns (r: Fault)
      requires source in disk
      modifies this
      ensures r == Verdict(old(faults)) && faults == Later(old(faults))
      ensures disk == if r.Proceed? then (old(disk) - {source})[target := old(disk)[source]] else old(disk)
    {
      r, faults := Verdict(faults), Later(faults);
      if r.Proceed? {
        disk := (disk - {source})[target := disk[source]];
      }
    }

    /** Renaming a staged file over a public one is the same atomic step. */
    method ReplaceFromStage(staged: T, target: Name) returns (r: Fault)
      modifies this
      ensures r == Verdict(old(faults)) && faults == Later(old(faults))
      ensures disk == if r.Proceed? then old(disk)[Output(target) := Data(staged)] else old(disk)
    {
      r, faults := Verdict(faults), Later(faults);
      if r.Proceed? {
        disk := disk[Output(target) := Data(staged)];
      }
    }

    method Unlink(p: Path) returns (r: Fault)
      modifies this
      ensures r == Verdict(old(faults)) && faults == Later(old(faults))
      ensures disk == if r.Proceed? then old(disk) - {p} else old(disk)
    {
      r, faults := Verdict(faults), Later(faults);
      if r.Proceed? {
        disk := disk - {p};
      }
    }

    /** Puts one file back as the journal has it. */
    method RestoreOne(n: Name, before: Outputs<T>) returns (r: Fault)
      requires Valid(disk) && Journal in disk
      modifies this
      ensures Valid(disk) && Journal in disk && disk[Journal] == old(disk[Journal])
      ensures (r, faults) == Steps(old(faults), if n in before then 2 else 1)
      ensures OthersStand(old(disk), disk, n)
      ensures r.Proceed? ==> RestoredAt(disk, n, before)
    {
      StepsCompose(faults, 1, 1);
      if n !in before {
        r := Unlink(Output(n));
      } else {
        r := Write(RestoreTemp(n), Data(before[n]));
        if r.Proceed? {
          r := Replace(RestoreTemp(n), Output(n));
        }
      }
    }

    method Restore() returns (r: Fault)
      requires Valid(disk) && Journal in disk
      modifies this
      ensures Valid(disk)
      ensures (r, faults) == Steps(old(faults), RestoreSteps(old(disk[Journal].before), OUTPUT_NAMES))
      ensures r.Proceed? ==> Journal !in disk && Visible(disk) == old(disk[Journal].before)
      ensures !r.Proceed? ==> Journal in disk && disk[Journal] == old(disk[Journal])
    {
      var before := disk[Journal].before;
      var i := 0;
      while i < |OUTPUT_NAMES|
        invariant 0 <= i <= |OUTPUT_NAMES|
        invariant Valid(disk) && Journal in disk && disk[Journal] == old(disk[Journal])
        invariant Steps(old(faults), RestoreSteps(before, OUTPUT_NAMES)) ==
                  Steps(faults, RestoreSteps(before, OUTPUT_NAMES[i..]))
        invariant FirstRestored(disk, before, i)
      {
        RestoreStepsFirst(faults, before, OUTPUT_NAMES, i);
        ghost var previous := disk;
        r := RestoreOne(OUTPUT_NAMES[i], before);
        if !r.Proceed? {
          return;
        }
        OneMoreRestored(previous, disk, before, i);
        i := i + 1;
      }
      r := Unlink(Journal);
      if r.Proceed? {
        AllRestored(disk, before);
      }
    }

    /** Moves the changed files into place and commits.  When a replace fails the
        journal is played back before the failure is passed on. */
    method Swap(before: Outputs<T>, changed: seq<Name>, stage: Outputs<T>) returns (outcome: Outcome, committed: bool)
      requires Midway(disk, before, stage, [])
      requires forall n :: n in changed ==> n in stage
      modifies this
      ensures Valid(disk)
      ensures outcome == SwapOutcome(old(faults), |changed|, RestoreSteps(before, OUTPUT_NAMES))
      ensures SwapEffect(disk, before, stage, changed, outcome, committed)
    {
      var i := 0;
      while i < |changed|
        invariant 0 <= i <= |changed|
        invariant Midway(disk, before, stage, changed[..i])
        invariant SwapOutcome(old(faults), |changed|, RestoreSteps(before, OUTPUT_NAMES)) ==
                  SwapOutcome(faults, |changed| - i, RestoreSteps(before, OUTPUT_NAMES))
      {
        var n := changed[i];
        MidwayAdvances(disk, before, stage, changed[..i], n);
        var r := ReplaceFromStage(stage[n], n);
        if r.Crash? {
          return Crashed, false;
        }
        if r.Fail? {
          outcome := RollBack(before, stage, changed);
          return outcome, false;
        }
        assert changed[..i + 1] == changed[..i] + [n];
        i := i + 1;
      }
      assert changed[..i] == changed;
      outcome, committed := CommitAndClean(before, stage, changed);
    }

    /** Plays the journal back after a failed replace. */
    method RollBack(ghost before: Outputs<T>, ghost stage: Outputs<T>, ghost changed: seq<Name>)
      returns (outcome: Outcome)
      requires Valid(disk) && Journal in disk && disk[Journal] == Backup(before)
      modifies this
      ensures outcome == RollbackOutcome(old(faults), RestoreSteps(before, OUTPUT_NAMES))
      ensures SwapEffect(disk, before, stage, changed, outcome, false)
    {
      var r := Restore();
      outcome := if r.Proceed? then Raised(Swapping) else if r.Crash? then Crashed else Raised(Rollback);
    }

    /** Makes the old files recoverable: the backup is complete under another
        name before it becomes the journal. */
    method WriteJournal(before: Outputs<T>, ghost stage: Outputs<T>) returns (r: Fault)
      requires Valid(disk) && Journal !in disk && Visible(disk) == before
      modifies this
      ensures (r, faults) == Steps(old(faults), 2)
      ensures r.Proceed? ==> Midway(disk, before, stage, [])
      ensures !r.Proceed? ==> Valid(disk) && Journal !in disk && Visible(disk) == before
    {
      StepsCompose(faults, 1, 1);
      r := Write(PendingJournal, Backup(before));
      assert Visible(disk) == before;
      if r.Proceed? {
        ghost var written := disk;
        r := Replace(PendingJournal, Journal);
        if r.Proceed? {
          MidwayBegins(written, disk, before, stage);
        }
      }
    }

    /** Journals the old files, installs the changed ones and commits. */
    method Install(before: Outputs<T>, changed: seq<Name>, stage: Outputs<T>)
      returns (outcome: Outcome, committed: bool)
      requires Valid(disk) && Journal !in disk && Visible(disk) == before
      requires changed == ChangedFrom(before, stage, OUTPUT_NAMES)
      modifies this
      ensures Valid(disk)
      ensures outcome ==
              var (r, rest) := Steps(old(faults), 2);
              if r != Proceed then if r == Crash then Crashed else Raised(Journaling)
              else SwapOutcome(rest, |changed|, RestoreSteps(before, OUTPUT_NAMES))
      ensures InstallEffect(disk, before, before + stage, outcome, committed)
    {
      ChangesMakeTarget(before, stage, changed);
      var r := WriteJournal(before, stage);
      if !r.Proceed? {
        return if r.Crash? then Crashed else Raised(Journaling), false;
      }
      outcome, committed := Swap(before, changed, stage);
    }

    /** Removing the journal is the commit point; the stage is swept after it. */
    method CommitAndClean(ghost before: Outputs<T>, ghost stage: Outputs<T>, ghost changed: seq<Name>)
      returns (outcome: Outcome, committed: bool)
      requires Midway(disk, before, stage, changed)
      modifies this
      ensures Valid(disk)
      ensures outcome == SwapOutcome(old(faults), 0, RestoreSteps(before, OUTPUT_NAMES))
      ensures SwapEffect(disk, before, stage, changed, outcome, committed)
    {
      var r := Unlink(Journal);
      committed := r.Proceed?;
      assert Visible(disk) == Overlay(before, stage, changed);
      if !r.Proceed? {
        return if r.Crash? then Crashed else Raised(Commit), committed;
      }
      r := Elsewhere();
      outcome := if r.Proceed? then Returned else if r.Crash? then Crashed else Raised(Cleanup);
    }

    /** Plays back a journal that an earlier call left behind. */
    method Recover() returns (r: Fault)
      requires Valid(disk)
      modifies this
      ensures Valid(disk) && Committed(disk) == old(Committed(disk))
      ensures (r, faults) == Steps(old(faults), old(RecoverySteps(disk)))
      ensures r.Proceed? ==> Journal !in disk
      ensures Journal !in old(disk) ==> disk == old(disk) && r.Proceed?
    {
      r := Proceed;
      if Journal in disk {
        r := Restore();
      }
    }

    method Publish(operation: Operation<T>)
      returns (outcome: Outcome, ghost seen: Option<Outputs<T>>, committed: bool)
      requires Valid(disk)
      modifies this
      ensures Valid(disk)
      ensures CallEffect(old(disk), operation, disk, seen, outcome, committed)
      // The outcome is that of the first fault the call meets.
      ensures outcome == OutcomeOn(old(disk), operation, old(faults))
      ensures Crash !in old(faults) ==> outcome != Crashed
      // The operation is called exactly when recovery and the opening of the stage succeed.
      ensures seen.Some? <==> Steps(old(faults), old(RecoverySteps(disk)) + 1).0 == Proceed
      // A call with nothing to change commits nothing and touches no file.
      ensures committed ==> Target(old(Committed(disk)), operation) != old(Committed(disk))
      ensures
        (Journal !in old(disk) && Target(old(Committed(disk)), operation) == old(Committed(disk)))
        ==> disk == old(disk)
    {
      StepsCompose(faults, RecoverySteps(disk), 1);
      if Crash !in faults {
        OutcomeWithoutCrash(disk, operation, faults);
      }
      var r := Recover();
      if !r.Proceed? {
        return if r.Crash? then Crashed else Raised(Recovery), None, false;
      }
      ghost var recovered := disk;
      outcome, seen, committed := Perform(operation);
      assert CallEffect(recovered, operation, disk, seen, outcome, committed);
    }

    /** The call after recovery. */
    method Perform(operation: Operation<T>)
      returns (outcome: Outcome, ghost seen: Option<Outputs<T>>, committed: bool)
      requires Valid(disk) && Journal !in disk
      modifies this
      ensures Valid(disk)
      ensures CallEffect(old(disk), operation, disk, seen, outcome, committed)
      ensures outcome == OutcomeOn(old(disk), operation, old(faults))
      ensures outcome != Raised(Recovery)
      ensures seen.Some? <==> Steps(old(faults), 1).0 == Proceed
      ensures committed ==> Target(old(Committed(disk)), operation) != old(Committed(disk))
      ensures Target(old(Committed(disk)), operation) == old(Committed(disk)) ==> disk == old(disk)
    {
      committed := false;
      seen := None;
      var r := Elsewhere();
      if !r.Proceed? {
        return if r.Crash? then Crashed else Raised(Staging), seen, false;
      }
      var before := Snapshot();
      seen := Some(before);
      var staged := operation(before);
      if staged.None? {
        return Raised(Staging), seen, false;
      }
      outcome, committed := PublishStage(before, staged.value);
    }

    /** The call after the operation has filled the stage. */
    method PublishStage(before: Outputs<T>, stage: Outputs<T>) returns (outcome: Outcome, committed: bool)
      requires Valid(disk) && Journal !in disk && Visible(disk) == before
      modifies this
      ensures outcome == StageOutcome(old(faults), |ChangedFrom(before, stage, OUTPUT_NAMES)|,
                                      RestoreSteps(before, OUTPUT_NAMES))
      ensures InstallEffect(disk, before, before + stage, outcome, committed)
      ensures before + stage == before ==> disk == old(disk) && !committed
    {
      var changed := ChangedFrom(before, stage, OUTPUT_NAMES);
      ChangesMakeTarget(before, stage, changed);
      if changed == [] {
        committed := false;
        var r := Elsewhere();
        outcome := if r.Proceed? then Returned else if r.Crash? then Crashed else Raised(Cleanup);
      } else {
        outcome, committed := Install(before, changed, stage);
      }
    }

    /** Reads the five files. */
    method Snapshot() returns (before: Outputs<T>)
      requires Valid(disk)
      ensures before == Visible(disk)
    {
      before := map n: Name | n in OUTPUT_NAMES && Output(n) in disk && disk[Output(n)].Data? :: disk[Output(n)].bytes;
    }
  }

  // ---------- at a concrete schedule ----------

  /** One changed file: the stage, the journal under its first name, its renaming and the
      replacement succeed, and the removal of the journal fails. */
  const FAILING_COMMIT: seq<Fault> := [Proceed, Proceed, Proceed, Proceed, Fail]

  lemma FailingCommitRaises(back: nat)
    ensures PublishOutcome(FAILING_COMMIT, 0, false, 1, back) == Raised(Commit)
  {
    var s1, s3 := Later(FAILING_COMMIT), [Proceed, Fail];
    assert Later(Later(s1)) == s3;
    StepsCompose(s1, 1, 1);
    assert Steps(s1, 2) == (Proceed, s3);
    assert SwapOutcome(s3, 1, back) == SwapOutcome(Later(s3), 0, back);
  }

  /** When the last removal of the journal fails, the call raises with the new files in
      place and the old ones still committed. */
  method FailedCommit<T(==, !new)>(dir: DataDir<T>, operation: Operation<T>) returns (outcome: Outcome)
    requires Valid(dir.disk) && Journal !in dir.disk && dir.faults == FAILING_COMMIT
    requires operation(Committed(dir.disk)).Some?
    requires |ChangedFrom(Committed(dir.disk), operation(Committed(dir.disk)).value, OUTPUT_NAMES)| == 1
    modifies dir
    ensures outcome == Raised(Commit)
    ensures Valid(dir.disk) && Journal in dir.disk && Visible(dir.disk) == Target(old(Committed(dir.disk)), operation)
    ensures Committed(dir.disk) == old(Committed(dir.disk))
  {
    FailingCommitRaises(RestoreSteps(Committed(dir.disk), OUTPUT_NAMES));
    ghost var seen;
    var committed;
    outcome, seen, committed := dir.Publish(operation);
  }

  /** The next call takes the new files back before it does anything else. */
  method FailedCommitIsTakenBack<T(==, !new)>(dir: DataDir<T>, operation: Operation<T>, next: Operation<T>)
    returns (ghost seen: Option<Outputs<T>>, outcome: Outcome)
    requires Valid(dir.disk) && Journal !in dir.disk && dir.faults == FAILING_COMMIT
    requires operation(Committed(dir.disk)).Some?
    requires |ChangedFrom(Committed(dir.disk), operation(Committed(dir.disk)).value, OUTPUT_NAMES)| == 1
    modifies dir
    ensures seen == Some(old(Committed(dir.disk)))
    ensures outcome == if next(old(Committed(dir.disk))).None? then Raised(Staging) else Returned
    ensures Valid(dir.disk) && Visible(dir.disk) == Target(old(Committed(dir.disk)), next)
  {
    var failed := FailedCommit(dir, operation);
    dir.faults := [];
    StepsWithoutFaults([], RecoverySteps(dir.disk) + 1);
    OutcomeWithoutFaults(dir.disk, next, []);
    var committed;
    outcome, seen, committed := dir.Publish(next);
  }

  /** One call in a run, with what was observed of it. */
  datatype Call<!T> = Call(operation: Operation<T>, seen: Option<Outputs<T>>, outcome: Outcome, committed: bool)

  /** `disks` is the directory before the first call and after each one. */
  ghost predicate Run<T(!new)>(disks: seq<Disk<T>>, calls: seq<Call<T>>) {
    && |disks| == |calls| + 1
    && Valid(disks[0])
    && forall i :: 0 <= i < |calls| ==>
         && Valid(disks[i])
         && CallEffect(disks[i], calls[i].operation, disks[i + 1], calls[i].seen, calls[i].outcome, calls[i].committed)
  }

  /** The same calls with no files at all: a call that reached its commit point
      happened as a whole, every other call did not happen. */
  ghost function Replay<T>(start: Outputs<T>, calls: seq<Call<T>>): Outputs<T> {
    if calls == [] then start
    else
      var before := Replay(start, calls[..|calls| - 1]);
      var last := calls[|calls| - 1];
      if last.committed then Target(before, last.operation) else before
  }

  /** Crash atomicity over every run. */
  lemma {:induction false} CrashAtomicity<T(!new)>(disks: seq<Disk<T>>, calls: seq<Call<T>>, i: nat)
    requires Run(disks, calls) && i <= |calls|
    ensures Valid(disks[i]) && Committed(disks[i]) == Replay(Committed(disks[0]), calls[..i])
    ensures i < |calls| && calls[i].seen.Some? ==> calls[i].seen.value == Replay(Committed(disks[0]), calls[..i])
    ensures i > 0 && calls[i - 1].outcome.Returned? ==> Visible(disks[i]) == Replay(Committed(disks[0]), calls[..i])
  {
    if i == 0 {
    } else {
      CrashAtomicity(disks, calls, i - 1);
      assert calls[..i][..i - 1] == calls[..i - 1];
      assert Committed(disks[i]) == Replay(Committed(disks[0]), calls[..i]);
    }
    if i < |calls| && calls[i].seen.Some? {
      var call := calls[i];
      assert CallEffect(disks[i], call.operation, disks[i + 1], call.seen, call.outcome, call.committed);
    }
  }
}
