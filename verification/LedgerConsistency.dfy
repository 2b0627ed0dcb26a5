/** When the two published tables stay in step: exactly as long as no result of another
    status than its job's is published. */
module LedgerConsistency {
  import opened Wrappers
  import opened AttemptKeys
  import opened PublishTransaction
  import opened LedgerSync
  import opened LedgerKeys

  ghost predicate UniqueKeys(rows: seq<Row>) {
    forall i, j :: 0 <= i < j < |rows| ==> rows[i].key != rows[j].key
  }

  ghost predicate Consistent(results: seq<Row>, summary: seq<Row>) {
    && UniqueKeys(results) && UniqueKeys(summary)
    && OneKeyPerAttempt(results + summary)
    && forall row :: row in results + summary ==> PublishableRow(row)
  }

  ghost predicate ConsistentFiles(files: Files) {
    Consistent(RowsOf(files, Results), RowsOf(files, Summary))
  }

  /** About to be added to the results under another status than the job store has. */
  ghost predicate StaleDue(job: Job, results: seq<Row>) {
    Due(job, PublishedPairs(results)) && job.result.value.status != job.status
  }

  /** Every result about to be added to the results table is of the status the job
      store has. */
  ghost predicate FreshResults(jobs: seq<Job>, results: seq<Row>) {
    forall job :: job in jobs ==> !StaleDue(job, results)
  }

  // ---------- one synchronisation of consistent tables ----------

  lemma ConsistentRowsAreAnchored(files: Files)
    requires ConsistentFiles(files)
    ensures AnchoredRows(Published(files)) && Functional(Published(files))
  {
    forall row | row in Published(files)
      ensures AnchoredKey(Published(files), row.key)
    {
      assert PublishableRow(row);
    }
  }

  /** Everything known of a synchronisation of consistent tables. */
  ghost predicate Syncs(jobs: seq<Job>, files: Files, files': Files, ids: map<Pair, string>) {
    && CoveringIds(jobs, ids) && Exact(ids)
    && Follows(Published(files), ids)
    && RowsOf(files', Results) == ResultsAfter(jobs, RowsOf(files, Results), ids)
    && RowsOf(files', Summary) == SummaryAfter(jobs, RowsOf(files, Summary), ids)
    && Completes(jobs, RowsOf(files, Results), RowsOf(files', Results), ids)
    && Completes(jobs, RowsOf(files, Summary), RowsOf(files', Summary), ids)
  }

  lemma ConsistentFilesSync(jobs: seq<Job>, diagnose: bool, files: Files)
    requires ConsistentFiles(files) && StoredJobs(jobs)
    ensures Synced(jobs, diagnose, files).Some?
    ensures Syncs(jobs, files, Synced(jobs, diagnose, files).value, IdsFor(jobs, files))
  {
    ConsistentRowsAreAnchored(files);
    SyncedTables(jobs, diagnose, files);
    SyncedTablesComplete(jobs, diagnose, files);
    AssignmentIsExact(jobs, RowsOf(files, Results), RowsOf(files, Summary));
  }

  lemma DueKeysAreNew(jobs: seq<Job>, rows: seq<Row>, ids: map<Pair, string>)
    requires StoredJobs(jobs) && CoveringIds(jobs, ids) && Exact(ids) && Follows(rows, ids)
    ensures var entries := Lacking(jobs, rows, ids);
            && (forall i :: 0 <= i < |entries| ==> entries[i].key !in KeysOf(rows))
            && (forall i, j :: 0 <= i < j < |entries| ==> entries[i].key != entries[j].key)
  {
    var entries := Lacking(jobs, rows, ids);
    LackingAreTheDueJobs(jobs, rows, ids);
    forall i, row | 0 <= i < |entries| && row in rows
      ensures row.key != entries[i].key
    {
      FollowedPairIsPublished(jobs, rows, ids, row);
      assert PairOf(row) != JobPair(entries[i].job);
    }
    forall i, j | 0 <= i < j < |entries|
      ensures entries[i].key != entries[j].key
    {
      assert JobPair(entries[i].job) != JobPair(entries[j].job);
    }
  }

  /** Row keys are never empty here, so reading a table back drops no row. */
  lemma FollowedPairIsPublished(jobs: seq<Job>, rows: seq<Row>, ids: map<Pair, string>, row: Row)
    requires CoveringIds(jobs, ids) && Follows(rows, ids) && row in rows
    ensures PairOf(row) in PublishedPairs(rows)
  {
    assert BaseRunId("") == "";
  }

  lemma AppendingKeepsUnique(jobs: seq<Job>, rows: seq<Row>, added: seq<Row>, ids: map<Pair, string>)
    requires StoredJobs(jobs) && CoveringIds(jobs, ids) && Exact(ids) && Follows(rows, ids) && UniqueKeys(rows)
    requires var entries := Lacking(jobs, rows, ids);
             |added| == |entries| && forall i :: 0 <= i < |added| ==> added[i].key == entries[i].key
    ensures UniqueKeys(rows + added)
  {
    DueKeysAreNew(jobs, rows, ids);
    forall i, j | 0 <= i < j < |rows + added|
      ensures (rows + added)[i].key != (rows + added)[j].key
    {
      if i < |rows| <= j {
        assert rows[i] in rows;
      }
    }
  }

  /** Rows that follow an exact assignment agree. */
  lemma FollowingRowsAgree(jobs: seq<Job>, rows: seq<Row>, ids: map<Pair, string>)
    requires CoveringIds(jobs, ids) && Exact(ids) && Follows(rows, ids)
    ensures OneKeyPerAttempt(rows)
    ensures forall row :: row in rows ==> PublishableRow(row)
  {
  }

  /** New summary rows show the job's status, so they follow the assignment; new results
      rows do as long as no result is stale. */
  lemma NewRowsFollow(jobs: seq<Job>, files: Files, files': Files, ids: map<Pair, string>)
    requires StoredJobs(jobs) && Syncs(jobs, files, files', ids)
    ensures Follows(RowsOf(files', Summary), ids)
    ensures FreshResults(jobs, RowsOf(files, Results)) ==> Follows(RowsOf(files', Results), ids)
  {
    NewSummaryRows(jobs, RowsOf(files, Summary), ids);
    NewResultRows(jobs, RowsOf(files, Results), ids);
    forall row | row in RowsOf(files', Summary)
      ensures PairOf(row) in ids && ids[PairOf(row)] == row.key
    {
      if row in RowsOf(files, Summary) {
        assert row in Published(files);
      }
    }
    forall row | FreshResults(jobs, RowsOf(files, Results)) && row in RowsOf(files', Results)
      ensures PairOf(row) in ids && ids[PairOf(row)] == row.key
    {
      if row in RowsOf(files, Results) {
        assert row in Published(files);
      }
    }
  }

  /** The row that a stale result becomes. */
  function StaleRow(job: Job, ids: map<Pair, string>): Row
    requires job.result.Some? && JobPair(job) in ids
  {
    Row(ids[JobPair(job)], job.result.value.status, job.result.value.resultCells)
  }

  /** A result of another status than its job puts one key under two attempts. */
  lemma StaleResultDisagrees(jobs: seq<Job>, files: Files, files': Files, ids: map<Pair, string>, job: Job)
    requires StoredJobs(jobs) && Syncs(jobs, files, files', ids)
    requires job in jobs && StaleDue(job, RowsOf(files, Results))
    ensures StaleRow(job, ids) in RowsOf(files', Results)
    ensures !OneKeyPerAttempt(Published(files'))
  {
    var a := StaleRow(job, ids);
    NewResultRows(jobs, RowsOf(files, Results), ids);
    NewRowsFollow(jobs, files, files', ids);
    assert ids[JobPair(job)] in KeysOf(RowsOf(files', Summary));
    var b :| b in RowsOf(files', Summary) && b.key == ids[JobPair(job)];
    assert PairOf(b) == JobPair(job);
    assert a in Published(files') && b in Published(files') && PairOf(a) != PairOf(b);
  }

  lemma FreshSyncIsConsistent(jobs: seq<Job>, files: Files, files': Files, ids: map<Pair, string>)
    requires StoredJobs(jobs) && ConsistentFiles(files) && Syncs(jobs, files, files', ids)
    requires FreshResults(jobs, RowsOf(files, Results))
    ensures ConsistentFiles(files')
  {
    var results, summary := RowsOf(files, Results), RowsOf(files, Summary);
    assert Follows(results, ids) && Follows(summary, ids) by {
      assert forall row :: row in results || row in summary ==> row in Published(files);
    }
    LackingAreTheDueJobs(jobs, results, ids);
    LackingAreTheDueJobs(jobs, summary, ids);
    AppendingKeepsUnique(jobs, results, ResultRows(Lacking(jobs, results, ids)), ids);
    AppendingKeepsUnique(jobs, summary, SummaryRows(Lacking(jobs, summary, ids)), ids);
    NewRowsFollow(jobs, files, files', ids);
    FollowingRowsAgree(jobs, Published(files'), ids);
  }

  /** Main result.  A synchronisation of consistent tables never raises and only
      appends; the tables stay consistent if and only if no stale result was due. */
  lemma SyncKeepsConsistency(jobs: seq<Job>, diagnose: bool, files: Files)
    requires ConsistentFiles(files) && StoredJobs(jobs)
    ensures Synced(jobs, diagnose, files).Some?
    ensures var files' := Synced(jobs, diagnose, files).value;
            && RowsOf(files, Results) <= RowsOf(files', Results)
            && RowsOf(files, Summary) <= RowsOf(files', Summary)
            && (ConsistentFiles(files') <==> FreshResults(jobs, RowsOf(files, Results)))
  {
    ConsistentFilesSync(jobs, diagnose, files);
    var ids, files' := IdsFor(jobs, files), Synced(jobs, diagnose, files).value;
    if FreshResults(jobs, RowsOf(files, Results)) {
      FreshSyncIsConsistent(jobs, files, files', ids);
    } else {
      var job :| job in jobs && StaleDue(job, RowsOf(files, Results));
      StaleResultDisagrees(jobs, files, files', ids, job);
    }
  }

  // ---------- the next synchronisation ----------

  lemma {:induction false} DueIsSelected(jobs: seq<Job>, pairs: set<Pair>, taken: set<string>, ids: map<Pair, string>,
                                         job: Job)
    requires job in jobs && Due(job, pairs)
    ensures Selected(jobs, pairs, taken, ids) != []
  {
    if job == jobs[0] {
    } else {
      assert job in jobs[1..];
      if !Due(jobs[0], pairs) {
        DueIsSelected(jobs[1..], pairs, taken, ids, job);
      }
    }
  }

  lemma {:induction false} NothingDueNothingSelected(jobs: seq<Job>, pairs: set<Pair>, taken: set<string>,
                                                     ids: map<Pair, string>)
    requires forall job :: job in jobs ==> !Due(job, pairs)
    ensures Selected(jobs, pairs, taken, ids) == []
  {
    if jobs == [] {
    } else {
      NothingDueNothingSelected(jobs[1..], pairs, taken, ids);
    }
  }

  /** Nothing is due in a table that lists every readable job under its own status. */
  lemma NothingDue(jobs: seq<Job>, rows: seq<Row>, ids: map<Pair, string>)
    requires CoveringIds(jobs, ids) && Exact(ids) && Follows(rows, ids)
    requires forall job :: job in jobs && Readable(job) ==> ids[JobPair(job)] in KeysOf(rows)
    ensures forall job :: job in jobs ==> !Due(job, PublishedPairs(rows))
  {
    forall job | job in jobs && Readable(job)
      ensures JobPair(job) in PublishedPairs(rows)
    {
      var row :| row in rows && row.key == ids[JobPair(job)];
      assert PairOf(row) == JobPair(job);
      FollowedPairIsPublished(jobs, rows, ids, row);
    }
  }

  lemma NothingLacksNothingChanges(jobs: seq<Job>, diagnose: bool, files: Files)
    requires Synced(jobs, diagnose, files).Some?
    requires forall job :: job in jobs ==> !Due(job, PublishedPairs(RowsOf(files, Results)))
    requires forall job :: job in jobs ==> !Due(job, PublishedPairs(RowsOf(files, Summary)))
    ensures Synced(jobs, diagnose, files).value == files
  {
    var results, summary, ids := RowsOf(files, Results), RowsOf(files, Summary), IdsFor(jobs, files);
    NothingDueNothingSelected(jobs, PublishedPairs(results), PublishedKeys(results), ids);
    NothingDueNothingSelected(jobs, PublishedPairs(summary), PublishedKeys(summary), ids);
  }

  lemma DueJobChangesResults(jobs: seq<Job>, diagnose: bool, files: Files, job: Job)
    requires Synced(jobs, diagnose, files).Some?
    requires job in jobs && Due(job, PublishedPairs(RowsOf(files, Results)))
    ensures |RowsOf(Synced(jobs, diagnose, files).value, Results)| > |RowsOf(files, Results)|
  {
    var results, ids := RowsOf(files, Results), IdsFor(jobs, files);
    SyncedRows(jobs, diagnose, files, ids);
    DueIsSelected(jobs, PublishedPairs(results), PublishedKeys(results), ids, job);
  }

  /** A stale result does not make its job count as published. */
  lemma StaleStaysDue(jobs: seq<Job>, files: Files, files': Files, ids: map<Pair, string>, job: Job)
    requires StoredJobs(jobs) && Syncs(jobs, files, files', ids)
    requires job in jobs && StaleDue(job, RowsOf(files, Results))
    ensures StaleDue(job, RowsOf(files', Results))
  {
    NewResultRows(jobs, RowsOf(files, Results), ids);
    forall row | row in RowsOf(files', Results) && row.key != ""
      ensures PairOf(row) != JobPair(job)
    {
      if row in RowsOf(files, Results) {
        assert PairOf(row) in PublishedPairs(RowsOf(files, Results));
      }
    }
  }

  lemma FreshSyncLeavesNothingDue(jobs: seq<Job>, files: Files, files': Files, ids: map<Pair, string>)
    requires StoredJobs(jobs) && Syncs(jobs, files, files', ids)
    requires FreshResults(jobs, RowsOf(files, Results))
    ensures forall job :: job in jobs ==>
              !Due(job, PublishedPairs(RowsOf(files', Results))) && !Due(job, PublishedPairs(RowsOf(files', Summary)))
  {
    NewRowsFollow(jobs, files, files', ids);
    NothingDue(jobs, RowsOf(files', Results), ids);
    NothingDue(jobs, RowsOf(files', Summary), ids);
  }

  /** Main result.  An immediate second synchronisation changes no file if and only if
      no stale result was due at the first. */
  lemma SyncIsIdempotent(jobs: seq<Job>, diagnose: bool, files: Files)
    requires ConsistentFiles(files) && StoredJobs(jobs)
    ensures Synced(jobs, diagnose, files).Some?
    ensures var files' := Synced(jobs, diagnose, files).value;
            Synced(jobs, diagnose, files') == Some(files') <==> FreshResults(jobs, RowsOf(files, Results))
  {
    ConsistentFilesSync(jobs, diagnose, files);
    var ids, files' := IdsFor(jobs, files), Synced(jobs, diagnose, files).value;
    if FreshResults(jobs, RowsOf(files, Results)) {
      SyncKeepsConsistency(jobs, diagnose, files);
      ConsistentFilesSync(jobs, diagnose, files');
      FreshSyncLeavesNothingDue(jobs, files, files', ids);
      NothingLacksNothingChanges(jobs, diagnose, files');
    } else {
      var job :| job in jobs && StaleDue(job, RowsOf(files, Results));
      StaleStaysDue(jobs, files, files', ids, job);
      if Synced(jobs, diagnose, files').Some? {
        DueJobChangesResults(jobs, diagnose, files', job);
      }
    }
  }

  // ---------- when the next synchronisation raises ----------

  /** The stale status is already published of that run, under another key. */
  ghost predicate Clashes(job: Job, files: Files) {
    StaleDue(job, RowsOf(files, Results)) && (job.runId, job.result.value.status) in PublishedPairs(Published(files))
  }

  lemma ClashRaises(jobs: seq<Job>, files: Files, files': Files, ids: map<Pair, string>, job: Job)
    requires StoredJobs(jobs) && Syncs(jobs, files, files', ids)
    requires job in jobs && Clashes(job, files)
    ensures !Functional(Published(files'))
  {
    StaleResultDisagrees(jobs, files, files', ids, job);
    var earlier :| earlier in Published(files) && PairOf(earlier) == (job.runId, job.result.value.status);
    assert earlier in Published(files') && StaleRow(job, ids) in Published(files');
    assert BaseRunId(ids[JobPair(job)]) == job.runId;
    assert earlier.key != StaleRow(job, ids).key;
  }

  /** A row of the tables afterwards follows the assignment or comes from a stale result. */
  ghost predicate FollowsOrStale(row: Row, jobs: seq<Job>, files: Files, ids: map<Pair, string>)
    requires CoveringIds(jobs, ids)
  {
    || (PairOf(row) in ids && ids[PairOf(row)] == row.key)
    || exists job :: job in jobs && StaleDue(job, RowsOf(files, Results)) && row == StaleRow(job, ids)
  }

  lemma ResultsFollowOrAreStale(jobs: seq<Job>, files: Files, files': Files, ids: map<Pair, string>)
    requires StoredJobs(jobs) && Syncs(jobs, files, files', ids)
    ensures forall row :: row in RowsOf(files', Results) ==> FollowsOrStale(row, jobs, files, ids)
  {
    var results := RowsOf(files, Results);
    NewResultRows(jobs, results, ids);
    forall row | row in RowsOf(files', Results)
      ensures FollowsOrStale(row, jobs, files, ids)
    {
      if row in results {
        assert row in Published(files);
      } else {
        var job :| job in jobs && Due(job, PublishedPairs(results)) && row == StaleRow(job, ids);
        DueRowFollowsOrIsStale(jobs, files, ids, job);
      }
    }
  }

  lemma DueRowFollowsOrIsStale(jobs: seq<Job>, files: Files, ids: map<Pair, string>, job: Job)
    requires CoveringIds(jobs, ids) && job in jobs && Due(job, PublishedPairs(RowsOf(files, Results)))
    ensures FollowsOrStale(StaleRow(job, ids), jobs, files, ids)
  {
  }

  lemma RowsFollowOrAreStale(jobs: seq<Job>, files: Files, files': Files, ids: map<Pair, string>)
    requires StoredJobs(jobs) && Syncs(jobs, files, files', ids)
    ensures forall row :: row in Published(files') ==> FollowsOrStale(row, jobs, files, ids)
  {
    NewRowsFollow(jobs, files, files', ids);
    ResultsFollowOrAreStale(jobs, files, files', ids);
    forall row | row in RowsOf(files', Summary)
      ensures FollowsOrStale(row, jobs, files, ids)
    {
    }
  }

  /** Rows of a run with a stale result due are old, or carry the key of that job. */
  lemma RowOfStaleRun(jobs: seq<Job>, files: Files, files': Files, ids: map<Pair, string>, job: Job, row: Row)
    requires StoredJobs(jobs) && Syncs(jobs, files, files', ids)
    requires job in jobs && BaseRunId(row.key) == job.runId && row in Published(files')
    ensures row in Published(files) || (JobPair(job) in ids && row.key == ids[JobPair(job)])
  {
    if row !in Published(files) {
      var other :| other in jobs && Readable(other) && row.key == ids[JobPair(other)];
      assert other.runId == job.runId;
    }
  }

  lemma NoClashIsFunctional(jobs: seq<Job>, files: Files, files': Files, ids: map<Pair, string>)
    requires StoredJobs(jobs) && Syncs(jobs, files, files', ids)
    requires forall job :: job in jobs ==> !Clashes(job, files)
    ensures Functional(Published(files'))
  {
    RowsFollowOrAreStale(jobs, files, files', ids);
    forall a, b | a in Published(files') && b in Published(files') && PairOf(a) == PairOf(b)
      ensures a.key == b.key
    {
      if !(PairOf(a) in ids && ids[PairOf(a)] == a.key) {
        SameAsStale(jobs, files, files', ids, a, b);
      } else if !(PairOf(b) in ids && ids[PairOf(b)] == b.key) {
        SameAsStale(jobs, files, files', ids, b, a);
      }
    }
  }

  lemma SameAsStale(jobs: seq<Job>, files: Files, files': Files, ids: map<Pair, string>, a: Row, b: Row)
    requires StoredJobs(jobs) && Syncs(jobs, files, files', ids)
    requires forall job :: job in jobs ==> !Clashes(job, files)
    requires b in Published(files') && PairOf(a) == PairOf(b)
    requires exists job :: job in jobs && StaleDue(job, RowsOf(files, Results)) && a == StaleRow(job, ids)
    ensures a.key == b.key
  {
    var job :| job in jobs && StaleDue(job, RowsOf(files, Results)) && a == StaleRow(job, ids);
    RowOfStaleRun(jobs, files, files', ids, job, b);
    if b in Published(files) {
      FollowedPairIsPublished(jobs, Published(files), ids, b);
      assert false;
    }
  }

  /** After a synchronisation of consistent tables every later one raises, whatever the
      jobs are by then, if and only if a stale result was due whose status was published
      before; in the other cases no later one raises before the tables change. */
  lemma WhenTheNextSyncRaises(jobs: seq<Job>, diagnose: bool, files: Files, later: seq<Job>, diagnose': bool)
    requires ConsistentFiles(files) && StoredJobs(jobs) && StoredJobs(later)
    ensures Synced(jobs, diagnose, files).Some?
    ensures Synced(later, diagnose', Synced(jobs, diagnose, files).value).None? <==>
            exists job :: job in jobs && Clashes(job, files)
  {
    ConsistentFilesSync(jobs, diagnose, files);
    var ids, files' := IdsFor(jobs, files), Synced(jobs, diagnose, files).value;
    ConsistentRowsAreAnchored(files);
    SyncKeepsAnchors(jobs, diagnose, files);
    SyncedTables(later, diagnose', files');
    if job :| job in jobs && Clashes(job, files) {
      ClashRaises(jobs, files, files', ids, job);
    } else {
      NoClashIsFunctional(jobs, files, files', ids);
    }
  }

  // ---------- at concrete ledgers ----------

  const TIMEOUT_ROW := Row("r", "timeout", [])

  /** A retried job that is stored as succeeded and whose `result.json` is still that of
      the timeout before: the worker was interrupted between storing and saving. */
  const RETRIED := Job("r", "succeeded", false, Some(RunResult("timeout", [], [], [], None)))

  lemma PlainR()
    ensures PlainRunId("r") && BaseRunId("r") == "r"
  {
    BaseOfAttemptKey("r", 1);
  }

  /** If the timeout was published, the next synchronisation succeeds and every one after
      it raises. */
  lemma StaleResultBlocksPublication(files: Files, later: seq<Job>, diagnose: bool)
    requires files == map[Results := Table([TIMEOUT_ROW]), Summary := Table([TIMEOUT_ROW])]
    requires StoredJobs(later)
    ensures ConsistentFiles(files) && StoredJobs([RETRIED])
    ensures Synced([RETRIED], false, files).Some?
    ensures Synced(later, diagnose, Synced([RETRIED], false, files).value).None?
  {
    PlainR();
    assert Published(files) == [TIMEOUT_ROW, TIMEOUT_ROW];
    assert Clashes(RETRIED, files) by {
      assert TIMEOUT_ROW in Published(files);
    }
    WhenTheNextSyncRaises([RETRIED], false, files, later, diagnose);
  }

  function Copies(row: Row, n: nat): seq<Row> {
    if n == 0 then [] else Copies(row, n - 1) + [row]
  }

  lemma {:induction false} CopiesAreCopies(row: Row, n: nat)
    ensures |Copies(row, n)| == n && forall r :: r in Copies(row, n) ==> r == row
  {
    if n == 0 {
    } else {
      CopiesAreCopies(row, n - 1);
    }
  }

  /** The files after an operation is done `n` times; `None` once one of them raised. */
  function Repeated(operation: Operation<Document>, files: Files, n: nat): Option<Files> {
    if n == 0 then Some(files)
    else
      match Repeated(operation, files, n - 1)
      case None => None
      case Some(before) => operation(before)
  }

  const SUCCESS_ROW := Row("r", "succeeded", [])

  /** The ledger after `n` synchronisations of an empty one. */
  ghost predicate PiledUp(files: Files, n: nat) {
    && RowsOf(files, Results) == Copies(TIMEOUT_ROW, n)
    && RowsOf(files, Summary) == if n == 0 then [] else [SUCCESS_ROW]
  }

  lemma PiledUpIsAnchored(files: Files, n: nat)
    requires PiledUp(files, n)
    ensures AnchoredRows(Published(files)) && Functional(Published(files)) && StoredJobs([RETRIED])
    ensures PublishedPairs(RowsOf(files, Results)) == if n == 0 then {} else {("r", "timeout")}
  {
    PlainR();
    CopiesAreCopies(TIMEOUT_ROW, n);
    forall row | row in Published(files)
      ensures row.key == "r" && AnchoredKey(Published(files), row.key)
    {
      assert row == TIMEOUT_ROW || row == SUCCESS_ROW;
    }
    if n > 0 {
      assert Copies(TIMEOUT_ROW, n)[0] == TIMEOUT_ROW;
    }
  }

  lemma RetriedKeyIsR(files: Files, n: nat)
    requires PiledUp(files, n) && AnchoredRows(Published(files)) && Functional(Published(files))
    ensures JobPair(RETRIED) in IdsFor([RETRIED], files) && IdsFor([RETRIED], files)[JobPair(RETRIED)] == "r"
  {
    PlainR();
    KeysAreAssigned([RETRIED], RowsOf(files, Results), RowsOf(files, Summary));
    if n == 0 {
      assert Published(files) == [];
      assert AddJobs([RETRIED], EMPTY) == AddJobs([], AddJob(RETRIED, EMPTY));
    } else {
      assert SUCCESS_ROW in Published(files);
    }
  }

  /** The results lack the retried job whatever they hold; the summary lacks it once. */
  lemma PiledUpLacks(n: nat, pairs: set<Pair>, taken: set<string>, ids: map<Pair, string>)
    requires JobPair(RETRIED) in ids && ids[JobPair(RETRIED)] == "r"
    ensures Selected([RETRIED], pairs, taken, ids) ==
            if ("r", "succeeded") in pairs then [] else [Entry(RETRIED, RETRIED.result.value, "r")]
  {
    assert [RETRIED][1..] == [];
  }

  lemma PiledUpAdds(files: Files, n: nat, ids: map<Pair, string>)
    requires PiledUp(files, n) && JobPair(RETRIED) in ids && ids[JobPair(RETRIED)] == "r"
    requires PublishedPairs(RowsOf(files, Results)) == if n == 0 then {} else {("r", "timeout")}
    ensures ResultRows(Lacking([RETRIED], RowsOf(files, Results), ids)) == [TIMEOUT_ROW]
    ensures SummaryRows(Lacking([RETRIED], RowsOf(files, Summary), ids)) == if n == 0 then [SUCCESS_ROW] else []
  {
    var results, summary := RowsOf(files, Results), RowsOf(files, Summary);
    PlainR();
    PiledUpLacks(n, PublishedPairs(results), PublishedKeys(results), ids);
    PiledUpLacks(n, PublishedPairs(summary), PublishedKeys(summary), ids);
    if n > 0 {
      assert SUCCESS_ROW in summary;
      assert PairOf(SUCCESS_ROW) in PublishedPairs(summary);
    }
  }

  lemma PiledUpSyncs(files: Files, diagnose: bool, n: nat)
    requires PiledUp(files, n)
    ensures Synced([RETRIED], diagnose, files).Some? && PiledUp(Synced([RETRIED], diagnose, files).value, n + 1)
  {
    PiledUpIsAnchored(files, n);
    RetriedKeyIsR(files, n);
    SyncedTables([RETRIED], diagnose, files);
    PiledUpAdds(files, n, IdsFor([RETRIED], files));
  }

  /** What an operation keeps, step by step, it keeps over any number of times. */
  lemma {:induction false} RepeatedKeeps(operation: Operation<Document>, files: Files, n: nat,
                                         kept: (Files, nat) -> bool)
    requires kept(files, 0)
    requires forall f, k: nat :: kept(f, k) ==> operation(f).Some? && kept(operation(f).value, k + 1)
    ensures Repeated(operation, files, n).Some? && kept(Repeated(operation, files, n).value, n)
  {
    if n == 0 {
    } else {
      RepeatedKeeps(operation, files, n - 1, kept);
      assert kept(Repeated(operation, files, n - 1).value, n - 1);
    }
  }

  /** If it was not, every synchronisation succeeds and appends the timeout once more. */
  lemma StaleResultIsRepeated(files: Files, diagnose: bool, n: nat)
    requires PiledUp(files, 0)
    ensures Repeated(SyncOperation([RETRIED], diagnose), files, n).Some?
    ensures PiledUp(Repeated(SyncOperation([RETRIED], diagnose), files, n).value, n)
  {
    forall f, k: nat | PiledUp(f, k)
      ensures Synced([RETRIED], diagnose, f).Some? && PiledUp(Synced([RETRIED], diagnose, f).value, k + 1)
    {
      PiledUpSyncs(f, diagnose, k);
    }
    RepeatedKeeps(SyncOperation([RETRIED], diagnose), files, n, (f, k: nat) => PiledUp(f, k));
  }
}
