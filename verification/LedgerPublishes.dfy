/** Which jobs a synchronisation publishes, and what it writes of them. */
module LedgerPublishes {
  import opened Wrappers
  import opened Sequences
  import opened AttemptKeys
  import opened PublishTransaction
  import opened LedgerSync
  import opened LedgerKeys
  import opened LedgerTurns

  /** A run that ended by itself or by its deadline; its status says so. */
  predicate Finished(status: string) {
    status == "succeeded" || status == "failed" || status == "timeout"
  }

  lemma FinishedIsPublishable(status: string)
    ensures status in PUBLISHABLE_STATUSES <==> Finished(status)
  {
  }

  // ---------- one row for each job that a table lacks ----------

  /** A finished job with a readable result, whose attempt is not listed. */
  function DueIn(pairs: set<Pair>): Job -> bool {
    (job: Job) => Finished(job.status) && job.result.Some? && (job.runId, job.status) !in pairs
  }

  function EntryOf(ids: map<Pair, string>): (Job, Entry) -> bool {
    (job: Job, e: Entry) =>
      && (job.runId, job.status) in ids && job.result.Some?
      && e == Entry(job, job.result.value, ids[(job.runId, job.status)])
  }

  /** A results row shows the status and the cells of the result. */
  function ResultOf(ids: map<Pair, string>): (Job, Row) -> bool {
    (job: Job, row: Row) =>
      && (job.runId, job.status) in ids && job.result.Some?
      && row == Row(ids[(job.runId, job.status)], job.result.value.status, job.result.value.resultCells)
  }

  /** A summary row shows the status of the job. */
  function SummaryOf(ids: map<Pair, string>): (Job, Row) -> bool {
    (job: Job, row: Row) =>
      && (job.runId, job.status) in ids && job.result.Some?
      && row == Row(ids[(job.runId, job.status)], job.status, job.result.value.summaryCells)
  }

  lemma DueMeans(job: Job, pairs: set<Pair>)
    ensures Due(job, pairs) <==> DueIn(pairs)(job)
  {
    FinishedIsPublishable(job.status);
  }

  function KeysTaken(entries: seq<Entry>): set<string> {
    if entries == [] then {} else {entries[0].key} + KeysTaken(entries[1..])
  }

  lemma {:induction false} SelectedOneMore(jobs: seq<Job>, job: Job, pairs: set<Pair>, taken: set<string>,
                                           ids: map<Pair, string>)
    ensures var before := Selected(jobs, pairs, taken, ids);
            Selected(jobs + [job], pairs, taken, ids) ==
            before + if Due(job, pairs)
                     then [Entry(job, job.result.value, KeyFor(job, ids, taken + KeysTaken(before)))] else []
  {
    if jobs == [] {
      assert jobs + [job] == [job] && [job][1..] == [];
      assert taken + {} == taken;
    } else {
      assert (jobs + [job])[1..] == jobs[1..] + [job];
      if Due(jobs[0], pairs) {
        var key := KeyFor(jobs[0], ids, taken);
        var e, rest := Entry(jobs[0], jobs[0].result.value, key), Selected(jobs[1..], pairs, taken + {key}, ids);
        SelectedOneMore(jobs[1..], job, pairs, taken + {key}, ids);
        assert ([e] + rest)[1..] == rest;
        assert taken + KeysTaken([e] + rest) == taken + {key} + KeysTaken(rest);
        Associative([e], rest, if Due(job, pairs)
                               then [Entry(job, job.result.value, KeyFor(job, ids, taken + {key} + KeysTaken(rest)))]
                               else []);
      } else {
        SelectedOneMore(jobs[1..], job, pairs, taken, ids);
      }
    }
  }

  lemma {:induction false} EntriesAreTheDueJobs(jobs: seq<Job>, pairs: set<Pair>, taken: set<string>,
                                                ids: map<Pair, string>)
    requires CoveringIds(jobs, ids)
    ensures Picked(jobs, DueIn(pairs), EntryOf(ids), Selected(jobs, pairs, taken, ids))
  {
    if jobs == [] {
      NothingPicked<Job, Entry>(DueIn(pairs), EntryOf(ids));
    } else {
      var init, last := jobs[..|jobs| - 1], jobs[|jobs| - 1];
      assert init + [last] == jobs;
      EntriesAreTheDueJobs(init, pairs, taken, ids);
      SelectedOneMore(init, last, pairs, taken, ids);
      DueMeans(last, pairs);
      var before := Selected(init, pairs, taken, ids);
      var key := KeyFor(last, ids, taken + KeysTaken(before));
      if Due(last, pairs) {
        DueKeyIsAssigned(jobs, last, ids, taken + KeysTaken(before));
      }
      PickedLast(init, last, DueIn(pairs), EntryOf(ids), before,
                 if Due(last, pairs) then [Entry(last, last.result.value, key)] else []);
    }
  }

  lemma RowsArePicked(jobs: seq<Job>, pairs: set<Pair>, ids: map<Pair, string>, entries: seq<Entry>)
    requires Picked(jobs, DueIn(pairs), EntryOf(ids), entries)
    ensures Picked(jobs, DueIn(pairs), ResultOf(ids), ResultRows(entries))
    ensures Picked(jobs, DueIn(pairs), SummaryOf(ids), SummaryRows(entries))
  {
    var at: seq<nat> :| PickedAt(jobs, DueIn(pairs), EntryOf(ids), entries, at);
    assert PickedAt(jobs, DueIn(pairs), ResultOf(ids), ResultRows(entries), at);
    assert PickedAt(jobs, DueIn(pairs), SummaryOf(ids), SummaryRows(entries), at);
  }

  /** Main result: a synchronisation appends to each table one row for each finished job
      with a readable result whose attempt the table did not list, in the order of the
      jobs, and nothing else; a job of any other status adds no row anywhere. */
  lemma WhatASyncAppends(jobs: seq<Job>, diagnose: bool, files: Files) returns (results: seq<Row>, summary: seq<Row>)
    requires AnchoredRows(Published(files)) && StoredJobs(jobs) && Synced(jobs, diagnose, files).Some?
    ensures var files', ids := Synced(jobs, diagnose, files).value, IdsFor(jobs, files);
            && RowsOf(files', Results) == RowsOf(files, Results) + results
            && RowsOf(files', Summary) == RowsOf(files, Summary) + summary
            && Picked(jobs, DueIn(PublishedPairs(RowsOf(files, Results))), ResultOf(ids), results)
            && Picked(jobs, DueIn(PublishedPairs(RowsOf(files, Summary))), SummaryOf(ids), summary)
  {
    SyncedTables(jobs, diagnose, files);
    var ids := IdsFor(jobs, files);
    var r, s := RowsOf(files, Results), RowsOf(files, Summary);
    EntriesAreTheDueJobs(jobs, PublishedPairs(r), PublishedKeys(r), ids);
    EntriesAreTheDueJobs(jobs, PublishedPairs(s), PublishedKeys(s), ids);
    RowsArePicked(jobs, PublishedPairs(r), ids, Lacking(jobs, r, ids));
    RowsArePicked(jobs, PublishedPairs(s), ids, Lacking(jobs, s, ids));
    results, summary := ResultRows(Lacking(jobs, r, ids)), SummaryRows(Lacking(jobs, s, ids));
  }

  /** The tables list the attempt under this key of the run. */
  ghost predicate ListsAttempt(files: Files, runId: string, status: string, key: string) {
    && BaseRunId(key) == runId
    && (exists row :: row in RowsOf(files, Summary) && row.key == key && row.status == status)
    && (exists row :: row in RowsOf(files, Results) && row.key == key)
  }

  /** Main result: after a synchronisation every succeeded, failed or timed out job with a
      readable result is listed in both tables. */
  lemma FinishedRunsAreListed(jobs: seq<Job>, diagnose: bool, files: Files, job: Job)
    requires AnchoredRows(Published(files)) && StoredJobs(jobs) && Synced(jobs, diagnose, files).Some?
    requires job in jobs && job.result.Some?
    requires job.status == "succeeded" || job.status == "failed" || job.status == "timeout"
    ensures exists key :: ListsAttempt(Synced(jobs, diagnose, files).value, job.runId, job.status, key)
  {
    SyncedTables(jobs, diagnose, files);
    SyncedTablesComplete(jobs, diagnose, files);
    FinishedIsPublishable(job.status);
    var ids, files' := IdsFor(jobs, files), Synced(jobs, diagnose, files).value;
    var key, summary := ids[JobPair(job)], RowsOf(files, Summary);
    NewSummaryRows(jobs, summary, ids);
    if Due(job, PublishedPairs(summary)) {
      assert Row(key, job.status, job.result.value.summaryCells) in RowsOf(files', Summary);
    } else {
      var row :| row in summary && PairOf(row) == JobPair(job);
      assert row in Published(files);
      assert row in RowsOf(files', Summary) && row.key == key && row.status == job.status;
    }
    assert key in KeysOf(RowsOf(files', Results));
    assert ListsAttempt(files', job.runId, job.status, key);
  }

  // ---------- diagnoses ----------

  /** What the manifest has of a key after a run was diagnosed: its report, or nothing. */
  ghost predicate Reports(manifest: map<string, string>, key: string, report: Option<string>) {
    match report
    case Some(text) => key in manifest && manifest[key] == text
    case None => key !in manifest
  }

  ghost predicate SameAt(before: map<string, string>, after: map<string, string>, key: string) {
    (key in after <==> key in before) && (key in after ==> after[key] == before[key])
  }

  lemma ManifestOneMore(files: Files, e: Entry, key: string)
    ensures var after := ManifestOf(WithDiagnosis(files, e));
            if key == e.key then Reports(after, key, e.result.diagnosis) else SameAt(ManifestOf(files), after, key)
  {
  }

  lemma {:induction false} ManifestOfEntries(files: Files, entries: seq<Entry>, diagnose: bool, key: string)
    requires forall i, j :: 0 <= i < j < |entries| ==> entries[i].key != entries[j].key
    ensures var after := ManifestOf(Diagnosed(files, entries, diagnose));
            && (forall i :: 0 <= i < |entries| && entries[i].key == key && diagnose && entries[i].job.hasLog ==>
                  Reports(after, key, entries[i].result.diagnosis))
            && ((forall i :: 0 <= i < |entries| ==> entries[i].key != key || !diagnose || !entries[i].job.hasLog) ==>
                  SameAt(ManifestOf(files), after, key))
  {
    if entries == [] {
    } else {
      var init, last := entries[..|entries| - 1], entries[|entries| - 1];
      ManifestOfEntries(files, init, diagnose, key);
      ManifestOneMore(Diagnosed(files, init, diagnose), last, key);
      assert forall i :: 0 <= i < |init| ==> init[i] == entries[i];
    }
  }

  /** A synchronisation that diagnoses replaces the report of every attempt it adds to the
      summary that left a log, and no other; one that does not leaves all as they were. */
  lemma WhatIsDiagnosed(jobs: seq<Job>, diagnose: bool, files: Files, key: string)
    requires AnchoredRows(Published(files)) && StoredJobs(jobs) && Synced(jobs, diagnose, files).Some?
    ensures CoveringIds(jobs, IdsFor(jobs, files))
    ensures var before, after := ManifestOf(files), ManifestOf(Synced(jobs, diagnose, files).value);
            var ids, pairs := IdsFor(jobs, files), PublishedPairs(RowsOf(files, Summary));
            && (forall job :: job in jobs && Due(job, pairs) && ids[JobPair(job)] == key && diagnose && job.hasLog ==>
                  Reports(after, key, job.result.value.diagnosis))
            && ((forall job :: job in jobs && Due(job, pairs) && ids[JobPair(job)] == key ==>
                   !diagnose || !job.hasLog) ==>
                  SameAt(before, after, key))
  {
    SyncedTables(jobs, diagnose, files);
    var ids, summary := IdsFor(jobs, files), RowsOf(files, Summary);
    var entries := Lacking(jobs, summary, ids);
    LackingAreTheDueJobs(jobs, summary, ids);
    EntryKeysDiffer(jobs, summary, ids);
    ManifestOfEntries(files, entries, diagnose, key);
    ManifestIsDiagnosed(jobs, diagnose, files, ids);
    forall job | job in jobs && Due(job, PublishedPairs(summary)) && ids[JobPair(job)] == key && diagnose && job.hasLog
      ensures Reports(ManifestOf(Diagnosed(files, entries, diagnose)), key, job.result.value.diagnosis)
    {
      var i :| 0 <= i < |entries| && entries[i] == Entry(job, job.result.value, ids[JobPair(job)]);
    }
  }

  lemma ManifestIsDiagnosed(jobs: seq<Job>, diagnose: bool, files: Files, ids: map<Pair, string>)
    ensures ManifestOf(WithResults(jobs, ids, Collected(jobs, ids, diagnose, files))) ==
            ManifestOf(Diagnosed(files, Lacking(jobs, RowsOf(files, Summary), ids), diagnose))
  {
  }
}
