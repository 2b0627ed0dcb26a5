/** The turns of the activity log, attempt by attempt: a reader that groups the lines by
    run key never sees the turns of two attempts as one run (`token_bench/ledger.py`). */
module LedgerTurns {
  import opened Wrappers
  import opened AttemptKeys
  import opened PublishTransaction
  import opened LedgerSync
  import opened LedgerKeys
  import opened LedgerConsistency
  import opened LedgerHistory

  /** What such a reader finds under one key. */
  function TurnsUnder(lines: seq<(string, seq<string>)>, key: string): seq<seq<string>> {
    if lines == [] then []
    else
      var last := lines[|lines| - 1];
      TurnsUnder(lines[..|lines| - 1], key) + if last.0 == key then [last.1] else []
  }

  lemma {:induction false} TurnsUnderConcat(a: seq<(string, seq<string>)>, b: seq<(string, seq<string>)>, key: string)
    ensures TurnsUnder(a + b, key) == TurnsUnder(a, key) + TurnsUnder(b, key)
  {
    if b == [] {
      assert a + b == a;
    } else {
      assert (a + b)[..|a + b| - 1] == a + b[..|b| - 1];
      TurnsUnderConcat(a, b[..|b| - 1], key);
    }
  }

  lemma {:induction false} TurnsUnderKeyed(k: string, turns: seq<seq<string>>, key: string)
    ensures TurnsUnder(Keyed(k, turns), key) == if k == key then turns else []
  {
    if turns == [] {
    } else {
      var init := turns[..|turns| - 1];
      TurnsUnderKeyed(k, init, key);
      assert Keyed(k, turns)[..|init|] == Keyed(k, init);
      assert init + [turns[|turns| - 1]] == turns;
    }
  }

  lemma {:induction false} NoTurnsUnder(lines: seq<(string, seq<string>)>, key: string)
    requires forall line :: line in lines ==> line.0 != key
    ensures TurnsUnder(lines, key) == []
  {
    if lines == [] {
    } else {
      NoTurnsUnder(lines[..|lines| - 1], key);
    }
  }

  lemma {:induction false} TurnsOfEntries(entries: seq<Entry>, key: string)
    requires forall i, j :: 0 <= i < j < |entries| ==> entries[i].key != entries[j].key
    ensures forall i :: 0 <= i < |entries| && entries[i].key == key ==>
              TurnsUnder(TurnLines(entries), key) == entries[i].result.turns
    ensures (forall i :: 0 <= i < |entries| ==> entries[i].key != key) ==> TurnsUnder(TurnLines(entries), key) == []
  {
    if entries == [] {
    } else {
      var init, last := entries[..|entries| - 1], entries[|entries| - 1];
      TurnsOfEntries(init, key);
      TurnsUnderConcat(TurnLines(init), Keyed(last.key, last.result.turns), key);
      TurnsUnderKeyed(last.key, last.result.turns, key);
      assert forall i :: 0 <= i < |init| ==> init[i] == entries[i];
    }
  }

  /** Jobs of different runs get different keys. */
  lemma EntryKeysDiffer(jobs: seq<Job>, rows: seq<Row>, ids: map<Pair, string>)
    requires StoredJobs(jobs) && CoveringIds(jobs, ids)
    ensures var entries := Lacking(jobs, rows, ids);
            forall i, j :: 0 <= i < j < |entries| ==> entries[i].key != entries[j].key
  {
    LackingAreTheDueJobs(jobs, rows, ids);
    var entries := Lacking(jobs, rows, ids);
    forall i, j | 0 <= i < j < |entries|
      ensures entries[i].key != entries[j].key
    {
      assert BaseRunId(entries[i].key) == entries[i].job.runId && BaseRunId(entries[j].key) == entries[j].job.runId;
    }
  }

  /** A synchronisation appends to each key exactly the turns of the job it publishes under
      it, and leaves every other key the turns it had. */
  lemma TurnsAreAppended(jobs: seq<Job>, diagnose: bool, files: Files)
    requires LedgerInvariant(files) && StoredJobs(jobs) && Synced(jobs, diagnose, files).Some?
    ensures CoveringIds(jobs, IdsFor(jobs, files))
    ensures var before, after := TurnsOf(files), TurnsOf(Synced(jobs, diagnose, files).value);
            var ids, pairs := IdsFor(jobs, files), PublishedPairs(RowsOf(files, Summary));
            && (forall job :: job in jobs && Due(job, pairs) ==>
                  TurnsUnder(after, ids[JobPair(job)]) ==
                  TurnsUnder(before, ids[JobPair(job)]) + job.result.value.turns)
            && (forall key :: (forall job :: job in jobs && Due(job, pairs) ==> ids[JobPair(job)] != key) ==>
                  TurnsUnder(after, key) == TurnsUnder(before, key))
  {
    SyncedTables(jobs, diagnose, files);
    SyncedFiles(jobs, diagnose, files);
    var summary, ids := RowsOf(files, Summary), IdsFor(jobs, files);
    var pairs, entries, before := PublishedPairs(summary), Lacking(jobs, summary, ids), TurnsOf(files);
    LackingAreTheDueJobs(jobs, summary, ids);
    EntryKeysDiffer(jobs, summary, ids);
    forall job | job in jobs && Due(job, pairs)
      ensures TurnsUnder(before + TurnLines(entries), ids[JobPair(job)]) ==
              TurnsUnder(before, ids[JobPair(job)]) + job.result.value.turns
    {
      var key := ids[JobPair(job)];
      var i :| 0 <= i < |entries| && entries[i] == Entry(job, job.result.value, key);
      TurnsUnderConcat(before, TurnLines(entries), key);
      TurnsOfEntries(entries, key);
    }
    forall key | forall job :: job in jobs && Due(job, pairs) ==> ids[JobPair(job)] != key
      ensures TurnsUnder(before + TurnLines(entries), key) == TurnsUnder(before, key)
    {
      TurnsUnderConcat(before, TurnLines(entries), key);
      TurnsOfEntries(entries, key);
    }
  }

  /** When a job's turns are put under a key that the summary has already: exactly when the
      results list the attempt and the summary does not. */
  lemma WhenTurnsAreMixed(jobs: seq<Job>, diagnose: bool, files: Files, job: Job)
    requires LedgerInvariant(files) && StoredJobs(jobs) && Synced(jobs, diagnose, files).Some?
    requires job in jobs && Due(job, PublishedPairs(RowsOf(files, Summary)))
    ensures JobPair(job) in IdsFor(jobs, files)
    ensures IdsFor(jobs, files)[JobPair(job)] in KeysOf(RowsOf(files, Summary)) <==>
            JobPair(job) in PublishedPairs(RowsOf(files, Results))
  {
    SyncedTables(jobs, diagnose, files);
    var results, summary, ids := RowsOf(files, Results), RowsOf(files, Summary), IdsFor(jobs, files);
    if JobPair(job) in PublishedPairs(results) {
      var row :| row in results && row.key != "" && PairOf(row) == JobPair(job);
      assert row in Published(files) && row.key in KeysOf(results);
    } else {
      forall row | row in Published(files)
        ensures PairOf(row) != JobPair(job)
      {
        assert BaseRunId("") == "";
        assert row.key != "";
      }
      assert KeysOf(Published(files)) == KeysOf(results) + KeysOf(summary);
    }
  }

  /** Main result: a synchronisation of consistent tables puts exactly the turns of each new
      attempt under the attempt's own key, and leaves every published attempt the turns it
      had. */
  lemma AttemptsKeepTheirTurns(jobs: seq<Job>, diagnose: bool, files: Files)
    requires LedgerInvariant(files) && ConsistentFiles(files) && StoredJobs(jobs)
    ensures Synced(jobs, diagnose, files).Some?
    ensures var files' := Synced(jobs, diagnose, files).value;
            forall key :: key in KeysOf(RowsOf(files, Summary)) ==>
              TurnsUnder(TurnsOf(files'), key) == TurnsUnder(TurnsOf(files), key)
    ensures var files', ids := Synced(jobs, diagnose, files).value, IdsFor(jobs, files);
            forall job :: job in jobs && Due(job, PublishedPairs(RowsOf(files, Summary))) ==>
              JobPair(job) in ids && TurnsUnder(TurnsOf(files'), ids[JobPair(job)]) == job.result.value.turns
  {
    ConsistentFilesSync(jobs, diagnose, files);
    TurnsAreAppended(jobs, diagnose, files);
    var summary, ids := RowsOf(files, Summary), IdsFor(jobs, files);
    DueIsNewToBoth(jobs, files, ids);
    forall job | job in jobs && Due(job, PublishedPairs(summary))
      ensures TurnsUnder(TurnsOf(files), ids[JobPair(job)]) == [] && ids[JobPair(job)] !in KeysOf(summary)
    {
      NoTurnsUnder(TurnsOf(files), ids[JobPair(job)]);
    }
  }

  lemma DueIsNewToBoth(jobs: seq<Job>, files: Files, ids: map<Pair, string>)
    requires StoredJobs(jobs) && CoveringIds(jobs, ids) && Exact(ids) && Follows(Published(files), ids)
    ensures forall job :: job in jobs && Due(job, PublishedPairs(RowsOf(files, Summary))) ==>
              ids[JobPair(job)] !in KeysOf(RowsOf(files, Summary))
  {
    var summary := RowsOf(files, Summary);
    assert Follows(summary, ids) by {
      assert forall row :: row in summary ==> row in Published(files);
    }
    LackingAreTheDueJobs(jobs, summary, ids);
    DueKeysAreNew(jobs, summary, ids);
  }
}
