/** The keys under which a synchronisation publishes attempts: what holds of them
    whatever the statuses in the tables and in the results say. */
module LedgerKeys {
  import opened Wrappers
  import opened AttemptKeys
  import opened PublishTransaction
  import opened LedgerSync

  /** The job store's rows: plain run ids, each once. */
  ghost predicate StoredJobs(jobs: seq<Job>) {
    && (forall i :: 0 <= i < |jobs| ==> PlainRunId(jobs[i].runId))
    && (forall i, j :: 0 <= i < j < |jobs| ==> jobs[i].runId != jobs[j].runId)
  }

  ghost function KeysOf(rows: seq<Row>): set<string> {
    set row | row in rows :: row.key
  }

  /** No attempt stands under two keys. */
  ghost predicate Functional(rows: seq<Row>) {
    forall a, b :: a in rows && b in rows && PairOf(a) == PairOf(b) ==> a.key == b.key
  }

  /** Same key exactly when same run and status. */
  ghost predicate OneKeyPerAttempt(rows: seq<Row>) {
    forall a, b :: a in rows && b in rows ==> (a.key == b.key <==> PairOf(a) == PairOf(b))
  }

  ghost predicate PublishableRow(row: Row) {
    PlainRunId(BaseRunId(row.key)) && row.status in PUBLISHABLE_STATUSES
  }

  /** The key stands somewhere beside a publishable status. */
  ghost predicate AnchoredKey(rows: seq<Row>, key: string) {
    exists row :: row in rows && row.key == key && row.status in PUBLISHABLE_STATUSES
  }

  /** Every key is that of a plain run, and anchored. */
  ghost predicate AnchoredRows(rows: seq<Row>) {
    forall row :: row in rows ==> PlainRunId(BaseRunId(row.key)) && AnchoredKey(rows, row.key)
  }

  /** `r`, `r#2` and `r#3`. */
  function AttemptsOf(runId: string): set<string> {
    {AttemptKey(runId, 1), AttemptKey(runId, 2), AttemptKey(runId, 3)}
  }

  ghost predicate WithinThreeRows(rows: seq<Row>) {
    forall row :: row in rows ==> row.key in AttemptsOf(BaseRunId(row.key))
  }

  // ---------- the key table of the published rows ----------

  /** Every row carries the key assigned to its attempt. */
  ghost predicate Follows(rows: seq<Row>, pairs: map<Pair, string>) {
    forall row :: row in rows ==> PairOf(row) in pairs && pairs[PairOf(row)] == row.key
  }

  ghost predicate OnlyFrom(pairs: map<Pair, string>, rows: seq<Row>) {
    forall p :: p in pairs ==> exists row :: row in rows && PairOf(row) == p && row.key == pairs[p]
  }

  /** The table lists just these rows. */
  ghost predicate Lists(t: KeyTable, rows: seq<Row>) {
    Follows(rows, t.pairs) && OnlyFrom(t.pairs, rows) && t.keys == KeysOf(rows)
  }

  const EMPTY := KeyTable(map[], {})

  lemma ListsOneMore(t: KeyTable, done: seq<Row>, row: Row)
    requires Lists(t, done) && (PairOf(row) in t.pairs ==> t.pairs[PairOf(row)] == row.key)
    ensures Lists(KeyTable(t.pairs[PairOf(row) := row.key], t.keys + {row.key}), done + [row])
  {
    var pairs := t.pairs[PairOf(row) := row.key];
    forall p | p in pairs
      ensures exists r :: r in done + [row] && PairOf(r) == p && r.key == pairs[p]
    {
      if p == PairOf(row) {
        assert row in done + [row];
      } else {
        var r :| r in done && PairOf(r) == p && r.key == t.pairs[p];
        assert r in done + [row];
      }
    }
  }

  lemma {:induction false} AddRowsLists(rows: seq<Row>, t: KeyTable, done: seq<Row>)
    requires Lists(t, done)
    ensures AddRows(rows, t).Ok? <==> Functional(done + rows)
    ensures AddRows(rows, t).Ok? ==> Lists(AddRows(rows, t).value, done + rows)
  {
    if rows == [] {
      assert done + rows == done;
    } else {
      var row := rows[0];
      assert done + [row] + rows[1..] == done + rows;
      if PairOf(row) in t.pairs && t.pairs[PairOf(row)] != row.key {
        var earlier :| earlier in done && PairOf(earlier) == PairOf(row) && earlier.key == t.pairs[PairOf(row)];
        assert earlier in done + rows && row in done + rows;
      } else {
        ListsOneMore(t, done, row);
        AddRowsLists(rows[1..], KeyTable(t.pairs[PairOf(row) := row.key], t.keys + {row.key}), done + [row]);
      }
    }
  }

  /** Registering the published rows raises exactly when an attempt stands under two keys. */
  lemma RowsAreListed(rows: seq<Row>)
    ensures AddRows(rows, EMPTY).Ok? <==> Functional(rows)
    ensures AddRows(rows, EMPTY).Ok? ==> Lists(AddRows(rows, EMPTY).value, rows)
  {
    AddRowsLists(rows, EMPTY, []);
    assert [] + rows == rows;
  }

  // ---------- fresh keys ----------

  ghost predicate AnchoredIn(pairs: map<Pair, string>, key: string) {
    exists p :: p in pairs && pairs[p] == key && p.1 in PUBLISHABLE_STATUSES
  }

  /** Every key belongs to a plain run and to a publishable attempt of it. */
  ghost predicate Anchored(t: KeyTable) {
    && (forall p :: p in t.pairs ==> t.pairs[p] in t.keys && p.0 == BaseRunId(t.pairs[p]) && PlainRunId(p.0))
    && (forall k :: k in t.keys ==> AnchoredIn(t.pairs, k))
  }

  /** An injective assignment of keys to publishable attempts. */
  ghost predicate Exact(pairs: map<Pair, string>) {
    && (forall p, q :: p in pairs && q in pairs && pairs[p] == pairs[q] ==> p == q)
    && (forall p :: p in pairs ==> p.1 in PUBLISHABLE_STATUSES)
  }

  ghost predicate WithinThree(pairs: map<Pair, string>) {
    forall p :: p in pairs ==> pairs[p] in AttemptsOf(p.0)
  }

  lemma StatusUnder(t: KeyTable, runId: string, attempt: nat) returns (status: string)
    requires Anchored(t) && PlainRunId(runId) && AttemptKey(runId, attempt) in t.keys
    ensures (runId, status) in t.pairs && t.pairs[(runId, status)] == AttemptKey(runId, attempt)
    ensures status in PUBLISHABLE_STATUSES
  {
    var p :| p in t.pairs && t.pairs[p] == AttemptKey(runId, attempt) && p.1 in PUBLISHABLE_STATUSES;
    BaseOfAttemptKey(runId, attempt);
    assert p == (runId, p.1);
    status := p.1;
  }

  lemma ThreeAttemptsDiffer(runId: string)
    ensures AttemptKey(runId, 1) != AttemptKey(runId, 2)
    ensures AttemptKey(runId, 1) != AttemptKey(runId, 3)
    ensures AttemptKey(runId, 2) != AttemptKey(runId, 3)
  {
    assert Decimal(2) == "2" && Decimal(3) == "3";
    assert AttemptKey(runId, 2)[|runId| + 1] == '2' && AttemptKey(runId, 3)[|runId| + 1] == '3';
  }

  lemma ThreeStatuses(a: string, b: string, c: string, d: string)
    requires {a, b, c, d} <= PUBLISHABLE_STATUSES
    ensures a == b || a == c || b == c || d in {a, b, c}
  {
  }

  /** If the first three attempts are all taken, so is every publishable status. */
  lemma ThreeTakenAreAll(t: KeyTable, runId: string, status: string)
    requires Anchored(t) && PlainRunId(runId) && status in PUBLISHABLE_STATUSES
    requires AttemptsOf(runId) <= t.keys
    ensures (runId, status) in t.pairs
  {
    assert AttemptKey(runId, 1) in t.keys && AttemptKey(runId, 2) in t.keys && AttemptKey(runId, 3) in t.keys;
    var s1 := StatusUnder(t, runId, 1);
    var s2 := StatusUnder(t, runId, 2);
    var s3 := StatusUnder(t, runId, 3);
    ThreeAttemptsDiffer(runId);
    ThreeStatuses(s1, s2, s3, status);
  }

  /** The least free key of a run with an unpublished status is one of three:
      the other publishable statuses take at most two. */
  lemma FreshKeyIsAmongThree(t: KeyTable, job: Job)
    requires Anchored(t) && PlainRunId(job.runId)
    requires job.status in PUBLISHABLE_STATUSES && JobPair(job) !in t.pairs
    ensures var key := FreshKey(job.runId, t.keys, 1);
            && key !in t.keys && BaseRunId(key) == job.runId
            && key in AttemptsOf(job.runId)
  {
    var k := FreshKeyIsLeast(job.runId, t.keys, 1);
    BaseOfAttemptKey(job.runId, k);
    if k > 3 {
      assert AttemptsOf(job.runId) <= t.keys;
      ThreeTakenAreAll(t, job.runId, job.status);
    }
  }

  /** The later table knows all the earlier one knew. */
  ghost predicate Extends(t: KeyTable, t': KeyTable) {
    && Anchored(t')
    && (forall p :: p in t.pairs ==> p in t'.pairs && t'.pairs[p] == t.pairs[p])
    && (WithinThree(t.pairs) ==> WithinThree(t'.pairs))
    && (Exact(t.pairs) ==> Exact(t'.pairs))
    && t.keys <= t'.keys
    && (forall p :: p in t'.pairs && p !in t.pairs ==> t'.pairs[p] !in t.keys)
  }

  lemma AnchorGrows(pairs: map<Pair, string>, pair: Pair, key: string, k: string)
    requires pair !in pairs && pair.1 in PUBLISHABLE_STATUSES && (k == key || AnchoredIn(pairs, k))
    ensures AnchoredIn(pairs[pair := key], k)
  {
    var pairs' := pairs[pair := key];
    if k == key {
      assert pairs'[pair] == k;
    } else {
      var p :| p in pairs && pairs[p] == k && p.1 in PUBLISHABLE_STATUSES;
      assert pairs'[p] == k;
    }
  }

  lemma PairsOwnTheirKeys(t: KeyTable, pair: Pair, key: string)
    requires Anchored(t) && pair.0 == BaseRunId(key) && PlainRunId(pair.0)
    ensures var pairs := t.pairs[pair := key];
            forall p :: p in pairs ==> pairs[p] in t.keys + {key} && p.0 == BaseRunId(pairs[p]) && PlainRunId(p.0)
  {
  }

  lemma AnchorsGrow(t: KeyTable, pair: Pair, key: string)
    requires Anchored(t) && pair !in t.pairs && pair.1 in PUBLISHABLE_STATUSES
    requires pair.0 == BaseRunId(key) && PlainRunId(pair.0)
    ensures Anchored(KeyTable(t.pairs[pair := key], t.keys + {key}))
  {
    PairsOwnTheirKeys(t, pair, key);
    forall k | k in t.keys + {key}
      ensures AnchoredIn(t.pairs[pair := key], k)
    {
      AnchorGrows(t.pairs, pair, key, k);
    }
  }

  lemma ExactGrows(t: KeyTable, pair: Pair, key: string)
    requires Anchored(t) && pair.1 in PUBLISHABLE_STATUSES && key !in t.keys
    ensures Exact(t.pairs) ==> Exact(t.pairs[pair := key])
  {
    var pairs' := t.pairs[pair := key];
    forall p, q | Exact(t.pairs) && p in pairs' && q in pairs' && pairs'[p] == pairs'[q]
      ensures p == q
    {
      assert p != pair ==> t.pairs[p] in t.keys;
      assert q != pair ==> t.pairs[q] in t.keys;
    }
  }

  lemma WithinThreeGrows(pairs: map<Pair, string>, pair: Pair, key: string)
    requires key in AttemptsOf(pair.0)
    ensures WithinThree(pairs) ==> WithinThree(pairs[pair := key])
  {
  }

  lemma OnlyPairIsNew(pairs: map<Pair, string>, pair: Pair, key: string)
    requires pair !in pairs
    ensures forall p :: p in pairs ==> p in pairs[pair := key] && pairs[pair := key][p] == pairs[p]
    ensures forall p :: p in pairs[pair := key] && p !in pairs ==> pairs[pair := key][p] == key
  {
  }

  lemma NewPairExtends(t: KeyTable, pair: Pair, key: string)
    requires Anchored(t) && pair !in t.pairs && pair.1 in PUBLISHABLE_STATUSES
    requires pair.0 == BaseRunId(key) && PlainRunId(pair.0) && key !in t.keys && key in AttemptsOf(pair.0)
    ensures Extends(t, KeyTable(t.pairs[pair := key], t.keys + {key}))
  {
    AnchorsGrow(t, pair, key);
    ExactGrows(t, pair, key);
    WithinThreeGrows(t.pairs, pair, key);
    OnlyPairIsNew(t.pairs, pair, key);
  }

  lemma AddJobExtends(job: Job, t: KeyTable)
    requires Anchored(t) && PlainRunId(job.runId)
    ensures Extends(t, AddJob(job, t))
    ensures job.status in PUBLISHABLE_STATUSES ==> JobPair(job) in AddJob(job, t).pairs
  {
    if job.status in PUBLISHABLE_STATUSES && JobPair(job) !in t.pairs {
      FreshKeyIsAmongThree(t, job);
      NewPairExtends(t, JobPair(job), FreshKey(job.runId, t.keys, 1));
    }
  }

  lemma {:induction false} AddJobsExtends(jobs: seq<Job>, t: KeyTable)
    requires Anchored(t)
    requires forall job :: job in jobs ==> PlainRunId(job.runId)
    ensures Extends(t, AddJobs(jobs, t))
    ensures forall job :: job in jobs && job.status in PUBLISHABLE_STATUSES ==> JobPair(job) in AddJobs(jobs, t).pairs
  {
    if jobs == [] {
    } else {
      AddJobExtends(jobs[0], t);
      AddJobsExtends(jobs[1..], AddJob(jobs[0], t));
    }
  }

  // ---------- the keys a synchronisation hands out ----------

  /** Keys of their own runs, one for every finished job. */
  ghost predicate CoveringIds(jobs: seq<Job>, ids: map<Pair, string>) {
    && (forall p :: p in ids ==> p.0 == BaseRunId(ids[p]) && PlainRunId(p.0))
    && (forall job :: job in jobs && job.status in PUBLISHABLE_STATUSES ==> JobPair(job) in ids)
  }

  lemma ListedRowsAreAnchored(rows: seq<Row>, t: KeyTable)
    requires Lists(t, rows) && AnchoredRows(rows)
    ensures Anchored(t)
    ensures WithinThreeRows(rows) ==> WithinThree(t.pairs)
  {
    forall k | k in t.keys
      ensures AnchoredIn(t.pairs, k)
    {
      var row :| row in rows && row.key == k;
      var anchor :| anchor in rows && anchor.key == k && anchor.status in PUBLISHABLE_STATUSES;
      assert PairOf(anchor) in t.pairs;
    }
  }

  lemma ListedRowsAreExact(rows: seq<Row>, t: KeyTable)
    requires Lists(t, rows) && OneKeyPerAttempt(rows)
    requires forall row :: row in rows ==> PublishableRow(row)
    ensures Exact(t.pairs)
  {
    forall p, q | p in t.pairs && q in t.pairs && t.pairs[p] == t.pairs[q]
      ensures p == q
    {
      var a :| a in rows && PairOf(a) == p && a.key == t.pairs[p];
      var b :| b in rows && PairOf(b) == q && b.key == t.pairs[q];
    }
  }

  /** An attempt that no row has gets a key that no row has. */
  ghost predicate NewPairsHaveNewKeys(ids: map<Pair, string>, rows: seq<Row>) {
    forall p :: p in ids && (forall row :: row in rows ==> PairOf(row) != p) ==> ids[p] !in KeysOf(rows)
  }

  lemma ListedKeys(rows: seq<Row>, t: KeyTable, t': KeyTable)
    requires Lists(t, rows) && Extends(t, t')
    ensures NewPairsHaveNewKeys(t'.pairs, rows)
  {
  }

  /** The assignment fails exactly when an attempt stands under two keys; otherwise it
      keeps every published key and covers every finished job. */
  lemma KeysAreAssigned(jobs: seq<Job>, results: seq<Row>, summary: seq<Row>)
    requires AnchoredRows(results + summary) && StoredJobs(jobs)
    ensures AssignKeys(jobs, results, summary).Ok? <==> Functional(results + summary)
    ensures AssignKeys(jobs, results, summary).Ok? ==>
              var ids := AssignKeys(jobs, results, summary).value;
              && Follows(results + summary, ids) && CoveringIds(jobs, ids)
              && (WithinThreeRows(results + summary) ==> WithinThree(ids))
              && NewPairsHaveNewKeys(ids, results + summary)
  {
    var rows := results + summary;
    RowsAreListed(rows);
    if Functional(rows) {
      var t := AddRows(rows, EMPTY).value;
      ListedRowsAreAnchored(rows, t);
      AddJobsExtends(jobs, t);
      assert CoveringIds(jobs, AddJobs(jobs, t).pairs);
      ListedKeys(rows, t, AddJobs(jobs, t));
    }
  }

  /** The assignment is injective when the published keys are. */
  lemma AssignmentIsExact(jobs: seq<Job>, results: seq<Row>, summary: seq<Row>)
    requires StoredJobs(jobs) && OneKeyPerAttempt(results + summary)
    requires forall row :: row in results + summary ==> PublishableRow(row)
    ensures AssignKeys(jobs, results, summary).Ok? && Exact(AssignKeys(jobs, results, summary).value)
  {
    var rows := results + summary;
    RowsAreListed(rows);
    var t := AddRows(rows, EMPTY).value;
    ListedRowsAreAnchored(rows, t);
    ListedRowsAreExact(rows, t);
    AddJobsExtends(jobs, t);
  }

  // ---------- which rows are appended ----------

  /** Exactly the due jobs, each once and under its assigned key. */
  ghost predicate DueEntries(jobs: seq<Job>, pairs: set<Pair>, ids: map<Pair, string>, entries: seq<Entry>)
    requires CoveringIds(jobs, ids)
  {
    && (forall i :: 0 <= i < |entries| ==>
          && entries[i].job in jobs && Due(entries[i].job, pairs)
          && entries[i] == Entry(entries[i].job, entries[i].job.result.value, ids[JobPair(entries[i].job)]))
    && (forall job :: job in jobs && Due(job, pairs) ==>
          Entry(job, job.result.value, ids[JobPair(job)]) in entries)
    && (forall i, j :: 0 <= i < j < |entries| ==> entries[i].job.runId != entries[j].job.runId)
  }

  lemma DueKeyIsAssigned(jobs: seq<Job>, job: Job, ids: map<Pair, string>, taken: set<string>)
    requires CoveringIds(jobs, ids) && job in jobs && job.status in PUBLISHABLE_STATUSES
    ensures KeyFor(job, ids, taken) == ids[JobPair(job)]
  {
    assert BaseRunId("") == "";
  }

  lemma DueEntriesFirst(job: Job, rest: seq<Job>, pairs: set<Pair>, ids: map<Pair, string>, entries: seq<Entry>)
    requires CoveringIds([job] + rest, ids) && CoveringIds(rest, ids) && Due(job, pairs)
    requires DueEntries(rest, pairs, ids, entries)
    requires forall other :: other in rest ==> other.runId != job.runId
    ensures DueEntries([job] + rest, pairs, ids,
                       [Entry(job, job.result.value, ids[JobPair(job)])] + entries)
  {
  }

  lemma DueEntriesSkip(job: Job, rest: seq<Job>, pairs: set<Pair>, ids: map<Pair, string>, entries: seq<Entry>)
    requires CoveringIds([job] + rest, ids) && CoveringIds(rest, ids) && !Due(job, pairs)
    requires DueEntries(rest, pairs, ids, entries)
    ensures DueEntries([job] + rest, pairs, ids, entries)
  {
  }

  lemma {:induction false} SelectedAreTheDueJobs(jobs: seq<Job>, pairs: set<Pair>, taken: set<string>,
                                                 ids: map<Pair, string>)
    requires StoredJobs(jobs) && CoveringIds(jobs, ids)
    ensures DueEntries(jobs, pairs, ids, Selected(jobs, pairs, taken, ids))
  {
    if jobs == [] {
    } else {
      var job, rest := jobs[0], jobs[1..];
      assert jobs == [job] + rest;
      if Due(job, pairs) {
        DueKeyIsAssigned(jobs, job, ids, taken);
        SelectedAreTheDueJobs(rest, pairs, taken + {ids[JobPair(job)]}, ids);
        DueEntriesFirst(job, rest, pairs, ids, Selected(rest, pairs, taken + {ids[JobPair(job)]}, ids));
      } else {
        SelectedAreTheDueJobs(rest, pairs, taken, ids);
        DueEntriesSkip(job, rest, pairs, ids, Selected(rest, pairs, taken, ids));
      }
    }
  }

  lemma LackingAreTheDueJobs(jobs: seq<Job>, rows: seq<Row>, ids: map<Pair, string>)
    requires StoredJobs(jobs) && CoveringIds(jobs, ids)
    ensures DueEntries(jobs, PublishedPairs(rows), ids, Lacking(jobs, rows, ids))
  {
    SelectedAreTheDueJobs(jobs, PublishedPairs(rows), PublishedKeys(rows), ids);
  }

  /** The two tables after a synchronisation that did not raise. */
  ghost function ResultsAfter(jobs: seq<Job>, results: seq<Row>, ids: map<Pair, string>): seq<Row> {
    results + ResultRows(Lacking(jobs, results, ids))
  }

  ghost function SummaryAfter(jobs: seq<Job>, summary: seq<Row>, ids: map<Pair, string>): seq<Row> {
    summary + SummaryRows(Lacking(jobs, summary, ids))
  }

  /** New results rows show the status of `result.json`. */
  lemma NewResultRows(jobs: seq<Job>, results: seq<Row>, ids: map<Pair, string>)
    requires StoredJobs(jobs) && CoveringIds(jobs, ids)
    ensures forall row :: row in ResultsAfter(jobs, results, ids) && row !in results ==>
              exists job :: job in jobs && Due(job, PublishedPairs(results))
                            && row == Row(ids[JobPair(job)], job.result.value.status, job.result.value.resultCells)
    ensures forall job :: job in jobs && Due(job, PublishedPairs(results)) ==>
              Row(ids[JobPair(job)], job.result.value.status, job.result.value.resultCells)
              in ResultsAfter(jobs, results, ids)
  {
    var entries := Lacking(jobs, results, ids);
    var added := ResultRows(entries);
    LackingAreTheDueJobs(jobs, results, ids);
    forall row | row in results + added && row !in results
      ensures exists job :: job in jobs && Due(job, PublishedPairs(results))
                            && row == Row(ids[JobPair(job)], job.result.value.status, job.result.value.resultCells)
    {
      var i :| 0 <= i < |added| && added[i] == row;
      assert entries[i].job in jobs;
    }
    forall job | job in jobs && Due(job, PublishedPairs(results))
      ensures Row(ids[JobPair(job)], job.result.value.status, job.result.value.resultCells) in results + added
    {
      var i :| 0 <= i < |entries| && entries[i] == Entry(job, job.result.value, ids[JobPair(job)]);
      assert added[i] in added;
    }
  }

  /** New summary rows show the job's status. */
  lemma NewSummaryRows(jobs: seq<Job>, summary: seq<Row>, ids: map<Pair, string>)
    requires StoredJobs(jobs) && CoveringIds(jobs, ids)
    ensures forall row :: row in SummaryAfter(jobs, summary, ids) && row !in summary ==>
              exists job :: job in jobs && Due(job, PublishedPairs(summary))
                            && row == Row(ids[JobPair(job)], job.status, job.result.value.summaryCells)
    ensures forall job :: job in jobs && Due(job, PublishedPairs(summary)) ==>
              Row(ids[JobPair(job)], job.status, job.result.value.summaryCells) in SummaryAfter(jobs, summary, ids)
  {
    var entries := Lacking(jobs, summary, ids);
    var added := SummaryRows(entries);
    LackingAreTheDueJobs(jobs, summary, ids);
    forall row | row in summary + added && row !in summary
      ensures exists job :: job in jobs && Due(job, PublishedPairs(summary))
                            && row == Row(ids[JobPair(job)], job.status, job.result.value.summaryCells)
    {
      var i :| 0 <= i < |added| && added[i] == row;
      assert entries[i].job in jobs;
    }
    forall job | job in jobs && Due(job, PublishedPairs(summary))
      ensures Row(ids[JobPair(job)], job.status, job.result.value.summaryCells) in summary + added
    {
      var i :| 0 <= i < |entries| && entries[i] == Entry(job, job.result.value, ids[JobPair(job)]);
      assert added[i] in added;
    }
  }

  /** A table after its missing rows were appended. */
  ghost predicate Completes(jobs: seq<Job>, rows: seq<Row>, rows': seq<Row>, ids: map<Pair, string>)
    requires CoveringIds(jobs, ids)
  {
    && rows <= rows'
    && (forall row :: row in rows' && row !in rows ==>
          exists job :: job in jobs && Due(job, PublishedPairs(rows)) && row.key == ids[JobPair(job)])
    && (forall job :: job in jobs && Readable(job) ==> ids[JobPair(job)] in KeysOf(rows'))
  }

  /** Appending one row per due job completes a table, whichever statuses the new
      rows show. */
  lemma AppendingCompletes(jobs: seq<Job>, rows: seq<Row>, added: seq<Row>, ids: map<Pair, string>)
    requires StoredJobs(jobs) && CoveringIds(jobs, ids) && Follows(rows, ids)
    requires var entries := Lacking(jobs, rows, ids);
             |added| == |entries| && forall i :: 0 <= i < |added| ==> added[i].key == entries[i].key
    ensures Completes(jobs, rows, rows + added, ids)
  {
    var entries := Lacking(jobs, rows, ids);
    LackingAreTheDueJobs(jobs, rows, ids);
    forall row | row in rows + added && row !in rows
      ensures exists job :: job in jobs && Due(job, PublishedPairs(rows)) && row.key == ids[JobPair(job)]
    {
      var i :| 0 <= i < |added| && added[i] == row;
      assert entries[i].job in jobs;
    }
    forall job | job in jobs && Readable(job)
      ensures ids[JobPair(job)] in KeysOf(rows + added)
    {
      if Due(job, PublishedPairs(rows)) {
        var i :| 0 <= i < |entries| && entries[i] == Entry(job, job.result.value, ids[JobPair(job)]);
        assert added[i] in rows + added;
      } else {
        var row :| row in rows && PairOf(row) == JobPair(job);
        assert row in rows + added;
      }
    }
  }

  lemma SyncedRows(jobs: seq<Job>, diagnose: bool, files: Files, ids: map<Pair, string>)
    ensures var files' := WithResults(jobs, ids, Collected(jobs, ids, diagnose, files));
            && RowsOf(files', Results) == ResultsAfter(jobs, RowsOf(files, Results), ids)
            && RowsOf(files', Summary) == SummaryAfter(jobs, RowsOf(files, Summary), ids)
  {
    var collected := Collected(jobs, ids, diagnose, files);
    DiagnosedTouchesOnlyDiagnostics(files, Lacking(jobs, RowsOf(files, Summary), ids), diagnose);
    assert RowsOf(collected, Results) == RowsOf(files, Results);
    assert RowsOf(collected, Summary) == SummaryAfter(jobs, RowsOf(files, Summary), ids);
  }

  /** The published rows, as the key assignment reads them. */
  ghost function Published(files: Files): seq<Row> {
    RowsOf(files, Results) + RowsOf(files, Summary)
  }

  /** The assignment of a synchronisation that does not raise. */
  ghost function IdsFor(jobs: seq<Job>, files: Files): map<Pair, string> {
    match AssignKeys(jobs, RowsOf(files, Results), RowsOf(files, Summary))
    case Ok(ids) => ids
    case Err(_) => map[]
  }

  lemma SyncedTables(jobs: seq<Job>, diagnose: bool, files: Files)
    requires AnchoredRows(Published(files)) && StoredJobs(jobs)
    ensures Synced(jobs, diagnose, files).Some? <==> Functional(Published(files))
    ensures Synced(jobs, diagnose, files).Some? ==>
              var ids, files' := IdsFor(jobs, files), Synced(jobs, diagnose, files).value;
              && CoveringIds(jobs, ids) && Follows(Published(files), ids)
              && NewPairsHaveNewKeys(ids, Published(files))
              && RowsOf(files', Results) == ResultsAfter(jobs, RowsOf(files, Results), ids)
              && RowsOf(files', Summary) == SummaryAfter(jobs, RowsOf(files, Summary), ids)
  {
    KeysAreAssigned(jobs, RowsOf(files, Results), RowsOf(files, Summary));
    SyncedRows(jobs, diagnose, files, IdsFor(jobs, files));
  }

  /** The keys a synchronisation can supply: one for every readable finished job,
      the one it already has if either table has it. */
  ghost function SuppliedKeys(jobs: seq<Job>, ids: map<Pair, string>): set<string> {
    set job | job in jobs && Readable(job) && JobPair(job) in ids :: ids[JobPair(job)]
  }

  lemma CompletedKeys(jobs: seq<Job>, rows: seq<Row>, rows': seq<Row>, ids: map<Pair, string>)
    requires CoveringIds(jobs, ids) && Completes(jobs, rows, rows', ids)
    ensures KeysOf(rows') == KeysOf(rows) + SuppliedKeys(jobs, ids)
  {
    forall k | k in KeysOf(rows')
      ensures k in KeysOf(rows) + SuppliedKeys(jobs, ids)
    {
      var row :| row in rows' && row.key == k;
      if row !in rows {
        var job :| job in jobs && Due(job, PublishedPairs(rows)) && row.key == ids[JobPair(job)];
        assert Readable(job);
      }
    }
    forall k | k in KeysOf(rows)
      ensures k in KeysOf(rows')
    {
      var row :| row in rows && row.key == k;
      assert row in rows';
    }
  }

  lemma SyncedTablesComplete(jobs: seq<Job>, diagnose: bool, files: Files)
    requires AnchoredRows(Published(files)) && StoredJobs(jobs) && Synced(jobs, diagnose, files).Some?
    ensures var ids, files' := IdsFor(jobs, files), Synced(jobs, diagnose, files).value;
            && CoveringIds(jobs, ids)
            && Completes(jobs, RowsOf(files, Results), RowsOf(files', Results), ids)
            && Completes(jobs, RowsOf(files, Summary), RowsOf(files', Summary), ids)
  {
    SyncedTables(jobs, diagnose, files);
    var results, summary, ids := RowsOf(files, Results), RowsOf(files, Summary), IdsFor(jobs, files);
    AppendingCompletes(jobs, results, ResultRows(Lacking(jobs, results, ids)), ids);
    AppendingCompletes(jobs, summary, SummaryRows(Lacking(jobs, summary, ids)), ids);
  }

  /** Both tables gain exactly the supplied keys.  So afterwards they list the same
      keys exactly when every key that one table lacked was supplied. */
  lemma SyncCompletesTables(jobs: seq<Job>, diagnose: bool, files: Files)
    requires AnchoredRows(Published(files)) && StoredJobs(jobs) && Synced(jobs, diagnose, files).Some?
    ensures var files' := Synced(jobs, diagnose, files).value;
            var r, s := KeysOf(RowsOf(files, Results)), KeysOf(RowsOf(files, Summary));
            var supplied := SuppliedKeys(jobs, IdsFor(jobs, files));
            && KeysOf(RowsOf(files', Results)) == r + supplied
            && KeysOf(RowsOf(files', Summary)) == s + supplied
            && (KeysOf(RowsOf(files', Results)) == KeysOf(RowsOf(files', Summary))
                <==> (r - s) + (s - r) <= supplied)
    ensures Follows(Published(files), IdsFor(jobs, files))
  {
    SyncedTables(jobs, diagnose, files);
    SyncedTablesComplete(jobs, diagnose, files);
    var ids, files' := IdsFor(jobs, files), Synced(jobs, diagnose, files).value;
    CompletedKeys(jobs, RowsOf(files, Results), RowsOf(files', Results), ids);
    CompletedKeys(jobs, RowsOf(files, Summary), RowsOf(files', Summary), ids);
  }

  // ---------- what every synchronisation keeps ----------

  /** Where a new row's key comes from: an old row, or a due job whose summary row is
      new as well. */
  lemma NewKeyIsAnchored(jobs: seq<Job>, files: Files, ids: map<Pair, string>, job: Job)
    requires StoredJobs(jobs) && CoveringIds(jobs, ids) && Follows(Published(files), ids)
    requires job in jobs && Readable(job)
    ensures AnchoredKey(Published(files) + SummaryAfter(jobs, RowsOf(files, Summary), ids), ids[JobPair(job)])
  {
    var summary := RowsOf(files, Summary);
    NewSummaryRows(jobs, summary, ids);
    if Due(job, PublishedPairs(summary)) {
      var anchor := Row(ids[JobPair(job)], job.status, job.result.value.summaryCells);
      assert anchor in SummaryAfter(jobs, summary, ids);
    } else {
      var anchor :| anchor in summary && PairOf(anchor) == JobPair(job);
      assert anchor in Published(files);
    }
  }

  /** New rows may show any status, but their keys stay anchored. */
  lemma SyncKeepsAnchors(jobs: seq<Job>, diagnose: bool, files: Files)
    requires AnchoredRows(Published(files)) && StoredJobs(jobs) && Synced(jobs, diagnose, files).Some?
    ensures AnchoredRows(Published(Synced(jobs, diagnose, files).value))
  {
    SyncedTables(jobs, diagnose, files);
    SyncedTablesComplete(jobs, diagnose, files);
    var ids, all, all' := IdsFor(jobs, files), Published(files), Published(Synced(jobs, diagnose, files).value);
    forall row | row in all'
      ensures PlainRunId(BaseRunId(row.key)) && AnchoredKey(all', row.key)
    {
      if row in all {
        AnchorStands(all, all', row.key);
      } else {
        var job :| job in jobs && Readable(job) && row.key == ids[JobPair(job)];
        NewKeyIsAnchored(jobs, files, ids, job);
        AnchorStands(all + SummaryAfter(jobs, RowsOf(files, Summary), ids), all', row.key);
      }
    }
  }

  lemma AnchorStands(rows: seq<Row>, rows': seq<Row>, key: string)
    requires AnchoredKey(rows, key) && forall row :: row in rows ==> row in rows'
    ensures AnchoredKey(rows', key)
  {
  }

  /** A run id is only ever published under `r`, `r#2` and `r#3`. */
  lemma SyncStaysWithinThree(jobs: seq<Job>, diagnose: bool, files: Files)
    requires AnchoredRows(Published(files)) && StoredJobs(jobs) && Synced(jobs, diagnose, files).Some?
    requires WithinThreeRows(Published(files))
    ensures WithinThreeRows(Published(Synced(jobs, diagnose, files).value))
  {
    SyncedTables(jobs, diagnose, files);
    SyncedTablesComplete(jobs, diagnose, files);
    KeysAreAssigned(jobs, RowsOf(files, Results), RowsOf(files, Summary));
    var ids := IdsFor(jobs, files);
    forall row: Row | row in Published(Synced(jobs, diagnose, files).value)
      ensures row.key in AttemptsOf(BaseRunId(row.key))
    {
      if row !in Published(files) {
        var job :| job in jobs && Readable(job) && row.key == ids[JobPair(job)];
        assert JobPair(job) in ids;
      }
    }
  }
}
