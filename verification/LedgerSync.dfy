/** Synchronisation of the published tables with the finished jobs
    (`token_bench/ledger.py`: `sync_published` and what it calls).

    A row is modelled by the two columns the code reads back, the key and the
    status, and by its other cells, which are copied.
 */
module LedgerSync {
  import opened Wrappers
  import opened AttemptKeys
  import opened PublishTransaction

  const PUBLISHABLE_STATUSES: set<string> := {"succeeded", "failed", "timeout"}

  /** `status` stands for the column `status` or `terminal_reason`. */
  datatype Row = Row(key: string, status: string, cells: seq<string>)

  type Pair = (string, string)

  function PairOf(row: Row): Pair {
    (BaseRunId(row.key), row.status)
  }

  /** A readable `result.json`, with the cells the run contributes to each file. */
  datatype RunResult = RunResult(status: string, resultCells: seq<string>, summaryCells: seq<string>,
                                 turns: seq<seq<string>>, diagnosis: Option<string>)

  /** A job; `result` is `None` when `result.json` is missing or malformed. */
  datatype Job = Job(runId: string, status: string, hasLog: bool, result: Option<RunResult>)

  function JobPair(job: Job): Pair {
    (job.runId, job.status)
  }

  /** The content of a public file.  `Derived` is what `rebuild_comparison` makes
      of the given summary rows. */
  datatype Document =
    | Table(rows: seq<Row>)
    | Turns(lines: seq<(string, seq<string>)>)
    | Derived(summary: seq<Row>)
    | Manifest(entries: map<string, string>)

  type Files = Outputs<Document>

  function RowsOf(files: Files, name: Name): seq<Row> {
    if name in files && files[name].Table? then files[name].rows else []
  }

  function TurnsOf(files: Files): seq<(string, seq<string>)> {
    if Activity in files && files[Activity].Turns? then files[Activity].lines else []
  }

  function ManifestOf(files: Files): map<string, string> {
    if Diagnostics in files && files[Diagnostics].Manifest? then files[Diagnostics].entries else map[]
  }

  // ---------- the key of every attempt ----------

  datatype KeyTable = KeyTable(pairs: map<Pair, string>, keys: set<string>)

  /** Registers published rows; one pair under two keys is an error. */
  function AddRows(rows: seq<Row>, t: KeyTable): Result<KeyTable, string> {
    if rows == [] then Ok(t)
    else
      var key, pair := rows[0].key, PairOf(rows[0]);
      if pair in t.pairs && t.pairs[pair] != key then Err(pair.0)
      else AddRows(rows[1..], KeyTable(t.pairs[pair := key], t.keys + {key}))
  }

  function AddJob(job: Job, t: KeyTable): KeyTable {
    if job.status in PUBLISHABLE_STATUSES && JobPair(job) !in t.pairs then
      var key := FreshKey(job.runId, t.keys, 1);
      KeyTable(t.pairs[JobPair(job) := key], t.keys + {key})
    else t
  }

  function AddJobs(jobs: seq<Job>, t: KeyTable): KeyTable {
    if jobs == [] then t else AddJobs(jobs[1..], AddJob(jobs[0], t))
  }

  function AssignKeys(jobs: seq<Job>, results: seq<Row>, summary: seq<Row>): Result<map<Pair, string>, string> {
    match AddRows(results + summary, KeyTable(map[], {}))
    case Err(runId) => Err(runId)
    case Ok(t) => Ok(AddJobs(jobs, t).pairs)
  }

  method AttemptKeysOf(jobs: seq<Job>, results: seq<Row>, summary: seq<Row>)
    returns (r: Result<map<Pair, string>, string>)
    ensures r == AssignKeys(jobs, results, summary)
  {
    var pairs: map<Pair, string>, keys: set<string> := map[], {};
    var rows := results + summary;
    for i := 0 to |rows|
      invariant AddRows(rows[i..], KeyTable(pairs, keys)) == AddRows(rows, KeyTable(map[], {}))
    {
      var key, pair := rows[i].key, PairOf(rows[i]);
      assert rows[i..][1..] == rows[i + 1..];
      if pair in pairs && pairs[pair] != key {
        return Err(pair.0);
      }
      pairs := pairs[pair := key];
      keys := keys + {key};
    }
    ghost var t := KeyTable(pairs, keys);
    for i := 0 to |jobs|
      invariant AddJobs(jobs[i..], KeyTable(pairs, keys)) == AddJobs(jobs, t)
    {
      assert jobs[i..][1..] == jobs[i + 1..];
      var job := jobs[i];
      if job.status in PUBLISHABLE_STATUSES && JobPair(job) !in pairs {
        var key := AttemptRunId(job.runId, keys);
        pairs := pairs[JobPair(job) := key];
        keys := keys + {key};
      }
    }
    r := Ok(pairs);
  }

  // ---------- which jobs a table still lacks ----------

  function PublishedKeys(rows: seq<Row>): set<string> {
    set row | row in rows && row.key != "" :: row.key
  }

  function PublishedPairs(rows: seq<Row>): set<Pair> {
    set row | row in rows && row.key != "" :: PairOf(row)
  }

  method ReadPublished(rows: seq<Row>) returns (keys: set<string>, pairs: set<Pair>)
    ensures keys == PublishedKeys(rows) && pairs == PublishedPairs(rows)
  {
    keys, pairs := {}, {};
    for i := 0 to |rows|
      invariant keys == PublishedKeys(rows[..i])
      invariant pairs == PublishedPairs(rows[..i])
    {
      assert rows[..i + 1] == rows[..i] + [rows[i]];
      if rows[i].key != "" {
        keys := keys + {rows[i].key};
        pairs := pairs + {PairOf(rows[i])};
      }
    }
    assert rows[..|rows|] == rows;
  }

  predicate Readable(job: Job) {
    job.status in PUBLISHABLE_STATUSES && job.result.Some?
  }

  /** Whether a table with these pairs gets a row for the job. */
  predicate Due(job: Job, pairs: set<Pair>) {
    JobPair(job) !in pairs && Readable(job)
  }

  function KeyFor(job: Job, runIds: map<Pair, string>, taken: set<string>): string {
    if JobPair(job) in runIds && runIds[JobPair(job)] != "" then runIds[JobPair(job)]
    else FreshKey(job.runId, taken, 1)
  }

  /** A row to be added: the job, its readable result and its key. */
  datatype Entry = Entry(job: Job, result: RunResult, key: string)

  function Selected(jobs: seq<Job>, pairs: set<Pair>, taken: set<string>, runIds: map<Pair, string>): seq<Entry> {
    if jobs == [] then []
    else if !Due(jobs[0], pairs) then Selected(jobs[1..], pairs, taken, runIds)
    else
      var key := KeyFor(jobs[0], runIds, taken);
      [Entry(jobs[0], jobs[0].result.value, key)] + Selected(jobs[1..], pairs, taken + {key}, runIds)
  }

  /** The rows a table lacks. */
  function Lacking(jobs: seq<Job>, rows: seq<Row>, runIds: map<Pair, string>): seq<Entry> {
    Selected(jobs, PublishedPairs(rows), PublishedKeys(rows), runIds)
  }

  function ResultRow(e: Entry): Row {
    Row(e.key, e.result.status, e.result.resultCells)
  }

  function SummaryRow(e: Entry): Row {
    Row(e.key, e.job.status, e.result.summaryCells)
  }

  function ResultRows(entries: seq<Entry>): seq<Row> {
    seq(|entries|, i requires 0 <= i < |entries| => ResultRow(entries[i]))
  }

  function SummaryRows(entries: seq<Entry>): seq<Row> {
    seq(|entries|, i requires 0 <= i < |entries| => SummaryRow(entries[i]))
  }

  function Keyed(key: string, turns: seq<seq<string>>): seq<(string, seq<string>)> {
    seq(|turns|, i requires 0 <= i < |turns| => (key, turns[i]))
  }

  function TurnLines(entries: seq<Entry>): seq<(string, seq<string>)> {
    if entries == [] then []
    else
      var last := entries[|entries| - 1];
      TurnLines(entries[..|entries| - 1]) + Keyed(last.key, last.result.turns)
  }

  /** The diagnosis of a run replaces or removes its manifest entry. */
  function WithDiagnosis(files: Files, e: Entry): Files {
    var current := ManifestOf(files);
    var entries := match e.result.diagnosis
                   case Some(report) => current[e.key := report]
                   case None => current - {e.key};
    files[Diagnostics := Manifest(entries)]
  }

  function Diagnosed(files: Files, entries: seq<Entry>, diagnose: bool): Files {
    if entries == [] then files
    else
      var last := entries[|entries| - 1];
      var before := Diagnosed(files, entries[..|entries| - 1], diagnose);
      if diagnose && last.job.hasLog then WithDiagnosis(before, last) else before
  }

  function Collected(jobs: seq<Job>, runIds: map<Pair, string>, diagnose: bool, files: Files): Files {
    var entries := Lacking(jobs, RowsOf(files, Summary), runIds);
    if entries == [] then files
    else
      var summary := RowsOf(files, Summary) + SummaryRows(entries);
      Diagnosed(files, entries, diagnose)
        [Activity := Turns(TurnsOf(files) + TurnLines(entries))]
        [Summary := Table(summary)]
        [Comparison := Derived(summary)]
  }

  /** One more job looked at: `done` are the rows made so far, `all` the rows
      there will be. */
  lemma SelectedStep(jobs: seq<Job>, i: nat, pairs: set<Pair>, taken: set<string>, runIds: map<Pair, string>,
                     done: seq<Entry>, all: seq<Entry>)
    requires i < |jobs| && done + Selected(jobs[i..], pairs, taken, runIds) == all
    ensures !Due(jobs[i], pairs) ==> done + Selected(jobs[i + 1..], pairs, taken, runIds) == all
    ensures Due(jobs[i], pairs) ==>
              var key := KeyFor(jobs[i], runIds, taken);
              done + [Entry(jobs[i], jobs[i].result.value, key)]
              + Selected(jobs[i + 1..], pairs, taken + {key}, runIds) == all
  {
    assert jobs[i..][0] == jobs[i] && jobs[i..][1..] == jobs[i + 1..];
    if Due(jobs[i], pairs) {
      var key := KeyFor(jobs[i], runIds, taken);
      var e := Entry(jobs[i], jobs[i].result.value, key);
      var rest := Selected(jobs[i + 1..], pairs, taken + {key}, runIds);
      assert done + ([e] + rest) == done + [e] + rest;
    }
  }

  lemma RowsOfOneMore(done: seq<Entry>, e: Entry, files: Files, diagnose: bool)
    ensures ResultRows(done + [e]) == ResultRows(done) + [ResultRow(e)]
    ensures SummaryRows(done + [e]) == SummaryRows(done) + [SummaryRow(e)]
    ensures TurnLines(done + [e]) == TurnLines(done) + Keyed(e.key, e.result.turns)
    ensures Diagnosed(files, done + [e], diagnose) ==
            var before := Diagnosed(files, done, diagnose);
            if diagnose && e.job.hasLog then WithDiagnosis(before, e) else before
  {
    assert (done + [e])[..|done|] == done;
  }

  lemma {:induction false} DiagnosedTouchesOnlyDiagnostics(files: Files, entries: seq<Entry>, diagnose: bool)
    ensures forall n: Name :: n != Diagnostics ==>
              && (n in Diagnosed(files, entries, diagnose) <==> n in files)
              && (n in files ==> Diagnosed(files, entries, diagnose)[n] == files[n])
  {
    if entries == [] {
    } else {
      DiagnosedTouchesOnlyDiagnostics(files, entries[..|entries| - 1], diagnose);
    }
  }

  method ChooseKey(job: Job, runIds: map<Pair, string>, keys: set<string>) returns (key: string)
    ensures key == KeyFor(job, runIds, keys)
  {
    if JobPair(job) in runIds && runIds[JobPair(job)] != "" {
      key := runIds[JobPair(job)];
    } else {
      key := AttemptRunId(job.runId, keys);
    }
  }

  /** What one job adds to the turns, the diagnoses and the summary. */
  method CollectEntry(e: Entry, diagnose: bool, files: Files, turns: seq<(string, seq<string>)>, summary: seq<Row>,
                      ghost base: Files, ghost done: seq<Entry>)
    returns (files': Files, turns': seq<(string, seq<string>)>, summary': seq<Row>)
    requires summary == SummaryRows(done) && turns == TurnLines(done) && files == Diagnosed(base, done, diagnose)
    ensures summary' == SummaryRows(done + [e]) && turns' == TurnLines(done + [e])
    ensures files' == Diagnosed(base, done + [e], diagnose)
  {
    RowsOfOneMore(done, e, base, diagnose);
    turns' := turns + Keyed(e.key, e.result.turns);
    files' := if diagnose && e.job.hasLog then WithDiagnosis(files, e) else files;
    summary' := summary + [SummaryRow(e)];
  }

  /** Appends the turns and the summary rows and recomputes the comparison. */
  method WriteTables(files: Files, turns: seq<(string, seq<string>)>, summary: seq<Row>,
                     ghost base: Files, ghost entries: seq<Entry>, ghost diagnose: bool) returns (files': Files)
    requires files == Diagnosed(base, entries, diagnose)
    requires turns == TurnLines(entries) && summary == SummaryRows(entries)
    ensures files' ==
            if entries == [] then base
            else
              var rows := RowsOf(base, Summary) + SummaryRows(entries);
              Diagnosed(base, entries, diagnose)
                [Activity := Turns(TurnsOf(base) + TurnLines(entries))]
                [Summary := Table(rows)]
                [Comparison := Derived(rows)]
  {
    files' := files;
    if summary != [] {
      DiagnosedTouchesOnlyDiagnostics(base, entries, diagnose);
      var rows := RowsOf(files, Summary) + summary;
      files' := files'[Activity := Turns(TurnsOf(files) + turns)];
      files' := files'[Summary := Table(rows)];
      files' := files'[Comparison := Derived(rows)];
    }
  }

  method CollectJobs(jobs: seq<Job>, runIds: map<Pair, string>, diagnose: bool, files: Files) returns (files': Files)
    ensures files' == Collected(jobs, runIds, diagnose, files)
  {
    var keys, pairs := ReadPublished(RowsOf(files, Summary));
    files' := files;
    var newSummary: seq<Row>, newTurns: seq<(string, seq<string>)> := [], [];
    ghost var all := Lacking(jobs, RowsOf(files, Summary), runIds);
    ghost var done: seq<Entry> := [];
    for i := 0 to |jobs|
      invariant done + Selected(jobs[i..], pairs, keys, runIds) == all
      invariant newSummary == SummaryRows(done) && newTurns == TurnLines(done)
      invariant files' == Diagnosed(files, done, diagnose)
    {
      var job := jobs[i];
      SelectedStep(jobs, i, pairs, keys, runIds, done, all);
      if JobPair(job) in pairs || job.status !in PUBLISHABLE_STATUSES {
        continue;
      }
      if job.result.None? {
        continue;
      }
      var key := ChooseKey(job, runIds, keys);
      keys := keys + {key};
      var e := Entry(job, job.result.value, key);
      files', newTurns, newSummary := CollectEntry(e, diagnose, files', newTurns, newSummary, files, done);
      done := done + [e];
    }
    assert done == all;
    files' := WriteTables(files', newTurns, newSummary, files, done, diagnose);
  }

  function WithResults(jobs: seq<Job>, runIds: map<Pair, string>, files: Files): Files {
    var entries := Lacking(jobs, RowsOf(files, Results), runIds);
    if entries == [] then files
    else files[Results := Table(RowsOf(files, Results) + ResultRows(entries))]
  }

  method PublishJobs(jobs: seq<Job>, runIds: map<Pair, string>, files: Files) returns (files': Files, newRows: seq<Row>)
    ensures files' == WithResults(jobs, runIds, files)
    ensures newRows == ResultRows(Lacking(jobs, RowsOf(files, Results), runIds))
  {
    var keys, pairs := ReadPublished(RowsOf(files, Results));
    newRows := [];
    ghost var all := Lacking(jobs, RowsOf(files, Results), runIds);
    ghost var done: seq<Entry> := [];
    for i := 0 to |jobs|
      invariant done + Selected(jobs[i..], pairs, keys, runIds) == all
      invariant newRows == ResultRows(done)
    {
      var job := jobs[i];
      SelectedStep(jobs, i, pairs, keys, runIds, done, all);
      if JobPair(job) in pairs {
        continue;
      }
      if Readable(job) {
        var key := ChooseKey(job, runIds, keys);
        keys := keys + {key};
        var e := Entry(job, job.result.value, key);
        RowsOfOneMore(done, e, files, false);
        done := done + [e];
        newRows := newRows + [ResultRow(e)];
      }
    }
    assert done == all;
    files' := if newRows == [] then files else files[Results := Table(RowsOf(files, Results) + newRows)];
  }

  /** What a synchronisation makes of the staged files; `None` when it raises. */
  function Synced(jobs: seq<Job>, diagnose: bool, files: Files): Option<Files> {
    match AssignKeys(jobs, RowsOf(files, Results), RowsOf(files, Summary))
    case Err(_) => None
    case Ok(runIds) => Some(WithResults(jobs, runIds, Collected(jobs, runIds, diagnose, files)))
  }

  function SyncOperation(jobs: seq<Job>, diagnose: bool): Operation<Document> {
    files => Synced(jobs, diagnose, files)
  }

  method Synchronize(jobs: seq<Job>, diagnose: bool, files: Files) returns (files': Option<Files>)
    ensures files' == Synced(jobs, diagnose, files)
  {
    var runIds := AttemptKeysOf(jobs, RowsOf(files, Results), RowsOf(files, Summary));
    if runIds.Err? {
      return None;
    }
    var collected := CollectJobs(jobs, runIds.value, diagnose, files);
    var published, _ := PublishJobs(jobs, runIds.value, collected);
    files' := Some(published);
  }
}
