/** The published ledger over whole histories of synchronisations, with a failure
    or a crash allowed at every file operation of every one of them. */
module LedgerHistory {
  import opened Wrappers
  import opened AttemptKeys
  import opened PublishTransaction
  import opened LedgerSync
  import opened LedgerKeys
  import opened LedgerConsistency

  /** The five files belong together: what holds of them in every history. */
  ghost predicate LedgerInvariant(files: Files) {
    && AnchoredRows(Published(files))
    && KeysOf(RowsOf(files, Results)) == KeysOf(RowsOf(files, Summary))
    && WithinThreeRows(Published(files))
    && TurnsAreKeyed(files)
    && ComparisonIsCurrent(files)
  }

  ghost predicate TurnsAreKeyed(files: Files) {
    forall line :: line in TurnsOf(files) ==> line.0 in KeysOf(RowsOf(files, Summary))
  }

  ghost predicate ComparisonIsCurrent(files: Files) {
    RowsOf(files, Summary) != [] ==> Comparison in files && files[Comparison] == Derived(RowsOf(files, Summary))
  }

  ghost predicate AppendedTo(files: Files, files': Files) {
    && RowsOf(files, Results) <= RowsOf(files', Results)
    && RowsOf(files, Summary) <= RowsOf(files', Summary)
    && TurnsOf(files) <= TurnsOf(files')
  }

  lemma {:induction false} TurnLinesAreKeyed(entries: seq<Entry>)
    ensures forall line :: line in TurnLines(entries) ==> exists i :: 0 <= i < |entries| && entries[i].key == line.0
  {
    if entries == [] {
    } else {
      TurnLinesAreKeyed(entries[..|entries| - 1]);
    }
  }

  lemma NewTurnsAreKeyed(summary: seq<Row>, entries: seq<Entry>, turns: seq<(string, seq<string>)>)
    requires forall line :: line in turns ==> line.0 in KeysOf(summary)
    ensures forall line :: line in turns + TurnLines(entries) ==> line.0 in KeysOf(summary + SummaryRows(entries))
  {
    var rows := summary + SummaryRows(entries);
    TurnLinesAreKeyed(entries);
    forall line | line in turns + TurnLines(entries)
      ensures line.0 in KeysOf(rows)
    {
      if line in TurnLines(entries) {
        var i :| 0 <= i < |entries| && entries[i].key == line.0;
        assert SummaryRows(entries)[i] in rows;
      } else {
        var row :| row in summary && row.key == line.0;
        assert row in rows;
      }
    }
  }

  /** A synchronisation deletes no file. */
  lemma SyncKeepsFiles(jobs: seq<Job>, diagnose: bool, files: Files)
    requires Synced(jobs, diagnose, files).Some?
    ensures files + Synced(jobs, diagnose, files).value == Synced(jobs, diagnose, files).value
  {
    var ids := AssignKeys(jobs, RowsOf(files, Results), RowsOf(files, Summary)).value;
    var entries := Lacking(jobs, RowsOf(files, Summary), ids);
    DiagnosedTouchesOnlyDiagnostics(files, entries, diagnose);
    DiagnosisIsKept(files, entries, diagnose);
    var files' := Synced(jobs, diagnose, files).value;
    assert forall n :: n in files ==> n in files';
  }

  lemma {:induction false} DiagnosisIsKept(files: Files, entries: seq<Entry>, diagnose: bool)
    ensures Diagnostics in files ==> Diagnostics in Diagnosed(files, entries, diagnose)
  {
    if entries == [] {
    } else {
      DiagnosisIsKept(files, entries[..|entries| - 1], diagnose);
    }
  }

  /** The files a synchronisation writes, file by file. */
  lemma SyncedFiles(jobs: seq<Job>, diagnose: bool, files: Files)
    requires Synced(jobs, diagnose, files).Some?
    ensures var files', ids := Synced(jobs, diagnose, files).value, IdsFor(jobs, files);
            var entries := Lacking(jobs, RowsOf(files, Summary), ids);
            && TurnsOf(files') == TurnsOf(files) + TurnLines(entries)
            && RowsOf(files', Summary) == RowsOf(files, Summary) + SummaryRows(entries)
            && (entries == [] ==> (Comparison in files' <==> Comparison in files))
            && (entries == [] && Comparison in files ==> files'[Comparison] == files[Comparison])
            && (entries != [] ==> Comparison in files' && files'[Comparison] == Derived(RowsOf(files', Summary)))
  {
    var ids := IdsFor(jobs, files);
    var entries := Lacking(jobs, RowsOf(files, Summary), ids);
    DiagnosedTouchesOnlyDiagnostics(files, entries, diagnose);
    SyncedRows(jobs, diagnose, files, ids);
    assert entries == [] ==> TurnsOf(files) + TurnLines(entries) == TurnsOf(files);
  }

  lemma SyncKeepsTurnsAndComparison(jobs: seq<Job>, diagnose: bool, files: Files)
    requires TurnsAreKeyed(files) && ComparisonIsCurrent(files) && Synced(jobs, diagnose, files).Some?
    ensures var files' := Synced(jobs, diagnose, files).value;
            TurnsOf(files) <= TurnsOf(files') && TurnsAreKeyed(files') && ComparisonIsCurrent(files')
  {
    SyncedFiles(jobs, diagnose, files);
    var summary := RowsOf(files, Summary);
    var entries := Lacking(jobs, summary, IdsFor(jobs, files));
    NewTurnsAreKeyed(summary, entries, TurnsOf(files));
    assert entries == [] ==> summary + SummaryRows(entries) == summary;
  }

  /** One synchronisation keeps the ledger, whatever the results say; it raises exactly
      when an attempt stands under two keys. */
  lemma SyncKeepsLedger(jobs: seq<Job>, diagnose: bool, files: Files)
    requires LedgerInvariant(files) && StoredJobs(jobs)
    ensures Synced(jobs, diagnose, files).Some? <==> Functional(Published(files))
    ensures Synced(jobs, diagnose, files).Some? ==>
              var files' := Synced(jobs, diagnose, files).value;
              LedgerInvariant(files') && AppendedTo(files, files') && files + files' == files'
  {
    SyncedTables(jobs, diagnose, files);
    if Synced(jobs, diagnose, files).Some? {
      SyncedTablesComplete(jobs, diagnose, files);
      SyncKeepsAnchors(jobs, diagnose, files);
      SyncCompletesTables(jobs, diagnose, files);
      SyncStaysWithinThree(jobs, diagnose, files);
      SyncKeepsTurnsAndComparison(jobs, diagnose, files);
      SyncKeepsFiles(jobs, diagnose, files);
    }
  }

  // ---------- histories ----------

  datatype Sync = Sync(jobs: seq<Job>, diagnose: bool)

  /** A run of synchronisations. */
  ghost predicate SyncRun(disks: seq<Disk<Document>>, calls: seq<Call<Document>>, syncs: seq<Sync>) {
    && Run(disks, calls) && |syncs| == |calls|
    && forall i :: 0 <= i < |calls| ==>
         && calls[i].operation == SyncOperation(syncs[i].jobs, syncs[i].diagnose)
         && StoredJobs(syncs[i].jobs)
  }

  lemma LedgerSurvivesOneCall(d: Disk<Document>, call: Call<Document>, d': Disk<Document>, sync: Sync)
    requires Valid(d) && CallEffect(d, call.operation, d', call.seen, call.outcome, call.committed)
    requires call.operation == SyncOperation(sync.jobs, sync.diagnose)
    requires LedgerInvariant(Committed(d)) && StoredJobs(sync.jobs)
    ensures LedgerInvariant(Committed(d')) && AppendedTo(Committed(d), Committed(d'))
    ensures call.committed ==> Synced(sync.jobs, sync.diagnose, Committed(d)) == Some(Committed(d'))
    ensures !call.committed ==> Committed(d') == Committed(d)
  {
    SyncKeepsLedger(sync.jobs, sync.diagnose, Committed(d));
  }

  /** Main result: over every history of synchronisations, whatever crashed and whatever
      the results said, the committed ledger lists the same attempts in both tables, only
      grows, and keys every run under `r`, `r#2`, `r#3`. */
  lemma {:induction false} LedgerSurvivesEveryHistory(disks: seq<Disk<Document>>, calls: seq<Call<Document>>,
                                                      syncs: seq<Sync>, i: nat, j: nat)
    requires SyncRun(disks, calls, syncs) && i <= j <= |calls|
    requires LedgerInvariant(Committed(disks[0]))
    ensures Valid(disks[i]) && Valid(disks[j])
    ensures LedgerInvariant(Committed(disks[j]))
    ensures AppendedTo(Committed(disks[i]), Committed(disks[j]))
    decreases j
  {
    CrashAtomicity(disks, calls, i);
    CrashAtomicity(disks, calls, j);
    if j == 0 {
    } else {
      var k := j - 1;
      LedgerSurvivesEveryHistory(disks, calls, syncs, if i < j then i else k, k);
      LedgerSurvivesOneCall(disks[k], calls[k], disks[j], syncs[k]);
    }
  }

  /** A shorter pair of tables is consistent if the longer one is. */
  lemma ConsistencyIsInherited(files: Files, files': Files)
    requires AppendedTo(files, files') && ConsistentFiles(files')
    ensures ConsistentFiles(files)
  {
    var r, s := RowsOf(files, Results), RowsOf(files, Summary);
    var r', s' := RowsOf(files', Results), RowsOf(files', Summary);
    assert forall row :: row in r + s ==> row in r' + s' by {
      forall row | row in r + s
        ensures row in r' + s'
      {
        if row in r {
          assert row in r';
        } else {
          assert row in s';
        }
      }
    }
    assert forall i :: 0 <= i < |r| ==> r[i] == r'[i];
    assert forall i :: 0 <= i < |s| ==> s[i] == s'[i];
  }

  /** The call committed while a stale result was due. */
  ghost predicate PublishesStale(d: Disk<Document>, call: Call<Document>, sync: Sync)
    requires Valid(d)
  {
    call.committed && !FreshResults(sync.jobs, RowsOf(Committed(d), Results))
  }

  ghost predicate SomeStale(disks: seq<Disk<Document>>, calls: seq<Call<Document>>, syncs: seq<Sync>, j: nat)
    requires SyncRun(disks, calls, syncs) && j <= |calls|
  {
    exists k :: 0 <= k < j && PublishesStale(disks[k], calls[k], syncs[k])
  }

  /** Main result: over every history from consistent tables they are consistent exactly
      as long as no call has published a stale result. */
  lemma {:induction false} ConsistentUntilStale(disks: seq<Disk<Document>>, calls: seq<Call<Document>>,
                                                syncs: seq<Sync>, j: nat)
    requires SyncRun(disks, calls, syncs) && j <= |calls|
    requires LedgerInvariant(Committed(disks[0])) && ConsistentFiles(Committed(disks[0]))
    ensures Valid(disks[j])
    ensures ConsistentFiles(Committed(disks[j])) <==> !SomeStale(disks, calls, syncs, j)
  {
    CrashAtomicity(disks, calls, j);
    if j == 0 {
    } else {
      var k := j - 1;
      ConsistentUntilStale(disks, calls, syncs, k);
      LedgerSurvivesEveryHistory(disks, calls, syncs, k, k);
      ConsistentAfterOneCall(disks[k], calls[k], disks[j], syncs[k]);
      assert SomeStale(disks, calls, syncs, j) <==>
             SomeStale(disks, calls, syncs, k) || PublishesStale(disks[k], calls[k], syncs[k]);
    }
  }

  lemma ConsistentAfterOneCall(d: Disk<Document>, call: Call<Document>, d': Disk<Document>, sync: Sync)
    requires Valid(d) && CallEffect(d, call.operation, d', call.seen, call.outcome, call.committed)
    requires call.operation == SyncOperation(sync.jobs, sync.diagnose)
    requires LedgerInvariant(Committed(d)) && StoredJobs(sync.jobs)
    ensures ConsistentFiles(Committed(d')) <==> ConsistentFiles(Committed(d)) && !PublishesStale(d, call, sync)
  {
    LedgerSurvivesOneCall(d, call, d', sync);
    if ConsistentFiles(Committed(d)) {
      SyncKeepsConsistency(sync.jobs, sync.diagnose, Committed(d));
    } else if ConsistentFiles(Committed(d')) {
      ConsistencyIsInherited(Committed(d), Committed(d'));
    }
  }

  /** What a synchronisation that takes effect commits. */
  lemma TargetOfSync(jobs: seq<Job>, diagnose: bool, files: Files)
    requires LedgerInvariant(files) && StoredJobs(jobs)
    ensures SyncOperation(jobs, diagnose)(files).None? <==> !Functional(Published(files))
    ensures var target := Target(files, SyncOperation(jobs, diagnose));
            && LedgerInvariant(target)
            && (ConsistentFiles(files) ==> Functional(Published(files)))
            && (ConsistentFiles(files) ==> (ConsistentFiles(target) <==> FreshResults(jobs, RowsOf(files, Results))))
            && (ConsistentFiles(files) ==>
                  (Synced(jobs, diagnose, target) == Some(target) <==> FreshResults(jobs, RowsOf(files, Results))))
  {
    SyncKeepsLedger(jobs, diagnose, files);
    if ConsistentFiles(files) {
      ConsistentRowsAreAnchored(files);
      SyncKeepsConsistency(jobs, diagnose, files);
      SyncIsIdempotent(jobs, diagnose, files);
    }
  }

  /** The published directory, as `sync_published` leaves it. */
  method SyncPublished(dir: DataDir<Document>, jobs: seq<Job>, diagnose: bool)
    returns (outcome: Outcome, committed: bool)
    requires Valid(dir.disk) && LedgerInvariant(Committed(dir.disk)) && StoredJobs(jobs)
    modifies dir
    ensures Valid(dir.disk) && LedgerInvariant(Committed(dir.disk))
    ensures Committed(dir.disk) ==
            if committed then Target(old(Committed(dir.disk)), SyncOperation(jobs, diagnose))
            else old(Committed(dir.disk))
    ensures outcome.Returned? ==> Visible(dir.disk) == Target(old(Committed(dir.disk)), SyncOperation(jobs, diagnose))
    // It raises in the operation itself when an attempt stands under two keys.
    ensures old(dir.faults) == [] ==>
              outcome == if Functional(Published(old(Committed(dir.disk)))) then Returned else Raised(Staging)
    // From consistent tables: they stay so, and nothing is left for a second call, if
    // and only if no stale result was due.
    ensures old(ConsistentFiles(Committed(dir.disk))) && outcome.Returned? ==>
              (ConsistentFiles(Committed(dir.disk)) <==> FreshResults(jobs, RowsOf(old(Committed(dir.disk)), Results)))
    ensures old(ConsistentFiles(Committed(dir.disk))) && outcome.Returned? ==>
              (Synced(jobs, diagnose, Committed(dir.disk)) == Some(Committed(dir.disk))
               <==> FreshResults(jobs, RowsOf(old(Committed(dir.disk)), Results)))
  {
    ghost var before := Committed(dir.disk);
    TargetOfSync(jobs, diagnose, before);
    if dir.faults == [] {
      OutcomeWithoutFaults(dir.disk, SyncOperation(jobs, diagnose), []);
    }
    ghost var seen;
    outcome, seen, committed := dir.Publish(SyncOperation(jobs, diagnose));
  }
}
