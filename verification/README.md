# Verification of the token benchmark harness

The harness runs coding agents under several conditions, records what each run
charged, and publishes the records as files. This project models the parts whose
promises span many calls, and proves them for all inputs and all runs:

- **Publication** (`PublishTransaction`): replacing five public files under a rollback
  journal. Every file operation takes its verdict (proceed, fail, crash) from an
  arbitrary schedule, so what is proved of `Publish` holds for a crash between any two
  operations, inside recovery too, and its outcome is given for every schedule.
  `CrashAtomicity` lifts it to every sequence of calls.
- **The ledger** (`AttemptKeys`, `LedgerSync`, `LedgerKeys`, `LedgerConsistency`,
  `LedgerHistory`, `LedgerTurns`, `LedgerPublishes`): the keys of retried runs and the
  tables that are kept in step; `LedgerKeys` is what holds whatever the results say,
  `LedgerConsistency` what holds as long as no stale result is published.
- **The comparison table** (`Grouping`, `Rounding`, `Comparison`, `ComparisonLaws`,
  `ComparisonColumns`, with the shared row type in `SummaryTable`).
- **Token accounting** (`Transcript`, `TranscriptLaws`, `ActivityLog`): events collapsed to
  messages, messages to turns, and the reread context split into shares.
- **The scheduler** (`Collect`).
- **The CSV reader of the page** (`CsvReader`), against a printer in the format of
  section 2 of RFC 4180.
- **The job queue** (`JobStore`, `JobLaws`, `JobRecords`, `JobRunner`, `JobOutcomes`,
  `QueueRunner`, `QueueDrain`, `QueueProtocol`): the store's transactions, what becomes of
  one job, the worker's loop, and all interleavings of workers and web actions.

Code that works step by step is a class or a method with a loop, proved against a
specification function; the laws are lemmas about that function. What a filter keeps is
stated by `Sequences.Picked`: one result for each kept item, in order. Tokens are exact
integers, costs and means exact reals.

## Where code and documentation differ

- `process_job` documents that `blocked` is returned for jobs that must stop a sequential
  run (`token_bench/job_runner.py:57-64`). A run that was cut off or left no output is
  stored as `blocked` (125-137) but reported as `failed` (170), so the loop goes on
  (`token_bench/queue_runner.py:75`). `JobRunner.ReplyVersusStore` states exactly when
  reply and store differ, `QueueRunner.CutOffRunsDoNotStopTheLoop` what follows, and
  `SilentExitIsMisreported` and `SilentExitDoesNotStopTheLoop` give one such run.
- No path may leave a job running (`token_bench/job_runner.py:3-5`), but only two exception
  types are caught (68, 106). `JobRunner.RunEndsUnlessItRaises` shows that a job is left
  running exactly when something else is raised before its end, such as the `KeyError` of
  a proxy argument that cannot be filled in (`token_bench/worker.py:268`;
  `BrokenProxyLeavesItRunning`). Recovery then restores the queue as it was, so the next
  worker takes the same job: `QueueRunner.FailureRepeatsForever`.
- A held publication lock raises the class that the loop takes for a held worker lock
  (`token_bench/worker.py:31`, `token_bench/queue_runner.py:82`). So a worker can return 1
  after a success was stored; `QueueRunner.OnceMeansStoredSuccess` states when.
- Republication is documented as idempotent (`token_bench/ledger.py:167-174`). It takes the
  status of a results row from `result.json` and asks for that of the job (183). If a
  finished retry leaves the old `result.json` behind, one key gets two statuses and the
  job never counts as published. `LedgerConsistency.SyncKeepsConsistency` and
  `SyncIsIdempotent` show that the tables stay consistent, and that a second
  synchronisation changes nothing, if and only if no such stale result is due, and
  `LedgerHistory.ConsistentUntilStale` says so of whole histories. `WhenTheNextSyncRaises`
  tells the two ways of failing apart: if the stale status was published before, every
  later synchronisation raises (`StaleResultBlocksPublication`); if not, each one appends
  the same results row again (`StaleResultIsRepeated`).
- The last `journal.unlink()` (`token_bench/ledger.py:602`) is outside the `try`. If it
  fails, the call raises with the new files in place and the journal still there, and
  the next call takes them back: `PublishTransaction.FailedCommitIsTakenBack`.
- The priority list is there so that a condition that cannot be run does not hold up the
  others (`token_bench/collect.py:58-67`). It does keep the others balanced
  (`Collect.NobodyGetsAhead`), but the preset is never left
  (`Collect.NeverRunnableHoldsPreset`).
- Rows of a date before the first BASE run are compared with the earliest BASE runs
  (`token_bench/ledger.py:385-394`), so they change while fewer than ten exist.
  `ComparisonLaws.NoLeakageFromTheFuture` and `UnsettledRowsChange` together say exactly
  which rows later runs can change.
- `is_measurable` is documented as asking for a breakdown that adds up
  (`token_bench/activity_log.py:132-140`). `ActivityLog.ReconciliationBalances` shows that
  it always does, so `reconcile_unbalanced` and `unknown` are never reported.

## Model

| member | source | states |
|---|---|---|
| PublishTransaction.DataDir.RestoreOne | token_bench/ledger.py:557-564 | Puts one file back as the journal has it, or removes it if there was none, and touches no other output, whatever fails in between |
| PublishTransaction.DataDir.Restore | token_bench/ledger.py:555-565 | Either all five outputs are the journalled ones and the journal is gone, or the journal is unchanged and recovery can be repeated |
| PublishTransaction.DataDir.Recover | token_bench/ledger.py:576-578 | Recovery never changes the committed state, and without a journal touches nothing |
| PublishTransaction.DataDir.WriteJournal | token_bench/ledger.py:593-595 | The journal appears only complete, and until then the public files are untouched |
| PublishTransaction.DataDir.Swap | token_bench/ledger.py:596-603 | After a failed replace exactly the old files are back, or the journal still holds them; the first fault decides which |
| PublishTransaction.DataDir.RollBack | token_bench/ledger.py:599-601 | A complete playback leaves the old files, an interrupted one the journal |
| PublishTransaction.DataDir.CommitAndClean | token_bench/ledger.py:602-603 | Removing the journal is the commit point; a failure before it leaves the journal, one after it does not undo the commit |
| PublishTransaction.DataDir.Install | token_bench/ledger.py:593-603 | From a recovered directory the committed state is the staged one if the commit point was reached and the old one otherwise |
| PublishTransaction.DataDir.PublishStage | token_bench/ledger.py:588-603 | The same for a stage of any content; a stage without a change touches no file |
| PublishTransaction.DataDir.Perform | token_bench/ledger.py:579-603 | The call after recovery: all or nothing, and the operation is called exactly when the stage opens |
| PublishTransaction.DataDir.Publish | token_bench/ledger.py:568-603 | For every fault schedule: the operation sees exactly the last committed files, the call happens as a whole or not at all, a failed replace leaves the old files, and the outcome is the one of the first fault met; no crash without a crash in the schedule |
| PublishTransaction.OutcomeWithoutFaults | token_bench/ledger.py:568-603 | Without faults the call returns, unless the operation raises |
| PublishTransaction.OutcomeWithoutCrash | token_bench/ledger.py:568-603 | No schedule without a crash ends in one |
| PublishTransaction.FailedCommit | token_bench/ledger.py:602 | With one changed file and a failing fifth operation the call raises with the new files in place and the old ones committed |
| PublishTransaction.FailedCommitIsTakenBack | token_bench/ledger.py:577-602 | The next call shows its operation the old files |
| PublishTransaction.ChangedFrom | token_bench/ledger.py:588-590 | The files to replace are those staged that are new or differ |
| PublishTransaction.ChangesMakeTarget | token_bench/ledger.py:588-598 | Replacing just the changed files yields the staged state, and there are none to replace exactly when the staged state is the old one |
| PublishTransaction.MidwayAdvances | token_bench/ledger.py:597-598 | Between journal and commit every replace keeps the journal and shows one more new file |
| PublishTransaction.CrashAtomicity | token_bench/ledger.py:555-603 | Over every sequence of calls with any crashes, what the next operation sees is the replay of exactly the calls that reached their commit point |
| AttemptKeys.AttemptRunId | token_bench/ledger.py:133-147 | The search ends for every finite set of published keys with the first free attempt, which is of the same run |
| AttemptKeys.FreshKeyIsLeast | token_bench/ledger.py:142-147 | The key found is free and all earlier attempts are taken |
| AttemptKeys.BaseOfAttemptKey | token_bench/ledger.py:127-147 | Stripping the attempt number gives the run id back |
| AttemptKeys.AttemptKeyIsInjective | token_bench/ledger.py:144-147 | Different attempts of a run have different keys |
| AttemptKeys.KeysOfARun | token_bench/ledger.py:133-147 | The keys of a run are its id and its id with `#2`, `#3` and so on, the number in decimal |
| AttemptKeys.DecimalIsTheNumeral | token_bench/ledger.py:145-147 | Attempt numbers are written as decimal numerals without leading zeros |
| AttemptKeys.BaseEndsAtHash | token_bench/ledger.py:127-130 | The base of a key is what stands before its first `#` |
| LedgerSync.AttemptKeysOf | token_bench/ledger.py:606-626 | The key table, or the error on one attempt under two keys |
| LedgerSync.ReadPublished | token_bench/ledger.py:150-164 | The keys and the (run, status) pairs of the rows with a key |
| LedgerSync.CollectJobs | token_bench/ledger.py:455-537 | Appends the turns and one summary row for every readable finished job that the summary lacks, recomputes the comparison, and otherwise changes nothing but diagnostics |
| LedgerSync.PublishJobs | token_bench/ledger.py:167-201 | Appends one results row for every such job the results lack, and returns the new rows |
| LedgerSync.Synchronize | token_bench/ledger.py:631-640 | Both under one key assignment, or no change when the keys disagree |
| LedgerSync.DiagnosedTouchesOnlyDiagnostics | token_bench/ledger.py:493-497 | Diagnoses change no other file |
| LedgerPublishes.WhatASyncAppends | token_bench/ledger.py:48-537 | Each table gets one row for each succeeded, failed or timed out job with a readable result whose attempt it did not list, in job order, with its key, status and cells, and no other row |
| LedgerPublishes.FinishedRunsAreListed | token_bench/ledger.py:43-48 | After a synchronisation every succeeded, failed or timed out job with a readable result is listed in both tables |
| LedgerPublishes.EntriesAreTheDueJobs | token_bench/ledger.py:472-490 | The jobs published are exactly those, each once and under its assigned key |
| LedgerPublishes.WhatIsDiagnosed | token_bench/ledger.py:493-497 | Diagnosing replaces the report of every attempt added to the summary that left a log, and no other |
| LedgerKeys.FreshKeyIsAmongThree | token_bench/ledger.py:48-147 | With three publishable statuses, the first free key of a run is one of r, r#2, r#3 |
| LedgerKeys.RowsAreListed | token_bench/ledger.py:609-620 | Registering the published rows raises exactly when an attempt stands under two keys |
| LedgerKeys.KeysAreAssigned | token_bench/ledger.py:606-626 | Otherwise the assignment keeps every published key and covers every finished job |
| LedgerKeys.AssignmentIsExact | token_bench/ledger.py:621-626 | It is injective when the published keys are |
| LedgerKeys.LackingAreTheDueJobs | token_bench/ledger.py:472-490 | A table lacks exactly the readable finished jobs whose attempt it does not list, each once and under its assigned key |
| LedgerKeys.AppendingCompletes | token_bench/ledger.py:467-490 | After appending, the table lists every readable finished job and gains no other key |
| LedgerKeys.SyncKeepsAnchors | token_bench/ledger.py:606-641 | Whatever the results say, every published key stands beside some publishable status |
| LedgerConsistency.SyncKeepsConsistency | token_bench/ledger.py:606-641 | A synchronisation of consistent tables never raises and only appends; the tables stay consistent if and only if no stale result was due |
| LedgerConsistency.StaleResultDisagrees | token_bench/ledger.py:167-201 | A result whose status is not its job's breaks the agreement of the two tables |
| LedgerConsistency.DueKeysAreNew | token_bench/ledger.py:489-492 | The keys written are new to the table and differ from one another |
| LedgerConsistency.WhenTheNextSyncRaises | token_bench/ledger.py:606-641 | Later synchronisations raise, whatever the jobs are by then, if and only if a stale result was due whose status was published before |
| LedgerConsistency.StaleResultBlocksPublication | token_bench/ledger.py:606-641 | A concrete ledger that one synchronisation accepts and every later one refuses |
| LedgerConsistency.StaleResultIsRepeated | token_bench/ledger.py:167-189 | From an empty ledger and one stale result the n-th synchronisation leaves n copies of its row |
| LedgerKeys.SyncCompletesTables | token_bench/ledger.py:606-641 | Both tables gain exactly the keys of readable finished jobs, published ones under their old keys, whatever the results say; they end with equal keys exactly when all that one of them lacked was supplied |
| LedgerConsistency.SyncIsIdempotent | token_bench/ledger.py:167-201 | An immediate second synchronisation of consistent tables changes no file if and only if no stale result was due |
| LedgerKeys.SyncStaysWithinThree | token_bench/ledger.py:127-147 | Published keys of a run stay among r, r#2, r#3, whatever the results say |
| LedgerHistory.SyncKeepsTurnsAndComparison | token_bench/ledger.py:532-535 | Turns are only appended, belong to published runs, and the comparison is that of the whole summary |
| LedgerHistory.SyncKeepsFiles | token_bench/ledger.py:629-641 | No published file disappears |
| LedgerHistory.SyncKeepsLedger | token_bench/ledger.py:606-641 | One synchronisation keeps the ledger, whatever the results say, and raises exactly when an attempt stands under two keys |
| LedgerHistory.LedgerSurvivesEveryHistory | token_bench/ledger.py:555-641 | Over every history of synchronisations and crashes, whatever the results say, the committed tables list the same keys, only grow, and key runs under r, r#2, r#3 |
| LedgerHistory.ConsistentUntilStale | token_bench/ledger.py:555-641 | Over every history from consistent tables they are consistent exactly as long as no call has published a stale result |
| LedgerHistory.SyncPublished | token_bench/ledger.py:629-641 | The call as a whole: atomic, keeping the ledger; from consistent tables nothing is left for a second call if and only if no stale result was due |
| LedgerTurns.TurnsAreAppended | token_bench/ledger.py:489-533 | Whatever the results say, each key gains exactly the turns of the job published under it |
| LedgerTurns.WhenTurnsAreMixed | token_bench/ledger.py:133-147 | A job's turns join those of an earlier attempt if and only if the results list its attempt and the summary does not |
| LedgerTurns.AttemptsKeepTheirTurns | token_bench/ledger.py:133-147 | From consistent tables a reader finds under each new key exactly the turns of that attempt, and under each old key what was there before |
| Transcript.AssistantMessages | token_bench/transcript.py:114-150 | One message per id, in first-seen order, with the first usage, stop reason and model and all tool calls |
| Transcript.ToolEvents | token_bench/transcript.py:153-185 | The tool calls of each message in order, numbered by turn, with the recorded result text |
| Transcript.GroupCalls | token_bench/transcript.py:156-179 | Calls by message id, ids in first-seen order, the last result recorded for each call |
| Transcript.RecordsGrow | token_bench/transcript.py:136-148 | A counted event changes the record of its own message and no other |
| Transcript.FirstSeenAreTheIds | token_bench/transcript.py:136-142 | Exactly the ids of counted events come out, once each |
| Transcript.FirstIndex | token_bench/transcript.py:136-142 | The event that supplies usage is the first counted one with that id |
| Transcript.FirstSeenInOrder | token_bench/transcript.py:142-150 | The order is that of the first events |
| TranscriptLaws.CallsAreTheToolUses | token_bench/transcript.py:143-145 | The calls of an event are exactly its tool_use blocks, each once and in order |
| TranscriptLaws.CallsStandInPlace | token_bench/transcript.py:128-148 | The calls of a message are the tool_use blocks of all its events, block after block |
| TranscriptLaws.NoCallLostOrRepeated | token_bench/transcript.py:128-150 | Every tool_use block of an event with an id and usage is exactly one tool of exactly one message, its own, and every tool of a message is such a block, in order of events and blocks |
| TranscriptLaws.MessageShowsFirstEvent | token_bench/transcript.py:136-150 | Usage, stop reason and model of a message are those of its first event, its targets those of its calls that have one |
| TranscriptLaws.ResultsAreTheLast | token_bench/transcript.py:173-179 | The text recorded for a call is that of the last tool_result block for it in an event of the user |
| TranscriptLaws.ToolEventsShowCalls | token_bench/transcript.py:181-185 | The events come turn after turn; those of a turn show name, input and result text of the calls of its message, in order |
| Transcript.ToolEventsMatchMessages | token_bench/transcript.py:122-185 | `tool_events` numbers turns and names tools exactly as `assistant_messages` does |
| ActivityLog.ExtractTurns | token_bench/activity_log.py:43-92 | One turn per message, growth beyond the output charged to the turn that caused it |
| ActivityLog.TurnShowsMessage | token_bench/activity_log.py:51-92 | Each column of a turn: the context is input, cache creation and cache read; growth beyond the output is result or discard |
| ActivityLog.TurnContext | token_bench/activity_log.py:64-72 | Each turn's context is the first context plus all earlier outputs, results and discards |
| ActivityLog.ReconciliationBalances | token_bench/activity_log.py:110-129 | For every message sequence the four shares add up to the sum of all contexts after the first |
| ActivityLog.DoubleSum | token_bench/activity_log.py:95-107 | Weighting every entry by the positions after it is the same as adding up all prefix sums |
| ActivityLog.ContextTax | token_bench/activity_log.py:95-129 | Total tax is, over all turns, the sum of all earlier results; with opening and output it exceeds what was reread by exactly the negated discarded share |
| ActivityLog.TaxOfATurn | token_bench/activity_log.py:103-107 | Each turn is taxed its result once for every turn after it |
| ActivityLog.SharesArePrefixSums | token_bench/activity_log.py:118-123 | Output, result and discarded share are what later turns reread of each |
| ActivityLog.OpeningAndObserved | token_bench/activity_log.py:119-125 | The opening is reread by every later turn; observed are all contexts but the first |
| ActivityLog.DiscardedIsNegativePart | token_bench/activity_log.py:64-72 | Discarded is never positive and never nonzero beside a positive result; compacted says it is negative |
| ActivityLog.DiscardedShare | token_bench/activity_log.py:118-123 | The discarded share is never positive, and zero exactly when no turn was compacted |
| ActivityLog.MeasurableRuns | token_bench/activity_log.py:132-143 | A run is measurable exactly when it has a turn and every step of the context grows by at least the output before it |
| ActivityLog.TaxIsExactWhenMeasurable | token_bench/activity_log.py:132-143 | Opening, output and tax never fall short of what was reread, and equal it exactly for measurable runs |
| ActivityLog.ReasonsOfExtractedTurns | token_bench/ledger.py:280-293 | An invalid run has one of three reasons, each with its exact condition; the other two never appear |
| Collect.SuccessfulRunsByCondition | token_bench/collect.py:21-47 | The number of samples of every condition |
| Collect.OneMoreRow | token_bench/collect.py:37-47 | A row counts exactly if it is of the preset and the model, succeeded and was not marked as not measurable |
| Collect.ConditionPriority | token_bench/collect.py:50-75 | The declared ids in order of priority |
| Collect.PriorityListsAll | token_bench/collect.py:70-75 | Every declared condition is listed |
| Collect.PriorityIsSorted | token_bench/collect.py:70-75 | Fewer samples first, ties in declaration order |
| Collect.HeadIsLeastSampled | token_bench/collect.py:70-75 | Nobody has fewer samples than the head, and nobody declared before it as few |
| Collect.TakenIsLeast | token_bench/collect.py:58-75 | The first condition of the list that can be run: no other that can be run has fewer samples, and none declared before it as few |
| Collect.NextPreset | token_bench/collect.py:91-113 | The first preset that some condition has not filled, else the last |
| Collect.SmallBeforeLarge | token_bench/collect.py:17-113 | The preset is "small" while some condition has fewer than the wanted samples of it, else "large" |
| Collect.NobodyGetsAhead | token_bench/collect.py:58-75 | Over every run of ticks, whatever can be run at each, no condition gets ahead of one that can always be run by more than one sample or its initial lead |
| Collect.SpreadStaysBounded | token_bench/collect.py:34-75 | Among the conditions that can always be run the spread never exceeds the larger of one and its initial value |
| Collect.TickProgress | token_bench/collect.py:106-113 | A tick lowers the missing samples of the current preset by exactly one if it adds a sample while a runnable condition lacks one, and changes nothing else |
| Collect.ProgressOverRuns | token_bench/collect.py:91-113 | The first preset is left after exactly as many such ticks as it lacked samples |
| Collect.AllRunnableAllUseful | token_bench/collect.py:91-113 | When every condition can always be run, every tick that adds a sample is such a tick until both presets are full |
| Collect.NeverRunnableHoldsPreset | token_bench/collect.py:106-113 | While a condition that lacks samples can never be run the first preset is never left |
| Collect.PresetNeverMovesBack | token_bench/collect.py:106-113 | No appended rows move the scheduler to an earlier preset |
| CsvReader.ParseCsv | web/app.js:56-71 | The loop computes the reading function |
| CsvReader.ReadEscaped | web/app.js:61-63 | An enclosed field reads back as its text, doubled quotes, commas and line breaks included |
| CsvReader.ReadCells | web/app.js:59-68 | The cells of a printed line are read into the row |
| CsvReader.ParsePrint | web/app.js:56-71 | For every table, choice of quoting, line break on each line and final line break, reading gives the table without its blank lines |
| CsvReader.ParseUndoesPrint | web/app.js:56-71 | Reading undoes printing exactly when no row is a blank line; in particular for rows of two or more fields |
| CsvReader.NonBlankAreTheLines | web/app.js:70 | The rows kept are exactly those that are not a blank line, in order |
| CsvReader.QuotedAnywhere | web/app.js:61-64 | Quotes open and close anywhere in a field |
| CsvReader.UnclosedQuote | web/app.js:61-69 | Without a closing quote everything up to the end is text |
| CsvReader.ReturnVanishes | web/app.js:67 | A carriage return outside quotes is dropped |
| CsvReader.OneReading | web/app.js:56-71 | A text with quotes, both line breaks and a blank line, and the table it reads as |
| CsvReader.RecordsSurvive | web/app.js:74-79 | Records under a header of distinct names come back as they were |
| CsvReader.FromEntriesLooksUp | web/app.js:76-78 | With distinct names each name finds the cell below it |
| CsvReader.LastEntryWins | web/app.js:78 | A repeated name finds the cell below its last occurrence |
| CsvReader.RecordPerFittingRow | web/app.js:77 | A row is dropped exactly when its width differs from the header's |
| CsvReader.RecordsAreTheFittingRows | web/app.js:77-78 | The records are those of exactly the rows as wide as the header, in order |
| Grouping.GroupBy | token_bench/ledger.py:366-369 | Grouping into a dictionary of lists keeps every item under its key in file order |
| Grouping.SortedIsSorted | token_bench/ledger.py:431-442 | Sorting is strictly ascending and keeps the same keys |
| Grouping.LessIsLexicographic | token_bench/ledger.py:392-442 | Strings are ordered by their first difference, a proper beginning first |
| Rounding.RoundedIsNear | token_bench/ledger.py:345-346 | Rounding to four digits moves no value by more than half of the last digit |
| Rounding.RoundedIsMonotone | token_bench/ledger.py:345-346 | Rounding keeps the order |
| Rounding.RoundedIsTheNearest | token_bench/ledger.py:345-346 | Rounding gives the nearest value of four digits, halfway the one with an even last digit |
| Comparison.MeanBounds | token_bench/ledger.py:319-321 | The mean lies between any bounds on the values |
| ComparisonColumns.MeanOfOne | token_bench/ledger.py:319-321 | The mean of one value is that value |
| ComparisonColumns.MeanOfParts | token_bench/ledger.py:319-321 | Two lists together have the mean of both, each weighted by its length |
| ComparisonColumns.MeanTimesCount | token_bench/ledger.py:319-321 | The mean times the number of values is their total |
| Comparison.NoiseFloor | token_bench/ledger.py:319-335 | Values within the range of the baseline differ from it by at most its spread |
| Comparison.GroupMembers | token_bench/ledger.py:366-442 | A cell is averaged over exactly the treatments of its model, prompt, date and condition |
| ComparisonColumns.EligibleAreThose | token_bench/ledger.py:416-429 | Exactly the measurable and evaluated rows take part, in file order |
| ComparisonColumns.GroupAreThose | token_bench/ledger.py:366-442 | A cell averages exactly the rows of its model, prompt, date and condition that are not BASE, in file order |
| ComparisonColumns.BaselineAreThose | token_bench/ledger.py:431-436 | A cohort's baseline are exactly its BASE rows, in file order |
| ComparisonColumns.UntilAreThose | token_bench/ledger.py:392 | The window chooses from exactly the BASE rows not dated later |
| ComparisonColumns.WindowIsTenAtMost | token_bench/ledger.py:385-394 | It takes the last ten of those, or the first ten of all if there is none |
| Comparison.ComparisonRowsForDate | token_bench/ledger.py:349-382 | One rounded line per condition in order, none without a baseline, which is the given one or that of the runs themselves |
| Comparison.RowsAtDate | token_bench/ledger.py:442-446 | The rows of a date are exactly those of its reported cells |
| Comparison.RowsOfCohort | token_bench/ledger.py:433-446 | The rows of a cohort, date after date |
| Comparison.RebuildComparison | token_bench/ledger.py:397-452 | The table is strictly sorted and has the right row for exactly the cells with a treatment and a baseline |
| Comparison.WindowSize | token_bench/ledger.py:385-394 | The window holds one to ten runs as soon as there is a BASE run |
| ComparisonLaws.WindowTakesTheLatest | token_bench/ledger.py:385-394 | The window is the latest part of the BASE runs up to the date, never looks past it while there is one, and drops a run only when full |
| ComparisonLaws.ComparisonIsDetermined | token_bench/ledger.py:397-452 | Those properties determine the table |
| ComparisonLaws.EveryTreatmentInOneRow | token_bench/ledger.py:366-446 | Every treatment with a BASE run in its cohort is counted in exactly one row |
| ComparisonLaws.ComparisonIsAPartition | token_bench/ledger.py:366-446 | The `runs` column adds up to the number of such treatments |
| ComparisonLaws.RowsAreSortedAndBased | token_bench/ledger.py:431-446 | Rows are strictly sorted by model, prompt, date and condition and compare with one to ten BASE runs |
| ComparisonLaws.NoiseFloorOfRow | token_bench/ledger.py:345-382 | In every row a cell within the range of its window reports a difference no larger than the noise beside it, both rounded as written |
| ComparisonLaws.RowSaysMeans | token_bench/ledger.py:345-382 | A written row and the means of its window give the means of its cell up to half of the last digit in a hundred; a cell is empty exactly without a baseline mean |
| ComparisonColumns.RowSaysTotals | token_bench/ledger.py:319-382 | A written row times its number of runs gives back the totals of its token, cost and tax columns from those of the window, and the difference of the qualities per run, up to the rounding |
| ComparisonColumns.RowSaysNoise | token_bench/ledger.py:324-382 | The noise cells are the range of the window's values in percent of their mean, empty for one run |
| ComparisonColumns.RowsInOrder | token_bench/ledger.py:431-446 | Rows are ordered by model, then prompt, then date, then condition |
| ComparisonColumns.WhichRowsAreThere | token_bench/ledger.py:431-446 | A row is there exactly for the cells with a treatment whose model and prompt have a BASE run |
| ComparisonLaws.NoLeakageFromTheFuture | token_bench/ledger.py:385-446 | Runs dated later leave every row as it was whose window was settled |
| ComparisonLaws.AppendedRowsDoNotLeak | token_bench/ledger.py:416-446 | So does appending later rows to the summary file, whatever ineligible rows are among them |
| ComparisonLaws.UnsettledRowsChange | token_bench/ledger.py:385-446 | The condition is needed: any unsettled row is changed, or first appears, by the next later BASE run |
| JobStore.Store.Enqueue | token_bench/job_store.py:231-296 | Acts as its specification, the rollback of a failed insertion included |
| JobStore.Store.ClaimNextQueued | token_bench/job_store.py:319-342 | Starts the first queued job and returns its row |
| JobStore.Store.FinishJob | token_bench/job_store.py:345-383 | Ends a running job and refuses any other |
| JobStore.Store.DeleteJob | token_bench/job_store.py:386-400 | Removes a job that is not running and refuses any other |
| JobStore.Store.RetryJob | token_bench/job_store.py:403-423 | Resets an ended, unsuccessful job and refuses any other |
| JobStore.Store.RequeueJob | token_bench/job_store.py:426-443 | Puts a running job back and refuses any other |
| JobStore.Store.RequeueOrphanedRunning | token_bench/job_store.py:446-465 | Puts every running job back in its place and returns the orphans as they were |
| JobLaws.EnqueueIsAllOrNothing | token_bench/job_store.py:231-296 | Exactly when the approval is acceptable all runs are queued in plan order under the next numbers and the digest is consumed; otherwise nothing changes, and the existing jobs are returned exactly when the plan matches and there are any |
| JobRecords.EnqueueAnswers | token_bench/job_store.py:244-296 | Each answer with its exact condition: the rows of the digest in table order when there are any, each refusal under its guard, and otherwise the new rows column by column |
| JobRecords.SecondSubmission | token_bench/job_store.py:237-255 | Submitting an accepted approval again returns what the first submission returned and changes nothing |
| JobRecords.DigestRowsAreAll | token_bench/job_store.py:225-228 | The rows of a digest are all of them, in table order |
| JobLaws.EnqueueKeepsStore | token_bench/job_store.py:231-296 | Enqueueing keeps the invariant and every earlier row |
| JobLaws.ClaimTakesTheFirst | token_bench/job_store.py:326-342 | The job claimed has the smallest number of the queued ones and is then the only one running; none is claimed only if none is queued |
| JobRecords.ClaimWrites | token_bench/job_store.py:327-342 | The claimed row gets its status and the time of the claim, and keeps every other column |
| JobLaws.FinishEndsTheRun | token_bench/job_store.py:345-383 | Ending the running job succeeds, changes only its row and leaves none running |
| JobRecords.FinishWrites | token_bench/job_store.py:359-383 | A running row gets the status and finish data given and keeps every other column; any other is refused |
| JobLaws.RequeueEndsTheRun | token_bench/job_store.py:426-443 | So does putting it back |
| JobRecords.RequeueWrites | token_bench/job_store.py:433-465 | A running row goes back without a start time and keeps every other column, by hand or by recovery |
| JobLaws.RetryKeepsStore | token_bench/job_store.py:403-423 | A retry keeps the lifecycle of every row and disturbs no running job |
| JobRecords.RetryWrites | token_bench/job_store.py:413-423 | Exactly the jobs that ended without success are accepted, and start afresh |
| JobLaws.DeleteKeepsStore | token_bench/job_store.py:386-400 | Deleting removes just the named job, succeeds exactly when it exists and is not running, and changes nothing otherwise |
| JobRecords.DeleteWrites | token_bench/job_store.py:394-400 | Exactly the named row goes, unless it is running |
| JobRecords.UnknownRun | token_bench/job_store.py:345-443 | Without a row every operation is refused and nothing changes |
| JobLaws.RecoveryKeepsStore | token_bench/job_store.py:446-465 | Recovery leaves none running, puts orphans back in place and touches no other row |
| JobLaws.RecoveryUndoesClaim | token_bench/job_store.py:319-465 | A claim that is never ended is undone exactly |
| JobRunner.WaitForEnd | token_bench/worker.py:360-377 | The first decisive round ends the wait: exit before cancellation before deadline |
| JobRunner.EndWithoutRun | token_bench/job_runner.py:37-51 | A job that could not run is ended without measurements |
| JobRunner.ProcessJob | token_bench/job_runner.py:54-170 | Takes the store transition of its outcome and replies or raises as the code does, for an exception at every stage |
| JobRunner.RecordOutcome | token_bench/job_runner.py:115-170 | The same from the outcome of the process on |
| JobRunner.RunEndsUnlessItRaises | token_bench/job_runner.py:3-170 | The job is left running exactly when the call raises before its end, and then nothing changed; it is queued again exactly when the caller is told so; only its row changes |
| JobOutcomes.UnreadableSnapshot | token_bench/job_runner.py:66-70 | The job is stored as a configuration error without measurements, and so reported |
| JobOutcomes.FailedPreflight | token_bench/job_runner.py:72-84 | The job is stored as blocked without measurements, and so reported |
| JobOutcomes.NoProcess | token_bench/job_runner.py:92-110 | The job is stored as a worker error without measurements, and so reported |
| JobOutcomes.ProcessExits | token_bench/job_runner.py:115-170 | Stored row and reply for every way in which the process exits by itself |
| JobOutcomes.ProcessIsStopped | token_bench/job_runner.py:115-170 | Stored row and reply when it is cancelled or runs into the deadline |
| JobOutcomes.RaisedBeforeTheEnd | token_bench/job_runner.py:65-117 | What is raised before the end leaves the store as it was |
| JobRunner.ReplyVersusStore | token_bench/job_runner.py:125-170 | The reply is the stored status exactly unless the run failed cut off or without output, which is stored as blocked and reported as failed |
| JobRunner.SilentExitIsMisreported | token_bench/job_runner.py:131-170 | A concrete run of that kind |
| JobRunner.BrokenProxyLeavesItRunning | token_bench/worker.py:268 | A concrete run that is left running |
| QueueRunner.Runner.StopCurrent | token_bench/queue_runner.py:27-32 | Cancels exactly when there is a current job, and says so |
| QueueRunner.Runner.Stop | token_bench/queue_runner.py:34-38 | Requests shutdown and cancels |
| QueueRunner.Runner.WorkOn | token_bench/queue_runner.py:55-64 | The claimed job is processed, a stop before its start cancels it, and the current job is forgotten afterwards, also when it raises |
| QueueRunner.Runner.Round | token_bench/queue_runner.py:47-82 | One round with its exit conditions |
| QueueRunner.Runner.ExitAfter | token_bench/queue_runner.py:65-84 | A held publication lock gives 1, any other exception is passed on, otherwise the tests of the loop decide |
| QueueRunner.Runner.Run | token_bench/queue_runner.py:40-85 | The loop under the lock, after recovery, computes the run specification, exceptions included; without the lock it leaves with 1 and changes nothing |
| QueueRunner.WorkShortensQueue | token_bench/queue_runner.py:48-64 | A claimed job that does not go back leaves a shorter queue of later jobs |
| QueueRunner.UndisturbedRunEnds | token_bench/queue_runner.py:47-85 | With `exit_when_empty` and nobody enqueueing or retrying the loop ends within one round more than there are queued jobs and claims each at most once in increasing order |
| QueueDrain.WhenARoundGoesOn | token_bench/queue_runner.py:47-85 | Exactly when a round goes on, by the status that is stored for its job, for every status and both settings, and how it ends otherwise |
| QueueDrain.UndisturbedRunDrains | token_bench/queue_runner.py:47-85 | With `exit_when_empty`, only deletions and every process giving a result, the loop returns 0 over an empty queue and has taken every queued job that was not deleted |
| QueueDrain.StopBeforeStartCancels | token_bench/queue_runner.py:55-61 | A stop between claim and start ends a process that has not exited as cancelled |
| QueueDrain.ActionsInTurn | token_bench/job_store.py:231-423 | Each web action is one operation of the store |
| QueueRunner.SuccessMeansEmptyQueue | token_bench/queue_runner.py:47-85 | Without shutdown it returns 0 only over an empty queue, whatever the web did; and leaves a job running only by an exception |
| QueueRunner.WebKeepsRunningRow | token_bench/job_store.py:231-423 | No sequence of enqueue, retry and delete touches the row of a running job |
| QueueRunner.OnceMeansStoredSuccess | token_bench/queue_runner.py:47-84 | With `once` the loop ends in one round with at most one job; it returns 0 exactly when nothing was queued or that job is stored as succeeded and nothing was raised after that, and passes on exactly the exceptions that are not a held publication lock |
| QueueRunner.CutOffRunsDoNotStopTheLoop | token_bench/queue_runner.py:75-80 | Of the jobs stored as blocked exactly those that were cut off, and whose report raised nothing, let a loop go on that stops on infrastructure errors |
| QueueRunner.SilentExitDoesNotStopTheLoop | token_bench/queue_runner.py:75-80 | A concrete run of that kind |
| QueueRunner.FailureRepeatsForever | token_bench/job_runner.py:3-5 | Every worker takes the one job that raises before its end, and recovery finds the store as it was |
| QueueProtocol.StepKeepsInvariant | token_bench/job_store.py:231-465 | Every step of a worker, a crash or the web keeps the store invariant and the agreement of the lock holder's phase with it |
| QueueProtocol.AtMostOneJobRuns | token_bench/worker.py:83-88 | In every run at most one job is running, none at the top of a live worker's loop, and every row's columns fit its status |
| QueueProtocol.ApprovalInsertsOnce | token_bench/job_store.py:250-268 | An approved digest inserts its jobs at most once over any run, deletions notwithstanding |
| QueueProtocol.OnlyInsertionAddsRuns | token_bench/job_store.py:270-295 | No other step makes a run id appear |
| QueueProtocol.SuccessChangesOnlyByDeletion | token_bench/job_store.py:386-423 | A succeeded job is changed by no step and removed only by deleting it |

## Left out

- PublishTransaction.DataDir.Publish: calls are serial; waiting for the publication lock and giving up on it are not modelled, nor is the staging directory as single file operations, since no other call looks into it. Readers during a swap and durability on power loss are not promised by the code.
- LedgerSync.CollectJobs: cells of a row other than key and status are copied as given; base64, JSON and header bytes are not modelled. The key fallback of `_publish_jobs` is taken on the job's run id, which is the one in its result. Washout gaps and auxiliary token columns are such cells.
- LedgerHistory.LedgerSurvivesEveryHistory: starts from tables in which every key stands beside a publishable status, as an empty ledger does; a job's run id has no `#`, as the workspace makes them.
- LedgerTurns.AttemptsKeepTheirTurns: asks for consistent tables; `TurnsAreAppended` and `WhenTurnsAreMixed` say what happens in the others.
- LedgerHistory.SyncKeepsTurnsAndComparison: the comparison appears as `Derived` of the summary's rows; what that table then holds is the subject of `Comparison`, on the parsed columns.
- Comparison.RebuildComparison: starts from a summary that exists; a missing summary file leaves the comparison untouched. Numbers are exact reals until they are rounded.
- Transcript.AssistantMessages: the five dictionaries with equal keys are one map of records; `tool_target` is a parameter; parsing of lines and removal of sub-agent rows happen before.
- ActivityLog.ExtractTurns: the columns for thinking and one-hour cache tokens and the separate input columns are copied values and are not modelled.
- Collect.ConditionPriority: the declared conditions are a parameter; their ids and labels are unique, as the loader checks.
- CsvReader.ParsePrint: strings are sequences of characters; decoding of bytes is not modelled.
- JobRunner.ProcessJob: snapshot, preflight, fingerprints, the child process, its transcript and the place at which something is raised are inputs; an error of the database itself is not.
- JobStore.Store.Enqueue: hashing and validation of plans are not modelled; an approval carries its plan and digest.
- QueueRunner.Runner.Run: web actions and stops fall before the claim or while a job is at work; sleeping between rounds is not modelled, nor are errors of the database itself.
- Collect.NobodyGetsAhead: which conditions can be run at a tick, and whether the one taken adds a sample, is input; the limit on attempts per tick is such a tick without a sample.
- QueueProtocol.AtMostOneJobRuns: mutual exclusion of the worker lock and serial transactions are assumed.
- Charts, tables and the baseline choice of the page, HTTP handlers, argument parsing, the site build, condition files, workspaces and digests, preflight, evaluation and diagnosis.
