/** Laws of the comparison table. */
module ComparisonLaws {
  import opened Wrappers
  import opened SummaryTable
  import opened Rounding
  import opened Grouping
  import opened Comparison

  /** A table with the comparison's properties is the only one. */
  lemma ComparisonIsDetermined(out: seq<OutRow>, out': seq<OutRow>, runs: seq<Run>)
    requires IsComparison(out, runs) && IsComparison(out', runs)
    ensures out == out'
  {
    forall o
      ensures o in out <==> o in out'
    {
      MemberIsReported(out, runs, o);
      MemberIsReported(out', runs, o);
    }
    RowLessIsAsymmetric();
    AscendingIsUnique(out, out', RowLess);
  }

  lemma MemberIsReported(out: seq<OutRow>, runs: seq<Run>, o: OutRow)
    requires IsComparison(out, runs)
    ensures o in out <==> Reported(runs, CellOfRow(o)) && o == RowFor(runs, CellOfRow(o))
  {
  }

  lemma RowLessIsAsymmetric()
    ensures forall a, b :: RowLess(a, b) ==> !RowLess(b, a)
  {
    forall a, b | RowLess(a, b)
      ensures !RowLess(b, a)
    {
      CellLessIsAsymmetric(CellOfRow(a), CellOfRow(b));
    }
  }

  lemma CellLessIsAsymmetric(a: Cell, b: Cell)
    ensures CellLess(a, b) ==> !CellLess(b, a)
  {
    LessIsAsymmetric(a.cohort.0, b.cohort.0);
    LessIsAsymmetric(a.cohort.1, b.cohort.1);
    LessIsAsymmetric(a.date, b.date);
    LessIsAsymmetric(a.condition, b.condition);
    LessIsTotal(a.cohort.0, a.cohort.0);
    LessIsTotal(a.cohort.1, a.cohort.1);
  }

  // ---------- partition ----------

  predicate FallsIn(r: Run, q: Cell) {
    r.condition != BASELINE_CONDITION && CellOf(r) == q
  }

  /** How many treatments fall in a cell. */
  function Count(runs: seq<Run>, q: Cell): nat {
    if runs == [] then 0
    else Count(runs[..|runs| - 1], q) + if FallsIn(runs[|runs| - 1], q) then 1 else 0
  }

  lemma GroupOneMore(runs: seq<Run>, r: Run, q: Cell)
    ensures Group(runs + [r], q) == Group(runs, q) + if FallsIn(r, q) then [r] else []
  {
    assert CellOf(r) == q <==> CohortOf(r) == q.cohort && DateOf(r) == q.date && ConditionOf(r) == q.condition;
    var cohort := Members(runs, CohortOf, q.cohort);
    var treated := Treatments(cohort);
    var dated := Members(treated, DateOf, q.date);
    MembersOneMore(runs, r, CohortOf, q.cohort);
    if CohortOf(r) != q.cohort {
      assert Members(runs + [r], CohortOf, q.cohort) == cohort;
      return;
    }
    TreatmentsOneMore(cohort, r);
    if r.condition == BASELINE_CONDITION {
      assert Treatments(cohort + [r]) == treated;
      return;
    }
    MembersOneMore(treated, r, DateOf, q.date);
    if DateOf(r) != q.date {
      assert Members(treated + [r], DateOf, q.date) == dated;
      return;
    }
    MembersOneMore(dated, r, ConditionOf, q.condition);
  }

  lemma TreatmentsOneMore(runs: seq<Run>, r: Run)
    ensures Treatments(runs + [r]) == Treatments(runs) + if r.condition != BASELINE_CONDITION then [r] else []
  {
    assert (runs + [r])[..|runs|] == runs;
  }

  lemma {:induction false} GroupSize(runs: seq<Run>, q: Cell)
    ensures |Group(runs, q)| == Count(runs, q)
  {
    if runs == [] {
    } else {
      var init, last := runs[..|runs| - 1], runs[|runs| - 1];
      assert runs == init + [last];
      GroupSize(init, q);
      GroupOneMore(init, last, q);
    }
  }

  /** Every treatment of a cohort with a baseline is counted in exactly one row, the
      one of its model, prompt, date and condition, which counts just such treatments. */
  lemma EveryTreatmentInOneRow(out: seq<OutRow>, runs: seq<Run>, r: Run)
    requires IsComparison(out, runs) && r in runs && r.condition != BASELINE_CONDITION
    requires Baseline(Members(runs, CohortOf, CohortOf(r))) != []
    ensures exists i :: 0 <= i < |out| && CellOfRow(out[i]) == CellOf(r) && out[i].line.runs == Count(runs, CellOf(r))
    ensures forall i, j :: 0 <= i < j < |out| ==> CellOfRow(out[i]) != CellOfRow(out[j])
  {
    var q := CellOf(r);
    GroupMembers(runs, q);
    GroupSize(runs, q);
    assert Reported(runs, q);
    var i :| 0 <= i < |out| && out[i] == RowFor(runs, q);
    assert CellOfRow(out[i]) == q;
    CellsAreDistinct(out, runs);
  }

  lemma CellsAreDistinct(out: seq<OutRow>, runs: seq<Run>)
    requires IsComparison(out, runs)
    ensures forall i, j :: 0 <= i < j < |out| ==> CellOfRow(out[i]) != CellOfRow(out[j])
  {
    RowLessIsAsymmetric();
    forall i, j | 0 <= i < j < |out|
      ensures CellOfRow(out[i]) != CellOfRow(out[j])
    {
      assert RowLess(out[i], out[j]);
    }
  }

  function TotalRuns(out: seq<OutRow>): nat {
    if out == [] then 0 else TotalRuns(out[..|out| - 1]) + out[|out| - 1].line.runs
  }

  /** How many treatments have a baseline to be compared with. */
  ghost function Comparable(some: seq<Run>, runs: seq<Run>): nat {
    if some == [] then 0
    else
      var last := some[|some| - 1];
      Comparable(some[..|some| - 1], runs)
      + if last.condition != BASELINE_CONDITION && Baseline(Members(runs, CohortOf, CohortOf(last))) != [] then 1 else 0
  }

  function CountsIn(runs: seq<Run>, out: seq<OutRow>): nat {
    if out == [] then 0 else CountsIn(runs, out[..|out| - 1]) + Count(runs, CellOfRow(out[|out| - 1]))
  }

  ghost predicate HasCell(out: seq<OutRow>, q: Cell) {
    exists i :: 0 <= i < |out| && CellOfRow(out[i]) == q
  }

  ghost predicate DistinctCells(out: seq<OutRow>) {
    forall i, j :: 0 <= i < j < |out| ==> CellOfRow(out[i]) != CellOfRow(out[j])
  }

  /** One more run adds one to the counts if some row has its cell. */
  lemma {:induction false} CountsOneMore(runs: seq<Run>, r: Run, out: seq<OutRow>)
    requires DistinctCells(out)
    ensures CountsIn(runs + [r], out) ==
            CountsIn(runs, out) + if r.condition != BASELINE_CONDITION && HasCell(out, CellOf(r)) then 1 else 0
  {
    if out == [] {
    } else {
      var init, last := out[..|out| - 1], out[|out| - 1];
      CountsOneMore(runs, r, init);
      assert (runs + [r])[..|runs|] == runs;
      if HasCell(init, CellOf(r)) {
        var i :| 0 <= i < |init| && CellOfRow(init[i]) == CellOf(r);
        assert CellOfRow(out[i]) == CellOf(r) && CellOfRow(out[i]) != CellOfRow(last);
      } else if CellOfRow(last) == CellOf(r) {
        assert CellOfRow(out[|out| - 1]) == CellOf(r);
      } else {
        assert !HasCell(out, CellOf(r)) by {
          forall i | 0 <= i < |out|
            ensures CellOfRow(out[i]) != CellOf(r)
          {
            assert i < |init| ==> init[i] == out[i];
          }
        }
      }
    }
  }

  lemma {:induction false} CountsAddUp(some: seq<Run>, runs: seq<Run>, out: seq<OutRow>)
    requires DistinctCells(out)
    requires forall r :: r in some && r.condition != BASELINE_CONDITION ==>
               (HasCell(out, CellOf(r)) <==> Baseline(Members(runs, CohortOf, CohortOf(r))) != [])
    ensures CountsIn(some, out) == Comparable(some, runs)
  {
    if some == [] {
      NothingCounted(out);
    } else {
      var init, last := some[..|some| - 1], some[|some| - 1];
      assert some == init + [last];
      CountsAddUp(init, runs, out);
      CountsOneMore(init, last, out);
      assert last in some;
    }
  }

  lemma {:induction false} NothingCounted(out: seq<OutRow>)
    ensures CountsIn([], out) == 0
  {
    if out == [] {
    } else {
      NothingCounted(out[..|out| - 1]);
    }
  }

  lemma {:induction false} RunsAreCounts(out: seq<OutRow>, runs: seq<Run>)
    requires forall i :: 0 <= i < |out| ==> out[i] == RowFor(runs, CellOfRow(out[i]))
    ensures TotalRuns(out) == CountsIn(runs, out)
  {
    if out == [] {
    } else {
      RunsAreCounts(out[..|out| - 1], runs);
      GroupSize(runs, CellOfRow(out[|out| - 1]));
    }
  }

  /** The `runs` column adds up to the number of treatments that have a baseline. */
  lemma ComparisonIsAPartition(out: seq<OutRow>, runs: seq<Run>)
    requires IsComparison(out, runs)
    ensures TotalRuns(out) == Comparable(runs, runs)
  {
    CellsAreDistinct(out, runs);
    forall i | 0 <= i < |out|
      ensures out[i] == RowFor(runs, CellOfRow(out[i]))
    {
      assert out[i] in out;
    }
    forall r | r in runs && r.condition != BASELINE_CONDITION
      ensures HasCell(out, CellOf(r)) <==> Baseline(Members(runs, CohortOf, CohortOf(r))) != []
    {
      if Baseline(Members(runs, CohortOf, CohortOf(r))) != [] {
        EveryTreatmentInOneRow(out, runs, r);
      }
      if HasCell(out, CellOf(r)) {
        var i :| 0 <= i < |out| && CellOfRow(out[i]) == CellOf(r);
        assert out[i] in out;
      }
    }
    RunsAreCounts(out, runs);
    CountsAddUp(runs, runs, out);
  }

  /** Rows are strictly sorted and compare with one to ten baseline runs. */
  lemma RowsAreSortedAndBased(out: seq<OutRow>, runs: seq<Run>, i: nat)
    requires IsComparison(out, runs) && i < |out|
    ensures 1 <= out[i].line.runs
    ensures 1 <= out[i].line.baselineRuns <= BASELINE_WINDOW
    ensures i > 0 ==> CellLess(CellOfRow(out[i - 1]), CellOfRow(out[i]))
  {
    assert out[i] in out;
    var q := CellOfRow(out[i]);
    WindowSize(Baseline(Members(runs, CohortOf, q.cohort)), q.date);
    assert i > 0 ==> RowLess(out[i - 1], out[i]);
  }

  // ---------- what a line says ----------

  ghost predicate WithinRange(group: seq<Run>, base: seq<Run>, column: Run -> real) {
    base != [] && forall i :: 0 <= i < |group| ==>
      Min(Values(base, column)) <= column(group[i]) <= Max(Values(base, column))
  }

  predicate Within(delta: Option<real>, noise: Option<real>) {
    delta.Some? && noise.Some? && -noise.value <= delta.value <= noise.value
  }

  lemma RoundingKeepsWithin(delta: Option<real>, noise: Option<real>)
    requires Within(delta, noise)
    ensures Within(RoundedCell(delta), RoundedCell(noise))
  {
    RoundedIsMonotone(delta.value, noise.value);
    RoundedIsMonotone(-noise.value, delta.value);
    RoundedIsOdd(noise.value);
  }

  lemma ColumnWithinNoise(group: seq<Run>, base: seq<Run>, column: Run -> real)
    requires group != [] && |base| >= 2 && Mean(Values(base, column)) > 0.0 && WithinRange(group, base, column)
    ensures Within(RoundedCell(DeltaPct(Mean(Values(group, column)), Mean(Values(base, column)))),
                   RoundedCell(SpreadPct(Values(base, column))))
  {
    forall i | 0 <= i < |Values(group, column)|
      ensures Min(Values(base, column)) <= Values(group, column)[i] <= Max(Values(base, column))
    {
      assert Values(group, column)[i] == column(group[i]);
    }
    NoiseFloor(Values(group, column), Values(base, column));
    RoundingKeepsWithin(DeltaPct(Mean(Values(group, column)), Mean(Values(base, column))),
                        SpreadPct(Values(base, column)));
  }

  /** The baseline has noise, and the group stays within its range. */
  ghost predicate Quiet(group: seq<Run>, base: seq<Run>, column: Run -> real) {
    |base| >= 2 && Mean(Values(base, column)) > 0.0 && WithinRange(group, base, column)
  }

  /** In every row, a cell whose values stay within the range of its baseline window
      reports a difference no larger than the noise beside it, both as written. */
  lemma NoiseFloorOfRow(out: seq<OutRow>, runs: seq<Run>, o: OutRow)
    requires IsComparison(out, runs) && o in out
    ensures var group, base := Group(runs, CellOfRow(o)), WindowFor(runs, CellOfRow(o).cohort, o.runDate);
            && (Quiet(group, base, Processed) ==> Within(o.line.processedDelta, o.line.noiseProcessed))
            && (Quiet(group, base, Cost) ==> Within(o.line.costDelta, o.line.noiseCost))
  {
    assert Reported(runs, CellOfRow(o)) && o == RowFor(runs, CellOfRow(o));
    LineWithinNoise(o.line.condition, Group(runs, CellOfRow(o)), WindowFor(runs, CellOfRow(o).cohort, o.runDate));
  }

  lemma LineWithinNoise(condition: string, group: seq<Run>, base: seq<Run>)
    requires group != []
    ensures var line := LineFor(condition, group, base);
            && (Quiet(group, base, Processed) ==> Within(line.processedDelta, line.noiseProcessed))
            && (Quiet(group, base, Cost) ==> Within(line.costDelta, line.noiseCost))
  {
    if Quiet(group, base, Processed) {
      ColumnWithinNoise(group, base, Processed);
    }
    if Quiet(group, base, Cost) {
      ColumnWithinNoise(group, base, Cost);
    }
  }

  /** The treatment's mean that a percentage was made from. */
  function MeanBehind(delta: real, base: real): real {
    base + base * delta / 100.0
  }

  lemma DeltaIsInvertible(treatment: real, base: real)
    ensures base == 0.0 <==> DeltaPct(treatment, base).None?
    ensures base != 0.0 ==> MeanBehind(DeltaPct(treatment, base).value, base) == treatment
  {
    if base != 0.0 {
      var delta := 100.0 * (treatment - base) / base;
      assert base * delta == 100.0 * (treatment - base);
    }
  }

  function Abs(x: real): real {
    if x < 0.0 then -x else x
  }

  lemma ProductIsNonNegative(a: real, b: real)
    requires a >= 0.0 && b >= 0.0
    ensures a * b >= 0.0
  {
  }

  lemma Distribute(a: real, b: real, c: real)
    ensures a * (b + c) == a * b + a * c
    ensures a * (b - c) == a * b - a * c
  {
  }

  lemma ScaledError(base: real, error: real, bound: real)
    requires -bound <= error <= bound
    ensures Abs(base * error) <= Abs(base) * bound
  {
    var a := Abs(base);
    ProductIsNonNegative(a, bound - error);
    ProductIsNonNegative(a, bound + error);
    Distribute(a, bound, error);
    assert base * error == a * error || base * error == -(a * error);
  }

  /** A percentage that is off by no more than a bound is that much of the base off. */
  lemma MeanBehindIsNear(delta: real, rounded: real, base: real, bound: real)
    requires delta - bound <= rounded <= delta + bound
    ensures Abs(MeanBehind(rounded, base) - MeanBehind(delta, base)) <= Abs(base) * bound / 100.0
  {
    ScaledError(base, rounded - delta, bound);
    Distribute(base, rounded, delta);
    ErrorInPercent(base * rounded, base * delta, Abs(base) * bound);
  }

  lemma ErrorInPercent(x: real, y: real, bound: real)
    requires Abs(x - y) <= bound
    ensures Abs(x / 100.0 - y / 100.0) <= bound / 100.0
  {
  }

  /** What a written percentage says of the treatment's mean: nothing without a baseline
      mean, and otherwise its value up to half a digit in a hundred. */
  ghost predicate SaysMean(cell: Option<real>, treatment: real, base: real) {
    && (cell.None? <==> base == 0.0)
    && (cell.Some? ==> Abs(MeanBehind(cell.value, base) - treatment) <= Abs(base) * HALF / 100.0)
  }

  lemma WrittenDeltaSaysMean(treatment: real, base: real)
    ensures SaysMean(RoundedCell(DeltaPct(treatment, base)), treatment, base)
  {
    DeltaIsInvertible(treatment, base);
    if base != 0.0 {
      var delta := DeltaPct(treatment, base).value;
      RoundedIsNear(delta);
      MeanBehindIsNear(delta, Rounded(delta), base, HALF);
    }
  }

  /** A written row and the means of its baseline window determine the means of its cell
      up to the rounding. */
  lemma RowSaysMeans(out: seq<OutRow>, runs: seq<Run>, o: OutRow)
    requires IsComparison(out, runs) && o in out
    ensures var group, base := Group(runs, CellOfRow(o)), WindowFor(runs, CellOfRow(o).cohort, o.runDate);
            && SaysMean(o.line.processedDelta, Mean(Values(group, Processed)), Mean(Values(base, Processed)))
            && SaysMean(o.line.costDelta, Mean(Values(group, Cost)), Mean(Values(base, Cost)))
            && SaysMean(o.line.taxDelta, Mean(Values(group, Tax)), Mean(Values(base, Tax)))
            && Abs(Mean(Values(base, Quality)) + o.line.qualityDelta - Mean(Values(group, Quality))) <= HALF
  {
    assert o == RowFor(runs, CellOfRow(o));
    LineSaysMeans(o.line.condition, Group(runs, CellOfRow(o)), WindowFor(runs, CellOfRow(o).cohort, o.runDate));
  }

  lemma LineSaysMeans(condition: string, group: seq<Run>, base: seq<Run>)
    ensures var line := LineFor(condition, group, base);
            && SaysMean(line.processedDelta, Mean(Values(group, Processed)), Mean(Values(base, Processed)))
            && SaysMean(line.costDelta, Mean(Values(group, Cost)), Mean(Values(base, Cost)))
            && SaysMean(line.taxDelta, Mean(Values(group, Tax)), Mean(Values(base, Tax)))
            && Abs(Mean(Values(base, Quality)) + line.qualityDelta - Mean(Values(group, Quality))) <= HALF
  {
    WrittenDeltaSaysMean(Mean(Values(group, Processed)), Mean(Values(base, Processed)));
    WrittenDeltaSaysMean(Mean(Values(group, Cost)), Mean(Values(base, Cost)));
    WrittenDeltaSaysMean(Mean(Values(group, Tax)), Mean(Values(base, Tax)));
    RoundedIsNear(Mean(Values(group, Quality)) - Mean(Values(base, Quality)));
  }

  lemma {:induction false} UntilAreTheEarlier(base: seq<Run>, date: string)
    ensures forall r :: r in Until(base, date) <==> r in base && !Less(date, r.runDate)
  {
    if base == [] {
    } else {
      UntilAreTheEarlier(base[..|base| - 1], date);
      assert base == base[..|base| - 1] + [base[|base| - 1]];
    }
  }

  lemma LatestIsASuffix<T>(s: seq<T>, n: nat)
    ensures var part := Latest(s, n);
            |part| <= |s| && part == s[|s| - |part|..] && (|part| < n ==> part == s)
  {
    if |s| <= n {
      assert s[0..] == s;
    }
  }

  /** The window never looks past the date while it has a choice, takes the latest
      in file order, and drops a run only when it is full. */
  lemma WindowTakesTheLatest(base: seq<Run>, date: string)
    ensures var window, earlier := BaselineWindow(base, date), Until(base, date);
            && (earlier != [] <==> exists r :: r in base && !Less(date, r.runDate))
            && (earlier != [] ==> |window| <= |earlier| && window == earlier[|earlier| - |window|..])
            && (earlier == [] ==> window <= base)
            && (forall r :: r in window && earlier != [] ==> r in base && !Less(date, r.runDate))
            && (|window| < BASELINE_WINDOW ==>
                  (forall r :: r in base && !Less(date, r.runDate) ==> r in window))
  {
    var window, earlier := BaselineWindow(base, date), Until(base, date);
    UntilAreTheEarlier(base, date);
    if earlier != [] {
      LatestIsASuffix(earlier, BASELINE_WINDOW);
      assert earlier[0] in earlier;
      SuffixMembers(earlier, |earlier| - |window|);
    }
  }

  lemma SuffixMembers(runs: seq<Run>, k: nat)
    requires k <= |runs|
    ensures forall r :: r in runs[k..] ==> r in runs
  {
  }

  // ---------- no leakage from the future ----------

  ghost predicate AllAfter(later: seq<Run>, date: string) {
    forall i :: 0 <= i < |later| ==> Less(date, later[i].runDate)
  }

  /** A baseline run is dated at or before the date, or the window is full anyway. */
  ghost predicate Settled(runs: seq<Run>, cohort: Cohort, date: string) {
    var base := Baseline(Members(runs, CohortOf, cohort));
    Until(base, date) != [] || |base| >= BASELINE_WINDOW
  }

  lemma {:induction false} LaterRunsAreInOtherCells(runs: seq<Run>, later: seq<Run>, q: Cell)
    requires AllAfter(later, q.date)
    ensures Group(runs + later, q) == Group(runs, q)
  {
    if later == [] {
      assert runs + later == runs;
    } else {
      var init, last := later[..|later| - 1], later[|later| - 1];
      LaterRunsAreInOtherCells(runs, init, q);
      LessIsTotal(q.date, last.runDate);
      assert runs + later == runs + init + [last];
      GroupOneMore(runs + init, last, q);
    }
  }

  lemma {:induction false} UntilIgnoresLater(base: seq<Run>, later: seq<Run>, date: string)
    requires AllAfter(later, date)
    ensures Until(base + later, date) == Until(base, date)
  {
    if later == [] {
      assert base + later == base;
    } else {
      assert (base + later)[..|base + later| - 1] == base + later[..|later| - 1];
      UntilIgnoresLater(base, later[..|later| - 1], date);
    }
  }

  lemma {:induction false} MembersAllAfter<K>(later: seq<Run>, key: Run -> K, k: K, date: string)
    requires AllAfter(later, date)
    ensures AllAfter(Members(later, key, k), date)
  {
    if later == [] {
    } else {
      MembersAllAfter(later[..|later| - 1], key, k, date);
    }
  }

  lemma BaselineGrows(runs: seq<Run>, later: seq<Run>, cohort: Cohort)
    ensures Baseline(Members(runs + later, CohortOf, cohort)) ==
            Baseline(Members(runs, CohortOf, cohort)) + Baseline(Members(later, CohortOf, cohort))
  {
    MembersConcat(runs, later, CohortOf, cohort);
    MembersConcat(Members(runs, CohortOf, cohort), Members(later, CohortOf, cohort), ConditionOf, BASELINE_CONDITION);
  }

  lemma SettledWindowStands(runs: seq<Run>, later: seq<Run>, cohort: Cohort, date: string)
    requires AllAfter(later, date) && Settled(runs, cohort, date)
    ensures WindowFor(runs + later, cohort, date) == WindowFor(runs, cohort, date)
    ensures Baseline(Members(runs + later, CohortOf, cohort)) != []
    ensures Baseline(Members(runs, CohortOf, cohort)) != []
  {
    var base, added := Baseline(Members(runs, CohortOf, cohort)), Baseline(Members(later, CohortOf, cohort));
    BaselineGrows(runs, later, cohort);
    MembersAllAfter(later, CohortOf, cohort, date);
    MembersAllAfter(Members(later, CohortOf, cohort), ConditionOf, BASELINE_CONDITION, date);
    UntilIgnoresLater(base, added, date);
    if Until(base, date) == [] {
      assert (base + added)[..BASELINE_WINDOW] == base[..BASELINE_WINDOW];
      assert base[..|base|] == base && (base + added)[..|base|] == base;
    }
  }

  /** Runs dated after a day leave every row of that day as it was, if the baseline
      of its cohort was settled. */
  lemma NoLeakageFromTheFuture(out: seq<OutRow>, runs: seq<Run>, out': seq<OutRow>, later: seq<Run>, o: OutRow)
    requires IsComparison(out, runs) && IsComparison(out', runs + later)
    requires AllAfter(later, o.runDate) && Settled(runs, (o.model, o.promptId), o.runDate)
    ensures o in out <==> o in out'
  {
    var q := CellOfRow(o);
    LaterRunsAreInOtherCells(runs, later, q);
    SettledWindowStands(runs, later, q.cohort, q.date);
    assert RowFor(runs + later, q) == RowFor(runs, q);
    assert Reported(runs + later, q) <==> Reported(runs, q);
  }

  /** The condition is needed: an unsettled row is changed, or first appears, by the
      next baseline run. */
  lemma UnsettledRowsChange(out: seq<OutRow>, runs: seq<Run>, out': seq<OutRow>, next: Run, q: Cell)
    requires IsComparison(out, runs) && IsComparison(out', runs + [next])
    requires Group(runs, q) != [] && !Settled(runs, q.cohort, q.date)
    requires next.condition == BASELINE_CONDITION && CohortOf(next) == q.cohort && Less(q.date, next.runDate)
    ensures RowFor(runs + [next], q) in out' && RowFor(runs + [next], q) !in out
    ensures RowFor(runs, q) !in out'
  {
    LaterRunsAreInOtherCells(runs, [next], q);
    UnsettledWindowGrows(runs, next, q.cohort, q.date);
    MemberIsReported(out, runs, RowFor(runs + [next], q));
    MemberIsReported(out', runs + [next], RowFor(runs + [next], q));
    MemberIsReported(out', runs + [next], RowFor(runs, q));
  }

  lemma UnsettledWindowGrows(runs: seq<Run>, next: Run, cohort: Cohort, date: string)
    requires !Settled(runs, cohort, date)
    requires next.condition == BASELINE_CONDITION && CohortOf(next) == cohort && Less(date, next.runDate)
    ensures |WindowFor(runs + [next], cohort, date)| == |WindowFor(runs, cohort, date)| + 1
    ensures Baseline(Members(runs + [next], CohortOf, cohort)) != []
  {
    var members := Members(runs, CohortOf, cohort);
    MembersOneMore(runs, next, CohortOf, cohort);
    MembersOneMore(members, next, ConditionOf, BASELINE_CONDITION);
    UntilIgnoresLater(Baseline(members), [next], date);
  }

  lemma {:induction false} EligibleConcat(rows: seq<SummaryRow>, more: seq<SummaryRow>)
    ensures Eligible(rows + more) == Eligible(rows) + Eligible(more)
  {
    if more == [] {
      assert rows + more == rows;
    } else {
      assert (rows + more)[..|rows + more| - 1] == rows + more[..|more| - 1];
      EligibleConcat(rows, more[..|more| - 1]);
    }
  }

  /** The same for the file itself: appending summary rows dated after a day leaves the
      rows of that day as they were. */
  lemma AppendedRowsDoNotLeak(rows: seq<SummaryRow>, more: seq<SummaryRow>, out: seq<OutRow>, out': seq<OutRow>,
                              o: OutRow)
    requires IsComparison(out, Eligible(rows)) && IsComparison(out', Eligible(rows + more))
    requires AllAfter(Eligible(more), o.runDate) && Settled(Eligible(rows), (o.model, o.promptId), o.runDate)
    ensures o in out <==> o in out'
  {
    EligibleConcat(rows, more);
    NoLeakageFromTheFuture(out, Eligible(rows), out', Eligible(more), o);
  }
}
