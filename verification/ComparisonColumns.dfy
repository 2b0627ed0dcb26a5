/** What the columns of the comparison table say of the summary's columns. */
module ComparisonColumns {
  import opened Wrappers
  import opened Sequences
  import opened SummaryTable
  import opened Rounding
  import opened Grouping
  import opened Comparison
  import opened ComparisonLaws

  // ---------- sums and means ----------

  lemma {:induction false} SumOfParts(a: seq<real>, b: seq<real>)
    ensures Sum([]) == 0.0
    ensures Sum(a + b) == Sum(a) + Sum(b)
  {
    if b == [] {
      assert a + b == a;
    } else {
      assert (a + b)[..|a + b| - 1] == a + b[..|b| - 1];
      SumOfParts(a, b[..|b| - 1]);
    }
  }

  lemma SumOfOne(x: real)
    ensures Sum([x]) == x
  {
    assert [x][..0] == [];
  }

  /** The mean times the number of values is their total. */
  lemma MeanTimesCount(values: seq<real>)
    ensures |values| as real * Mean(values) == Sum(values)
  {
    if values != [] {
      assert Sum(values) / |values| as real * |values| as real == Sum(values);
    }
  }

  lemma MeanOfOne(x: real)
    ensures Mean([x]) == x
  {
    SumOfOne(x);
    MeanTimesCount([x]);
    assert |[x]| as real == 1.0;
  }

  /** Two lists together have the mean of both, each weighted by its length. */
  lemma MeanOfParts(a: seq<real>, b: seq<real>)
    ensures |a + b| as real * Mean(a + b) == |a| as real * Mean(a) + |b| as real * Mean(b)
  {
    MeanTimesCount(a);
    MeanTimesCount(b);
    MeanTimesCount(a + b);
    SumOfParts(a, b);
  }

  // ---------- the runs of a row ----------

  predicate MayBeAveraged(row: SummaryRow) {
    row.measurable == "1" && row.quality.Some?
  }

  predicate SameRow(a: SummaryRow, b: SummaryRow) {
    a == b
  }

  function EligibleRows(rows: seq<SummaryRow>): seq<SummaryRow> {
    Eligible(rows)
  }

  lemma EligibleOneMore(rows: seq<SummaryRow>, row: SummaryRow)
    ensures EligibleRows(rows + [row]) == EligibleRows(rows) + if MayBeAveraged(row) then [row] else []
  {
    assert (rows + [row])[..|rows|] == rows;
  }

  /** Every measurable and evaluated row takes part, in file order. */
  lemma {:induction false} EligibleAreThose(rows: seq<SummaryRow>)
    ensures EligibleRows(rows) == Eligible(rows)
    ensures Picked(rows, MayBeAveraged, SameRow, EligibleRows(rows))
  {
    if rows == [] {
      NothingPicked<SummaryRow, SummaryRow>(MayBeAveraged, SameRow);
    } else {
      var init, last := rows[..|rows| - 1], rows[|rows| - 1];
      assert init + [last] == rows;
      EligibleAreThose(init);
      EligibleOneMore(init, last);
      PickedLast(init, last, MayBeAveraged, SameRow, EligibleRows(init), if MayBeAveraged(last) then [last] else []);
    }
  }

  predicate Same(a: Run, b: Run) {
    a == b
  }

  function IsTreatment(model: string, prompt: string, date: string, condition: string): Run -> bool {
    (r: Run) =>
      r.model == model && r.promptId == prompt && r.runDate == date && r.condition == condition && condition != "BASE"
  }

  /** A cell averages the treatments of its model, prompt, date and condition, in file order. */
  lemma {:induction false} GroupAreThose(runs: seq<Run>, model: string, prompt: string, date: string, condition: string)
    ensures Picked(runs, IsTreatment(model, prompt, date, condition), Same,
                   Group(runs, Cell((model, prompt), date, condition)))
  {
    var keep, q := IsTreatment(model, prompt, date, condition), Cell((model, prompt), date, condition);
    if runs == [] {
      NothingPicked<Run, Run>(keep, Same);
    } else {
      var init, last := runs[..|runs| - 1], runs[|runs| - 1];
      assert init + [last] == runs;
      GroupAreThose(init, model, prompt, date, condition);
      GroupOneMore(init, last, q);
      PickedLast(init, last, keep, Same, Group(init, q), if FallsIn(last, q) then [last] else []);
    }
  }

  function IsBase(model: string, prompt: string): Run -> bool {
    (r: Run) => r.model == model && r.promptId == prompt && r.condition == "BASE"
  }

  lemma BaselineOneMore(runs: seq<Run>, r: Run, cohort: Cohort)
    ensures Baseline(Members(runs + [r], CohortOf, cohort)) ==
            Baseline(Members(runs, CohortOf, cohort)) + if IsBase(cohort.0, cohort.1)(r) then [r] else []
  {
    BaselineGrows(runs, [r], cohort);
    MembersOneMore([], r, CohortOf, cohort);
    assert [] + [r] == [r];
    MembersOneMore([], r, ConditionOf, BASELINE_CONDITION);
  }

  /** A cohort's baseline are its BASE runs, in file order. */
  lemma {:induction false} BaselineAreThose(runs: seq<Run>, model: string, prompt: string)
    ensures Picked(runs, IsBase(model, prompt), Same, Baseline(Members(runs, CohortOf, (model, prompt))))
  {
    var keep := IsBase(model, prompt);
    if runs == [] {
      NothingPicked<Run, Run>(keep, Same);
    } else {
      var init, last := runs[..|runs| - 1], runs[|runs| - 1];
      assert init + [last] == runs;
      BaselineAreThose(init, model, prompt);
      BaselineOneMore(init, last, (model, prompt));
      PickedLast(init, last, keep, Same, Baseline(Members(init, CohortOf, (model, prompt))),
                 if keep(last) then [last] else []);
    }
  }

  function NotAfter(date: string): Run -> bool {
    (r: Run) => !Less(date, r.runDate)
  }

  /** The runs the window chooses from are those not dated later, in file order. */
  lemma {:induction false} UntilAreThose(base: seq<Run>, date: string)
    ensures Picked(base, NotAfter(date), Same, Until(base, date))
  {
    if base == [] {
      NothingPicked<Run, Run>(NotAfter(date), Same);
    } else {
      var init, last := base[..|base| - 1], base[|base| - 1];
      assert init + [last] == base;
      UntilAreThose(init, date);
      PickedLast(init, last, NotAfter(date), Same, Until(init, date), if NotAfter(date)(last) then [last] else []);
    }
  }

  /** The window: the last ten of those, or the first ten of all if there is none. */
  lemma WindowIsTenAtMost(base: seq<Run>, date: string)
    ensures var window, earlier := BaselineWindow(base, date), Until(base, date);
            && (1 <= |earlier| <= 10 ==> window == earlier)
            && (|earlier| > 10 ==> window == earlier[|earlier| - 10..])
            && (earlier == [] && |base| <= 10 ==> window == base)
            && (earlier == [] && |base| > 10 ==> window == base[..10])
  {
  }

  // ---------- the columns ----------

  function ProcessedOf(runs: seq<Run>): (r: seq<real>)
    ensures |r| == |runs|
  {
    seq(|runs|, i requires 0 <= i < |runs| => runs[i].processed)
  }

  function CostOf(runs: seq<Run>): (r: seq<real>)
    ensures |r| == |runs|
  {
    seq(|runs|, i requires 0 <= i < |runs| => runs[i].cost)
  }

  function TaxOf(runs: seq<Run>): (r: seq<real>)
    ensures |r| == |runs|
  {
    seq(|runs|, i requires 0 <= i < |runs| => runs[i].tax)
  }

  function QualityOf(runs: seq<Run>): (r: seq<real>)
    ensures |r| == |runs|
  {
    seq(|runs|, i requires 0 <= i < |runs| => runs[i].quality.value)
  }

  lemma ColumnIs(runs: seq<Run>, column: Run -> real, values: seq<real>)
    requires |values| == |runs| && forall i :: 0 <= i < |runs| ==> values[i] == column(runs[i])
    ensures Values(runs, column) == values
  {
  }

  lemma ColumnsAreThose(runs: seq<Run>)
    ensures Values(runs, Processed) == ProcessedOf(runs) && Values(runs, Cost) == CostOf(runs)
    ensures Values(runs, Tax) == TaxOf(runs) && Values(runs, Quality) == QualityOf(runs)
  {
    ColumnIs(runs, Processed, ProcessedOf(runs));
    ColumnIs(runs, Cost, CostOf(runs));
    ColumnIs(runs, Tax, TaxOf(runs));
    ColumnIs(runs, Quality, QualityOf(runs));
  }

  /** What a written percentage says of the totals: it is left out exactly when the
      baseline adds up to nothing; otherwise the number of treatments, times what the
      percentage makes of the baseline's total per run, is the treatments' total, up to
      half of the last digit in a hundred for each treatment. */
  ghost predicate SaysTotal(cell: Option<real>, treated: seq<real>, base: seq<real>)
    requires base != []
  {
    && (cell.None? <==> Sum(base) == 0.0)
    && (cell.Some? ==> TotalWithin(cell.value, |treated| as real, Sum(treated), Sum(base) / |base| as real))
  }

  ghost predicate TotalWithin(percent: real, n: real, total: real, perRun: real) {
    Abs(n * (perRun + perRun * percent / 100.0) - total) <= n * (Abs(perRun) * HALF / 100.0)
  }

  lemma ScaledDifference(n: real, x: real, y: real, bound: real)
    requires n >= 0.0 && Abs(x - y) <= bound
    ensures Abs(n * x - n * y) <= n * bound
  {
    Distribute(n, x, y);
    ProductIsNonNegative(n, bound - (x - y));
    ProductIsNonNegative(n, bound + (x - y));
    Distribute(n, bound, x - y);
  }

  lemma MeanSaysTotal(percent: real, n: real, mean: real, total: real, perRun: real)
    requires n >= 0.0 && n * mean == total
    requires Abs(MeanBehind(percent, perRun) - mean) <= Abs(perRun) * HALF / 100.0
    ensures TotalWithin(percent, n, total, perRun)
  {
    ScaledDifference(n, MeanBehind(percent, perRun), mean, Abs(perRun) * HALF / 100.0);
  }

  lemma ZeroMeans(values: seq<real>)
    requires values != []
    ensures Mean(values) == Sum(values) / |values| as real
    ensures Mean(values) == 0.0 <==> Sum(values) == 0.0
  {
    MeanTimesCount(values);
  }

  lemma WrittenDeltaSaysTotal(treated: seq<real>, base: seq<real>)
    requires base != []
    ensures SaysTotal(RoundedCell(DeltaPct(Mean(treated), Mean(base))), treated, base)
  {
    var cell := RoundedCell(DeltaPct(Mean(treated), Mean(base)));
    WrittenDeltaSaysMean(Mean(treated), Mean(base));
    ZeroMeans(base);
    MeanTimesCount(treated);
    if cell.Some? {
      MeanSaysTotal(cell.value, |treated| as real, Mean(treated), Sum(treated), Mean(base));
    }
  }

  /** Main result: a written row gives back the totals of its columns: the tokens, the cost
      and the tax of its treatments from those of its window, and the difference of the
      qualities per run, all up to the rounding. */
  lemma RowSaysTotals(out: seq<OutRow>, runs: seq<Run>, o: OutRow)
    requires IsComparison(out, runs) && o in out
    ensures var group := Group(runs, Cell((o.model, o.promptId), o.runDate, o.line.condition));
            var base := WindowFor(runs, (o.model, o.promptId), o.runDate);
            && base != [] && o.line.runs == |group| > 0 && o.line.baselineRuns == |base|
            && SaysTotal(o.line.processedDelta, ProcessedOf(group), ProcessedOf(base))
            && SaysTotal(o.line.costDelta, CostOf(group), CostOf(base))
            && SaysTotal(o.line.taxDelta, TaxOf(group), TaxOf(base))
            && Abs(Sum(QualityOf(group)) / |group| as real - Sum(QualityOf(base)) / |base| as real
                   - o.line.qualityDelta) <= HALF
  {
    var q := CellOfRow(o);
    assert Reported(runs, q) && o == RowFor(runs, q);
    var group, base := Group(runs, q), WindowFor(runs, q.cohort, o.runDate);
    WindowIsThere(runs, q);
    LineSaysTotals(o.line.condition, group, base);
  }

  lemma WindowIsThere(runs: seq<Run>, q: Cell)
    requires Reported(runs, q)
    ensures WindowFor(runs, q.cohort, q.date) != []
  {
    WindowSize(Baseline(Members(runs, CohortOf, q.cohort)), q.date);
  }

  lemma LineSaysTotals(condition: string, group: seq<Run>, base: seq<Run>)
    requires group != [] && base != []
    ensures var line := LineFor(condition, group, base);
            && SaysTotal(line.processedDelta, ProcessedOf(group), ProcessedOf(base))
            && SaysTotal(line.costDelta, CostOf(group), CostOf(base))
            && SaysTotal(line.taxDelta, TaxOf(group), TaxOf(base))
            && Abs(Sum(QualityOf(group)) / |group| as real - Sum(QualityOf(base)) / |base| as real
                   - line.qualityDelta) <= HALF
  {
    ColumnsAreThose(group);
    ColumnsAreThose(base);
    WrittenDeltaSaysTotal(ProcessedOf(group), ProcessedOf(base));
    WrittenDeltaSaysTotal(CostOf(group), CostOf(base));
    WrittenDeltaSaysTotal(TaxOf(group), TaxOf(base));
    ZeroMeans(QualityOf(group));
    ZeroMeans(QualityOf(base));
    RoundedIsNear(Mean(QualityOf(group)) - Mean(QualityOf(base)));
  }

  // ---------- noise ----------

  /** The least and the greatest of the values. */
  ghost predicate Extremes(values: seq<real>, lo: real, hi: real) {
    lo in values && hi in values && forall i :: 0 <= i < |values| ==> lo <= values[i] <= hi
  }

  /** The noise beside the differences: left out for a single run, zero if the runs add up
      to nothing, and otherwise the range in percent of the mean, up to the rounding. */
  ghost predicate SaysNoise(cell: Option<real>, base: seq<real>)
    requires base != []
  {
    var perRun := Sum(base) / |base| as real;
    && (cell.None? <==> |base| == 1)
    && (cell.Some? && perRun == 0.0 ==> cell.value == 0.0)
    && (cell.Some? && perRun != 0.0 ==>
          forall lo, hi :: Extremes(base, lo, hi) ==> RangeWithin(cell.value, hi - lo, perRun))
  }

  ghost predicate RangeWithin(percent: real, range: real, perRun: real) {
    Abs(perRun * percent / 100.0 - range) <= Abs(perRun) * HALF / 100.0
  }

  lemma RoundedZero()
    ensures Rounded(0.0) == 0.0
  {
  }

  lemma ExtremesAre(values: seq<real>, lo: real, hi: real)
    requires values != [] && Extremes(values, lo, hi)
    ensures Max(values) == hi && Min(values) == lo
  {
  }

  lemma PercentBack(x: real, d: real)
    requires d != 0.0
    ensures d * (100.0 * x / d) / 100.0 == x
  {
    assert d * (100.0 * x / d) == 100.0 * x;
  }

  lemma RoundedPercent(range: real, perRun: real)
    requires perRun != 0.0
    ensures RangeWithin(Rounded(100.0 * range / perRun), range, perRun)
  {
    var percent := 100.0 * range / perRun;
    PercentBack(range, perRun);
    RoundedIsNear(percent);
    MeanBehindIsNear(percent, Rounded(percent), perRun, HALF);
  }

  lemma WrittenSpreadSaysNoise(base: seq<real>)
    requires base != []
    ensures SaysNoise(RoundedCell(SpreadPct(base)), base)
  {
    ZeroMeans(base);
    RoundedZero();
    var perRun := Mean(base);
    forall lo, hi | |base| >= 2 && perRun != 0.0 && Extremes(base, lo, hi)
      ensures RangeWithin(Rounded(SpreadPct(base).value), hi - lo, perRun)
    {
      ExtremesAre(base, lo, hi);
      RoundedPercent(hi - lo, perRun);
    }
  }

  /** Every row says the noise of its window. */
  lemma RowSaysNoise(out: seq<OutRow>, runs: seq<Run>, o: OutRow)
    requires IsComparison(out, runs) && o in out
    ensures var base := WindowFor(runs, (o.model, o.promptId), o.runDate);
            && base != []
            && SaysNoise(o.line.noiseProcessed, ProcessedOf(base)) && SaysNoise(o.line.noiseCost, CostOf(base))
  {
    var q := CellOfRow(o);
    assert o == RowFor(runs, q);
    var base := WindowFor(runs, q.cohort, o.runDate);
    WindowSize(Baseline(Members(runs, CohortOf, q.cohort)), q.date);
    ColumnsAreThose(base);
    WrittenSpreadSaysNoise(ProcessedOf(base));
    WrittenSpreadSaysNoise(CostOf(base));
  }

  // ---------- the order of rows ----------

  /** Rows are in order of model, prompt, date and condition, in this order. */
  lemma RowsInOrder(out: seq<OutRow>, runs: seq<Run>, i: nat, j: nat)
    requires IsComparison(out, runs) && i < j < |out|
    ensures var a, b := out[i], out[j];
            || Less(a.model, b.model)
            || (a.model == b.model && Less(a.promptId, b.promptId))
            || (a.model == b.model && a.promptId == b.promptId && Less(a.runDate, b.runDate))
            || (a.model == b.model && a.promptId == b.promptId && a.runDate == b.runDate
                && Less(a.line.condition, b.line.condition))
  {
    assert RowLess(out[i], out[j]);
  }

  /** A row is there for exactly the cells with a treatment whose cohort has a BASE run. */
  lemma WhichRowsAreThere(out: seq<OutRow>, runs: seq<Run>,
                          model: string, prompt: string, date: string, condition: string)
    requires IsComparison(out, runs)
    ensures (exists o :: o in out && o.model == model && o.promptId == prompt && o.runDate == date
                         && o.line.condition == condition)
            <==>
            (exists r :: r in runs && IsTreatment(model, prompt, date, condition)(r))
            && (exists b :: b in runs && IsBase(model, prompt)(b))
  {
    var q := Cell((model, prompt), date, condition);
    ReportedMeans(runs, q);
    if o :| o in out && o.model == model && o.promptId == prompt && o.runDate == date && o.line.condition == condition {
      assert CellOfRow(o) == q;
    }
    if Reported(runs, q) {
      assert RowFor(runs, q) in out && CellOfRow(RowFor(runs, q)) == q;
    }
  }

  lemma GroupIsThere(runs: seq<Run>, q: Cell)
    ensures Group(runs, q) != [] <==>
            exists r :: r in runs && IsTreatment(q.cohort.0, q.cohort.1, q.date, q.condition)(r)
  {
    var group := Group(runs, q);
    GroupMembers(runs, q);
    if group != [] {
      assert group[0] in group;
      assert IsTreatment(q.cohort.0, q.cohort.1, q.date, q.condition)(group[0]);
    }
    if r :| r in runs && IsTreatment(q.cohort.0, q.cohort.1, q.date, q.condition)(r) {
      assert CellOf(r) == q;
      assert r in group;
    }
  }

  lemma BaselineIsThere(runs: seq<Run>, cohort: Cohort)
    ensures Baseline(Members(runs, CohortOf, cohort)) != [] <==>
            exists b :: b in runs && IsBase(cohort.0, cohort.1)(b)
  {
    var base := Baseline(Members(runs, CohortOf, cohort));
    MembersAreTheItems(runs, CohortOf, cohort);
    MembersAreTheItems(Members(runs, CohortOf, cohort), ConditionOf, BASELINE_CONDITION);
    if base != [] {
      assert base[0] in base;
      assert IsBase(cohort.0, cohort.1)(base[0]);
    }
    if b :| b in runs && IsBase(cohort.0, cohort.1)(b) {
      assert b in base;
    }
  }

  lemma ReportedMeans(runs: seq<Run>, q: Cell)
    ensures Reported(runs, q) <==>
            (exists r :: r in runs && IsTreatment(q.cohort.0, q.cohort.1, q.date, q.condition)(r))
            && (exists b :: b in runs && IsBase(q.cohort.0, q.cohort.1)(b))
  {
    GroupIsThere(runs, q);
    BaselineIsThere(runs, q.cohort);
  }
}
