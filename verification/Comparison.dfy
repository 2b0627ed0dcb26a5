/** The comparison table recomputed from the run summary (`token_bench/ledger.py`:
    `rebuild_comparison` and what it calls). */
module Comparison {
  import opened Wrappers
  import opened SummaryTable
  import opened Rounding
  import opened Grouping

  const BASELINE_CONDITION := "BASE"
  const BASELINE_WINDOW := 10

  /** A summary row that may be averaged: measurable and evaluated. */
  type Run = r: SummaryRow | r.measurable == "1" && r.quality.Some?
    witness SummaryRow("", "", "", "", "", "1", Some(0.0), 0.0, 0.0, 0.0)

  function Eligible(rows: seq<SummaryRow>): seq<Run> {
    if rows == [] then []
    else
      var last := rows[|rows| - 1];
      Eligible(rows[..|rows| - 1]) + if last.measurable == "1" && last.quality.Some? then [last] else []
  }

  // ---------- statistics ----------

  function Sum(values: seq<real>): real {
    if values == [] then 0.0 else Sum(values[..|values| - 1]) + values[|values| - 1]
  }

  function Mean(values: seq<real>): real {
    if values == [] then 0.0 else Sum(values) / |values| as real
  }

  function Max(values: seq<real>): (m: real)
    requires values != []
    ensures m in values && forall i :: 0 <= i < |values| ==> values[i] <= m
  {
    var last := values[|values| - 1];
    if |values| == 1 then last
    else
      var m := Max(values[..|values| - 1]);
      assert m in values[..|values| - 1];
      if m < last then last else m
  }

  function Min(values: seq<real>): (m: real)
    requires values != []
    ensures m in values && forall i :: 0 <= i < |values| ==> m <= values[i]
  {
    var last := values[|values| - 1];
    if |values| == 1 then last
    else
      var m := Min(values[..|values| - 1]);
      assert m in values[..|values| - 1];
      if last < m then last else m
  }

  function SpreadPct(values: seq<real>): Option<real> {
    if |values| < 2 then None
    else
      var average := Mean(values);
      Some(if average != 0.0 then 100.0 * (Max(values) - Min(values)) / average else 0.0)
  }

  function DeltaPct(treatment: real, base: real): Option<real> {
    if base == 0.0 then None else Some(100.0 * (treatment - base) / base)
  }

  lemma {:induction false} SumBounds(values: seq<real>, lo: real, hi: real)
    requires forall i :: 0 <= i < |values| ==> lo <= values[i] <= hi
    ensures lo * |values| as real <= Sum(values) <= hi * |values| as real
  {
    if values == [] {
    } else {
      SumBounds(values[..|values| - 1], lo, hi);
    }
  }

  lemma MeanBounds(values: seq<real>, lo: real, hi: real)
    requires values != [] && forall i :: 0 <= i < |values| ==> lo <= values[i] <= hi
    ensures lo <= Mean(values) <= hi
  {
    SumBounds(values, lo, hi);
    var n := |values| as real;
    var m := Mean(values);
    assert m * n == Sum(values);
    if m < lo {
      ProductIsMonotone(m, lo, n);
    }
    if hi < m {
      ProductIsMonotone(hi, m, n);
    }
  }

  lemma ProductIsMonotone(x: real, y: real, n: real)
    requires x < y && n > 0.0
    ensures x * n < y * n
  {
  }

  lemma QuotientIsMonotone(x: real, y: real, d: real)
    requires x <= y && d > 0.0
    ensures x / d <= y / d
  {
    assert (y - x) / d >= 0.0;
  }

  lemma PercentageBounds(m: real, b: real, lo: real, hi: real)
    requires b > 0.0 && lo <= m <= hi && lo <= b <= hi
    ensures -(100.0 * (hi - lo) / b) <= 100.0 * (m - b) / b <= 100.0 * (hi - lo) / b
  {
    QuotientIsMonotone(100.0 * (m - b), 100.0 * (hi - lo), b);
    QuotientIsMonotone(-(100.0 * (hi - lo)), 100.0 * (m - b), b);
    NegatedQuotient(100.0 * (hi - lo), b);
  }

  lemma NegatedQuotient(x: real, d: real)
    requires d > 0.0
    ensures -x / d == -(x / d)
  {
  }

  /** A group whose values lie within the range of the baseline differs from the
      baseline by no more than the noise that is reported beside it. */
  lemma NoiseFloor(group: seq<real>, base: seq<real>)
    requires group != [] && |base| >= 2 && Mean(base) > 0.0
    requires forall i :: 0 <= i < |group| ==> Min(base) <= group[i] <= Max(base)
    ensures SpreadPct(base).Some? && DeltaPct(Mean(group), Mean(base)).Some?
    ensures -SpreadPct(base).value <= DeltaPct(Mean(group), Mean(base)).value <= SpreadPct(base).value
  {
    MeanBounds(group, Min(base), Max(base));
    MeanBounds(base, Min(base), Max(base));
    PercentageBounds(Mean(group), Mean(base), Min(base), Max(base));
  }

  // ---------- one output row ----------

  type Cohort = (string, string)

  /** An output row belongs to a model and a prompt, a date and a condition. */
  datatype Cell = Cell(cohort: Cohort, date: string, condition: string)

  function CohortOf(r: Run): Cohort {
    (r.model, r.promptId)
  }

  function DateOf(r: Run): string {
    r.runDate
  }

  function ConditionOf(r: Run): string {
    r.condition
  }

  function CellOf(r: Run): Cell {
    Cell(CohortOf(r), r.runDate, r.condition)
  }

  function Values(runs: seq<Run>, column: Run -> real): seq<real> {
    seq(|runs|, i requires 0 <= i < |runs| => column(runs[i]))
  }

  function Processed(r: Run): real { r.processed }
  function Cost(r: Run): real { r.cost }
  function Tax(r: Run): real { r.tax }
  function Quality(r: Run): real { r.quality.value }

  datatype Line = Line(condition: string, runs: nat, baselineRuns: nat,
                       processedDelta: Option<real>, costDelta: Option<real>, taxDelta: Option<real>,
                       qualityDelta: real,
                       noiseProcessed: Option<real>, noiseCost: Option<real>)

  datatype OutRow = OutRow(runDate: string, promptId: string, line: Line, model: string)

  function CellOfRow(o: OutRow): Cell {
    Cell((o.model, o.promptId), o.runDate, o.line.condition)
  }

  function LineFor(condition: string, group: seq<Run>, base: seq<Run>): Line {
    Line(condition, |group|, |base|,
         RoundedCell(DeltaPct(Mean(Values(group, Processed)), Mean(Values(base, Processed)))),
         RoundedCell(DeltaPct(Mean(Values(group, Cost)), Mean(Values(base, Cost)))),
         RoundedCell(DeltaPct(Mean(Values(group, Tax)), Mean(Values(base, Tax)))),
         Rounded(Mean(Values(group, Quality)) - Mean(Values(base, Quality))),
         RoundedCell(SpreadPct(Values(base, Processed))), RoundedCell(SpreadPct(Values(base, Cost))))
  }

  function Baseline(runs: seq<Run>): seq<Run> {
    Members(runs, ConditionOf, BASELINE_CONDITION)
  }

  function Treatments(runs: seq<Run>): seq<Run> {
    if runs == [] then []
    else
      var last := runs[|runs| - 1];
      Treatments(runs[..|runs| - 1]) + if last.condition != BASELINE_CONDITION then [last] else []
  }

  function Until(base: seq<Run>, date: string): seq<Run> {
    if base == [] then []
    else
      var last := base[|base| - 1];
      Until(base[..|base| - 1], date) + if !Less(date, last.runDate) then [last] else []
  }

  /** The last baseline runs up to a date; before the first one, the earliest. */
  function BaselineWindow(base: seq<Run>, date: string): seq<Run> {
    var earlier := Until(base, date);
    if earlier != [] then Latest(earlier, BASELINE_WINDOW) else Earliest(base, BASELINE_WINDOW)
  }

  /** Python's `s[-n:]` for a positive `n`. */
  function Latest<T>(s: seq<T>, n: nat): seq<T> {
    if |s| <= n then s else s[|s| - n..]
  }

  /** Python's `s[:n]`. */
  function Earliest<T>(s: seq<T>, n: nat): seq<T> {
    if |s| <= n then s else s[..n]
  }

  /** The runs averaged in a cell, in file order. */
  function Group(runs: seq<Run>, q: Cell): seq<Run> {
    Members(Members(Treatments(Members(runs, CohortOf, q.cohort)), DateOf, q.date), ConditionOf, q.condition)
  }

  function WindowFor(runs: seq<Run>, cohort: Cohort, date: string): seq<Run> {
    BaselineWindow(Baseline(Members(runs, CohortOf, cohort)), date)
  }

  function RowFor(runs: seq<Run>, q: Cell): OutRow {
    OutRow(q.date, q.cohort.1, LineFor(q.condition, Group(runs, q), WindowFor(runs, q.cohort, q.date)), q.cohort.0)
  }

  lemma {:induction false} TreatmentsAreTheTreatments(runs: seq<Run>)
    ensures forall r :: r in Treatments(runs) <==> r in runs && r.condition != BASELINE_CONDITION
  {
    if runs == [] {
    } else {
      TreatmentsAreTheTreatments(runs[..|runs| - 1]);
      assert runs == runs[..|runs| - 1] + [runs[|runs| - 1]];
    }
  }

  lemma {:induction false} TreatmentsOnly(runs: seq<Run>)
    requires forall i :: 0 <= i < |runs| ==> runs[i].condition != BASELINE_CONDITION
    ensures Treatments(runs) == runs
  {
    if runs == [] {
    } else {
      TreatmentsOnly(runs[..|runs| - 1]);
    }
  }

  /** A cell is averaged over exactly the treatments that fall in it. */
  lemma GroupMembers(runs: seq<Run>, q: Cell)
    ensures forall r :: r in Group(runs, q) <==> r in runs && r.condition != BASELINE_CONDITION && CellOf(r) == q
  {
    var cohort := Members(runs, CohortOf, q.cohort);
    var dated := Members(Treatments(cohort), DateOf, q.date);
    MembersAreTheItems(runs, CohortOf, q.cohort);
    TreatmentsAreTheTreatments(cohort);
    MembersAreTheItems(Treatments(cohort), DateOf, q.date);
    MembersAreTheItems(dated, ConditionOf, q.condition);
  }

  // ---------- the table ----------

  predicate CohortLess(a: Cohort, b: Cohort) {
    Less(a.0, b.0) || (a.0 == b.0 && Less(a.1, b.1))
  }

  predicate CellLess(a: Cell, b: Cell) {
    || CohortLess(a.cohort, b.cohort)
    || (a.cohort == b.cohort && (Less(a.date, b.date) || (a.date == b.date && Less(a.condition, b.condition))))
  }

  predicate RowLess(a: OutRow, b: OutRow) {
    CellLess(CellOfRow(a), CellOfRow(b))
  }

  /** The cells that have a row: some treatment falls in it and its cohort has a baseline. */
  ghost predicate Reported(runs: seq<Run>, q: Cell) {
    Group(runs, q) != [] && Baseline(Members(runs, CohortOf, q.cohort)) != []
  }

  /** Strictly sorted, a row for exactly the reported cells that are asked for. */
  ghost predicate Reports(out: seq<OutRow>, runs: seq<Run>, asked: Cell -> bool) {
    && Ascending(out, RowLess)
    && (forall o :: o in out ==> asked(CellOfRow(o)) && Reported(runs, CellOfRow(o)) && o == RowFor(runs, CellOfRow(o)))
    && (forall q :: Reported(runs, q) && asked(q) ==> RowFor(runs, q) in out)
  }

  ghost predicate IsComparison(out: seq<OutRow>, runs: seq<Run>) {
    Reports(out, runs, (q: Cell) => true)
  }

  lemma ReportsConcat(a: seq<OutRow>, b: seq<OutRow>, runs: seq<Run>,
                      asked1: Cell -> bool, asked2: Cell -> bool, asked: Cell -> bool)
    requires Reports(a, runs, asked1) && Reports(b, runs, asked2)
    requires forall q :: asked(q) <==> asked1(q) || asked2(q)
    requires forall p, q :: asked1(p) && asked2(q) ==> CellLess(p, q)
    ensures Reports(a + b, runs, asked)
  {
    forall i, j | 0 <= i < j < |a + b|
      ensures RowLess((a + b)[i], (a + b)[j])
    {
      if i < |a| <= j {
        assert a[i] in a && b[j - |a|] in b;
      }
    }
  }

  lemma CohortLessIsStrictOrder()
    ensures StrictOrder(CohortLess)
  {
    LessIsStrictOrder();
  }

  /** The lines of one date: one per condition, in order.  Without a given baseline it is
      that of the date's own runs. */
  method ComparisonRowsForDate(runs: seq<Run>, given: Option<seq<Run>>) returns (lines: seq<Line>)
    ensures var base := if given.Some? then given.value else Baseline(runs);
            var conditions := Sorted(Keys(Treatments(runs), ConditionOf), Less);
            && (base == [] ==> lines == [])
            && (base != [] ==>
                  && |lines| == |conditions|
                  && forall i :: 0 <= i < |lines| ==>
                       lines[i] == LineFor(conditions[i], Members(Treatments(runs), ConditionOf, conditions[i]), base))
  {
    var base := if given.Some? then given.value else Baseline(runs);
    lines := [];
    if base == [] {
      return;
    }
    var found, grouped := GroupBy(Treatments(runs), ConditionOf);
    var conditions := Sorted(found, Less);
    LessIsStrictOrder();
    SortedIsSorted(found, Less);
    for i := 0 to |conditions|
      invariant |lines| == i
      invariant forall k :: 0 <= k < i ==>
                  lines[k] == LineFor(conditions[k], Members(Treatments(runs), ConditionOf, conditions[k]), base)
    {
      assert conditions[i] in conditions;
      lines := lines + [LineFor(conditions[i], grouped[conditions[i]], base)];
    }
  }

  ghost function AtDate(cohort: Cohort, date: string): Cell -> bool {
    (q: Cell) => q.cohort == cohort && q.date == date
  }

  ghost function AtDates(cohort: Cohort, dates: seq<string>): Cell -> bool {
    (q: Cell) => q.cohort == cohort && q.date in dates
  }

  ghost function InCohorts(cohorts: seq<Cohort>): Cell -> bool {
    (q: Cell) => q.cohort in cohorts
  }

  /** The rows of one cohort and date. */
  method RowsAtDate(ghost runs: seq<Run>, cohort: Cohort, date: string, dated: seq<Run>, window: seq<Run>)
    returns (out: seq<OutRow>)
    requires Baseline(Members(runs, CohortOf, cohort)) != []
    requires dated == Members(Treatments(Members(runs, CohortOf, cohort)), DateOf, date)
    requires window == WindowFor(runs, cohort, date)
    ensures Reports(out, runs, AtDate(cohort, date))
  {
    WindowSize(Baseline(Members(runs, CohortOf, cohort)), date);
    MembersAreTheItems(Treatments(Members(runs, CohortOf, cohort)), DateOf, date);
    TreatmentsAreTheTreatments(Members(runs, CohortOf, cohort));
    forall i | 0 <= i < |dated|
      ensures dated[i].condition != BASELINE_CONDITION
    {
      assert dated[i] in dated;
    }
    TreatmentsOnly(dated);
    var lines := ComparisonRowsForDate(dated, Some(window));
    ghost var conditions := Sorted(Keys(dated, ConditionOf), Less);
    LessIsStrictOrder();
    SortedIsSorted(Keys(dated, ConditionOf), Less);
    KeysAreTheKeys(dated, ConditionOf);
    out := seq(|lines|, i requires 0 <= i < |lines| => OutRow(date, cohort.1, lines[i], cohort.0));
    DateIsReported(runs, cohort, date, conditions, out);
  }

  lemma DateIsReported(runs: seq<Run>, cohort: Cohort, date: string, conditions: seq<string>, out: seq<OutRow>)
    requires Baseline(Members(runs, CohortOf, cohort)) != []
    requires Ascending(conditions, Less)
    requires forall c :: c in conditions <==> Group(runs, Cell(cohort, date, c)) != []
    requires |out| == |conditions|
    requires forall i :: 0 <= i < |out| ==> out[i] == RowFor(runs, Cell(cohort, date, conditions[i]))
    ensures Reports(out, runs, AtDate(cohort, date))
  {
    forall o | o in out
      ensures AtDate(cohort, date)(CellOfRow(o)) && Reported(runs, CellOfRow(o)) && o == RowFor(runs, CellOfRow(o))
    {
      var i :| 0 <= i < |out| && out[i] == o;
      assert conditions[i] in conditions;
      assert CellOfRow(o) == Cell(cohort, date, conditions[i]);
    }
    forall q | Reported(runs, q) && AtDate(cohort, date)(q)
      ensures RowFor(runs, q) in out
    {
      assert q == Cell(cohort, date, q.condition);
      assert q.condition in conditions;
      var i :| 0 <= i < |conditions| && conditions[i] == q.condition;
      assert out[i] == RowFor(runs, q);
    }
  }

  /** The rows of one cohort, date after date; none without a baseline. */
  method RowsOfCohort(ghost runs: seq<Run>, cohort: Cohort, members: seq<Run>) returns (out: seq<OutRow>)
    requires members == Members(runs, CohortOf, cohort)
    ensures Reports(out, runs, InCohorts([cohort]))
  {
    var base := Baseline(members);
    if base == [] {
      return [];
    }
    var found, byDate := GroupBy(Treatments(members), DateOf);
    var dates := Sorted(found, Less);
    LessIsStrictOrder();
    SortedIsSorted(found, Less);
    out := [];
    for i := 0 to |dates|
      invariant Reports(out, runs, AtDates(cohort, dates[..i]))
    {
      assert dates[i] in dates;
      var rows := RowsAtDate(runs, cohort, dates[i], byDate[dates[i]], BaselineWindow(base, dates[i]));
      NextDate(cohort, dates, i);
      ReportsConcat(out, rows, runs,
                    AtDates(cohort, dates[..i]), AtDate(cohort, dates[i]), AtDates(cohort, dates[..i + 1]));
      out := out + rows;
    }
    assert dates[..|dates|] == dates;
    forall q | Reported(runs, q) && q.cohort == cohort
      ensures q.date in dates
    {
      GroupIsDated(runs, q);
      KeysAreTheKeys(Treatments(members), DateOf);
    }
  }

  lemma NextDate(cohort: Cohort, dates: seq<string>, i: nat)
    requires i < |dates| && Ascending(dates, Less)
    ensures forall q :: AtDates(cohort, dates[..i + 1])(q) <==>
                        AtDates(cohort, dates[..i])(q) || AtDate(cohort, dates[i])(q)
    ensures forall p, q :: AtDates(cohort, dates[..i])(p) && AtDate(cohort, dates[i])(q) ==> CellLess(p, q)
  {
    assert dates[..i + 1] == dates[..i] + [dates[i]];
  }

  lemma GroupIsDated(runs: seq<Run>, q: Cell)
    requires Group(runs, q) != []
    ensures Members(Treatments(Members(runs, CohortOf, q.cohort)), DateOf, q.date) != []
  {
  }

  /** All cohorts with a run, in order. */
  ghost predicate SortedCohorts(cohorts: seq<Cohort>, runs: seq<Run>) {
    Ascending(cohorts, CohortLess) && forall c :: c in cohorts <==> Members(runs, CohortOf, c) != []
  }

  lemma CohortsAreSorted(runs: seq<Run>)
    ensures SortedCohorts(Sorted(Keys(runs, CohortOf), CohortLess), runs)
    ensures forall c :: c in Sorted(Keys(runs, CohortOf), CohortLess) <==> c in Keys(runs, CohortOf)
  {
    CohortLessIsStrictOrder();
    SortedIsSorted(Keys(runs, CohortOf), CohortLess);
    KeysAreTheKeys(runs, CohortOf);
  }

  /** The whole table. */
  method RebuildComparison(rows: seq<SummaryRow>) returns (out: seq<OutRow>)
    ensures IsComparison(out, Eligible(rows))
  {
    var runs := Eligible(rows);
    var found, byPrompt := GroupBy(runs, CohortOf);
    var cohorts := Sorted(found, CohortLess);
    CohortsAreSorted(runs);
    out := [];
    for i := 0 to |cohorts|
      invariant Reports(out, runs, InCohorts(cohorts[..i]))
    {
      assert cohorts[i] in cohorts;
      var rows := RowsOfCohort(runs, cohorts[i], byPrompt[cohorts[i]]);
      NextCohort(runs, cohorts, i, out, rows);
      out := out + rows;
    }
    AllCohorts(runs, cohorts, out);
  }

  lemma NextCohort(runs: seq<Run>, cohorts: seq<Cohort>, i: nat, out: seq<OutRow>, rows: seq<OutRow>)
    requires i < |cohorts| && SortedCohorts(cohorts, runs)
    requires Reports(out, runs, InCohorts(cohorts[..i])) && Reports(rows, runs, InCohorts([cohorts[i]]))
    ensures Reports(out + rows, runs, InCohorts(cohorts[..i + 1]))
  {
    assert cohorts[..i + 1] == cohorts[..i] + [cohorts[i]];
    var asked1, asked2, asked := InCohorts(cohorts[..i]), InCohorts([cohorts[i]]), InCohorts(cohorts[..i + 1]);
    forall p, q | asked1(p) && asked2(q)
      ensures CellLess(p, q)
    {
      var k :| 0 <= k < i && cohorts[k] == p.cohort;
      assert CohortLess(cohorts[k], cohorts[i]);
    }
    ReportsConcat(out, rows, runs, asked1, asked2, asked);
  }

  lemma AllCohorts(runs: seq<Run>, cohorts: seq<Cohort>, out: seq<OutRow>)
    requires SortedCohorts(cohorts, runs) && Reports(out, runs, InCohorts(cohorts[..|cohorts|]))
    ensures IsComparison(out, runs)
  {
    assert cohorts[..|cohorts|] == cohorts;
    forall q | Reported(runs, q)
      ensures q.cohort in cohorts
    {
    }
  }

  lemma {:induction false} UntilIsSmaller(base: seq<Run>, date: string)
    ensures |Until(base, date)| <= |base|
  {
    if base == [] {
    } else {
      UntilIsSmaller(base[..|base| - 1], date);
    }
  }

  lemma WindowSize(base: seq<Run>, date: string)
    ensures base != [] ==> 1 <= |BaselineWindow(base, date)| <= BASELINE_WINDOW
    ensures base == [] ==> BaselineWindow(base, date) == []
  {
    UntilIsSmaller(base, date);
  }
}
