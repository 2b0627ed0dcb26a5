/** Choosing the next measurement (`token_bench/collect.py`). */
module Collect {
  import opened Wrappers
  import opened SummaryTable

  /** A declared condition; `name` is its label in the tables; ids and names are each unique. */
  datatype Condition = Condition(id: string, name: string)

  const PRESET_SEQUENCE: seq<string> := ["small", "large"]

  predicate IsSample(row: SummaryRow, preset: string, model: Option<string>) {
    && row.promptId == preset
    && (model.Some? ==> row.model == model.value)
    && row.terminalReason == "succeeded" && row.measurable != "0"
  }

  /** How many samples of a condition the table holds. */
  function Samples(rows: seq<SummaryRow>, preset: string, model: Option<string>, condition: string): nat {
    if rows == [] then 0
    else
      var last := rows[|rows| - 1];
      Samples(rows[..|rows| - 1], preset, model, condition)
      + if IsSample(last, preset, model) && last.condition == condition then 1 else 0
  }

  method SuccessfulRunsByCondition(rows: seq<SummaryRow>, preset: string, model: Option<string>)
    returns (counts: map<string, nat>)
    ensures forall c :: (if c in counts then counts[c] else 0) == Samples(rows, preset, model, c)
    ensures forall c :: c in counts ==> counts[c] > 0
  {
    counts := map[];
    for i := 0 to |rows|
      invariant forall c :: (if c in counts then counts[c] else 0) == Samples(rows[..i], preset, model, c)
      invariant forall c :: c in counts ==> counts[c] > 0
    {
      var row := rows[i];
      assert rows[..i + 1][..i] == rows[..i];
      if row.promptId != preset {
        continue;
      }
      if model.Some? && row.model != model.value {
        continue;
      }
      if row.terminalReason != "succeeded" || row.measurable == "0" {
        continue;
      }
      counts := counts[row.condition := (if row.condition in counts then counts[row.condition] else 0) + 1];
    }
    assert rows[..|rows|] == rows;
  }

  /** Sample counts of the declared conditions, in declaration order. */
  function CountsOf(rows: seq<SummaryRow>, preset: string, model: Option<string>, declared: seq<Condition>)
    : (r: seq<nat>)
    ensures |r| == |declared|
  {
    seq(|declared|, i requires 0 <= i < |declared| => Samples(rows, preset, model, declared[i].name))
  }

  // ---------- the order of conditions ----------

  /** Fewer samples first, then declaration order. */
  predicate Before(counts: seq<nat>, p: nat, q: nat)
    requires p < |counts| && q < |counts|
  {
    counts[p] < counts[q] || (counts[p] == counts[q] && p < q)
  }

  predicate Positions(order: seq<nat>, n: nat) {
    forall k :: 0 <= k < |order| ==> order[k] < n
  }

  function Insert(counts: seq<nat>, p: nat, order: seq<nat>): (r: seq<nat>)
    requires p < |counts| && Positions(order, |counts|)
    ensures Positions(r, |counts|)
  {
    if order == [] || Before(counts, p, order[0]) then [p] + order
    else [order[0]] + Insert(counts, p, order[1..])
  }

  /** The first `n` declared conditions in order of priority. */
  function Priority(counts: seq<nat>, n: nat): (r: seq<nat>)
    requires n <= |counts|
    ensures Positions(r, |counts|)
  {
    if n == 0 then [] else Insert(counts, n - 1, Priority(counts, n - 1))
  }

  ghost predicate InOrder(counts: seq<nat>, order: seq<nat>)
    requires Positions(order, |counts|)
  {
    forall i, j :: 0 <= i < j < |order| ==> Before(counts, order[i], order[j])
  }

  ghost predicate Lists(order: seq<nat>, q: nat) {
    exists k :: 0 <= k < |order| && order[k] == q
  }

  lemma {:induction false} InsertAdds(counts: seq<nat>, p: nat, order: seq<nat>, q: nat)
    requires p < |counts| && Positions(order, |counts|)
    ensures |Insert(counts, p, order)| == |order| + 1
    ensures Lists(Insert(counts, p, order), q) <==> q == p || Lists(order, q)
  {
    var r := Insert(counts, p, order);
    if order == [] || Before(counts, p, order[0]) {
      ConsLists(p, order, q);
    } else {
      InsertAdds(counts, p, order[1..], q);
      ConsLists(order[0], Insert(counts, p, order[1..]), q);
      ConsLists(order[0], order[1..], q);
      assert order == [order[0]] + order[1..];
    }
  }

  lemma ConsLists(first: nat, rest: seq<nat>, q: nat)
    ensures Lists([first] + rest, q) <==> q == first || Lists(rest, q)
  {
    var all := [first] + rest;
    if Lists(rest, q) {
      var k :| 0 <= k < |rest| && rest[k] == q;
      assert all[k + 1] == q;
    }
    if q == first {
      assert all[0] == q;
    }
    if Lists(all, q) {
      var k :| 0 <= k < |all| && all[k] == q;
      assert k > 0 ==> rest[k - 1] == q;
    }
  }

  lemma {:induction false} InsertKeepsOrder(counts: seq<nat>, p: nat, order: seq<nat>)
    requires p < |counts| && Positions(order, |counts|) && !Lists(order, p) && InOrder(counts, order)
    ensures InOrder(counts, Insert(counts, p, order))
  {
    if order == [] {
    } else {
      assert order == [order[0]] + order[1..];
      ConsLists(order[0], order[1..], p);
    }
    if order != [] && !Before(counts, p, order[0]) {
      var rest := Insert(counts, p, order[1..]);
      InsertKeepsOrder(counts, p, order[1..]);
      forall j | 0 <= j < |rest|
        ensures Before(counts, order[0], rest[j])
      {
        InsertAdds(counts, p, order[1..], rest[j]);
        assert Lists(rest, rest[j]);
        if rest[j] != p {
          var k :| 0 <= k < |order[1..]| && order[1..][k] == rest[j];
          assert order[k + 1] == rest[j];
        }
      }
    }
  }

  /** The list has every declared condition, once each as it is in strict order. */
  lemma {:induction false} PriorityListsAll(counts: seq<nat>, n: nat, q: nat)
    requires n <= |counts|
    ensures |Priority(counts, n)| == n
    ensures Lists(Priority(counts, n), q) <==> q < n
  {
    if n == 0 {
    } else {
      PriorityListsAll(counts, n - 1, q);
      InsertAdds(counts, n - 1, Priority(counts, n - 1), q);
    }
  }

  /** The least sampled come first, ties in declaration order. */
  lemma {:induction false} PriorityIsSorted(counts: seq<nat>, n: nat)
    requires n <= |counts|
    ensures InOrder(counts, Priority(counts, n))
  {
    if n == 0 {
    } else {
      var order := Priority(counts, n - 1);
      PriorityIsSorted(counts, n - 1);
      PriorityListsAll(counts, n - 1, n - 1);
      InsertKeepsOrder(counts, n - 1, order);
      assert Priority(counts, n) == Insert(counts, n - 1, order);
    }
  }

  lemma HeadIsBefore(counts: seq<nat>, i: nat)
    requires i < |counts|
    ensures Priority(counts, |counts|) != []
    ensures var h := Priority(counts, |counts|)[0]; i == h || Before(counts, h, i)
  {
    var order := Priority(counts, |counts|);
    PriorityListsAll(counts, |counts|, i);
    PriorityIsSorted(counts, |counts|);
    var k :| 0 <= k < |order| && order[k] == i;
  }

  /** The head of the list: nobody has fewer samples, and nobody declared before it
      has as few. */
  lemma HeadIsLeastSampled(counts: seq<nat>)
    requires counts != []
    ensures Priority(counts, |counts|) != []
    ensures var h := Priority(counts, |counts|)[0];
            && (forall i :: 0 <= i < |counts| ==> counts[h] <= counts[i])
            && (forall i :: 0 <= i < h ==> counts[h] < counts[i])
  {
    HeadIsBefore(counts, 0);
    var h := Priority(counts, |counts|)[0];
    forall i | 0 <= i < |counts|
      ensures counts[h] <= counts[i] && (i < h ==> counts[h] < counts[i])
    {
      HeadIsBefore(counts, i);
    }
  }

  method ConditionPriority(rows: seq<SummaryRow>, preset: string, model: Option<string>, declared: seq<Condition>)
    returns (ids: seq<string>)
    ensures var order := Priority(CountsOf(rows, preset, model, declared), |declared|);
            && |ids| == |order| == |declared|
            && forall i :: 0 <= i < |ids| ==> ids[i] == declared[order[i]].id
    ensures forall c :: c in declared ==> c.id in ids
  {
    var counts := SuccessfulRunsByCondition(rows, preset, model);
    var sampled := seq(|declared|, i requires 0 <= i < |declared| =>
      if declared[i].name in counts then counts[declared[i].name] else 0);
    assert sampled == CountsOf(rows, preset, model, declared);
    var order := Priority(sampled, |declared|);
    ids := seq(|order|, i requires 0 <= i < |order| => declared[order[i]].id);
    PriorityListsAll(sampled, |declared|, 0);
    forall c | c in declared
      ensures c.id in ids
    {
      var q :| 0 <= q < |declared| && declared[q] == c;
      PriorityListsAll(sampled, |declared|, q);
      var k :| 0 <= k < |order| && order[k] == q;
      assert ids[k] == c.id;
    }
  }

  // ---------- the current preset ----------

  predicate Short(counts: seq<nat>, runsPerPreset: nat) {
    exists i :: 0 <= i < |counts| && counts[i] < runsPerPreset
  }

  /** The position of the first preset from `p` on that still lacks samples, else the last. */
  function PresetIndex(rows: seq<SummaryRow>, declared: seq<Condition>, runsPerPreset: nat, model: Option<string>,
                       p: nat): (r: nat)
    requires p < |PRESET_SEQUENCE|
    ensures p <= r < |PRESET_SEQUENCE|
    decreases |PRESET_SEQUENCE| - p
  {
    if Short(CountsOf(rows, PRESET_SEQUENCE[p], model, declared), runsPerPreset) then p
    else if p + 1 == |PRESET_SEQUENCE| then p
    else PresetIndex(rows, declared, runsPerPreset, model, p + 1)
  }

  method NextPreset(rows: seq<SummaryRow>, declared: seq<Condition>, runsPerPreset: nat, model: Option<string>)
    returns (preset: string)
    ensures preset == PRESET_SEQUENCE[PresetIndex(rows, declared, runsPerPreset, model, 0)]
  {
    for p := 0 to |PRESET_SEQUENCE|
      invariant p < |PRESET_SEQUENCE| ==>
                  PresetIndex(rows, declared, runsPerPreset, model, 0) ==
                  PresetIndex(rows, declared, runsPerPreset, model, p)
      invariant p == |PRESET_SEQUENCE| ==>
                  PresetIndex(rows, declared, runsPerPreset, model, 0) == |PRESET_SEQUENCE| - 1
    {
      var counts := SuccessfulRunsByCondition(rows, PRESET_SEQUENCE[p], model);
      var sampled := CountsOf(rows, PRESET_SEQUENCE[p], model, declared);
      for i := 0 to |declared|
        invariant forall k :: 0 <= k < i ==> sampled[k] >= runsPerPreset
      {
        if (if declared[i].name in counts then counts[declared[i].name] else 0) < runsPerPreset {
          assert sampled[i] < runsPerPreset;
          return PRESET_SEQUENCE[p];
        }
      }
    }
    preset := PRESET_SEQUENCE[|PRESET_SEQUENCE| - 1];
  }

  // ---------- progress and balance ----------

  /** Samples still missing. */
  function Deficit(counts: seq<nat>, runsPerPreset: nat): nat {
    if counts == [] then 0
    else
      var last := counts[|counts| - 1];
      Deficit(counts[..|counts| - 1], runsPerPreset) + if last < runsPerPreset then runsPerPreset - last else 0
  }

  lemma {:induction false} DeficitIsShortage(counts: seq<nat>, n: nat)
    ensures Deficit(counts, n) > 0 <==> Short(counts, n)
  {
    if counts == [] {
    } else {
      var init := counts[..|counts| - 1];
      DeficitIsShortage(init, n);
      if i :| 0 <= i < |counts| && counts[i] < n {
        if i < |init| {
          assert init[i] < n;
        }
      }
      if Short(init, n) {
        var i :| 0 <= i < |init| && init[i] < n;
        assert counts[i] < n;
      }
    }
  }

  lemma {:induction false} DeficitAfterSample(counts: seq<nat>, n: nat, h: nat)
    requires h < |counts|
    ensures Deficit(counts[h := counts[h] + 1], n) == Deficit(counts, n) - if counts[h] < n then 1 else 0
  {
    var last := |counts| - 1;
    var after := counts[h := counts[h] + 1];
    if h < last {
      DeficitAfterSample(counts[..last], n, h);
      assert after[..last] == counts[..last][h := counts[h] + 1];
    } else {
      assert after[..last] == counts[..last];
    }
  }

  lemma {:induction false} SamplesAppend(a: seq<SummaryRow>, b: seq<SummaryRow>, preset: string, model: Option<string>,
                                         c: string)
    ensures Samples(a + b, preset, model, c) == Samples(a, preset, model, c) + Samples(b, preset, model, c)
  {
    if b == [] {
      assert a + b == a;
    } else {
      assert (a + b)[..|a + b| - 1] == a + b[..|b| - 1];
      SamplesAppend(a, b[..|b| - 1], preset, model, c);
    }
  }

  /** The scheduler's settings. */
  datatype Setup = Setup(declared: seq<Condition>, runsPerPreset: nat, model: Option<string>)

  function Counts(rows: seq<SummaryRow>, p: nat, setup: Setup): seq<nat>
    requires p < |PRESET_SEQUENCE|
  {
    CountsOf(rows, PRESET_SEQUENCE[p], setup.model, setup.declared)
  }

  function Current(rows: seq<SummaryRow>, setup: Setup): (p: nat)
    ensures p < |PRESET_SEQUENCE|
  {
    PresetIndex(rows, setup.declared, setup.runsPerPreset, setup.model, 0)
  }

  // ---------- the condition a tick runs ----------

  /** The first condition of the list that can be run. */
  function FirstRunnable(order: seq<nat>, runnable: set<nat>): Option<nat> {
    if order == [] then None
    else if order[0] in runnable then Some(order[0])
    else FirstRunnable(order[1..], runnable)
  }

  function Taken(counts: seq<nat>, runnable: set<nat>): Option<nat> {
    FirstRunnable(Priority(counts, |counts|), runnable)
  }

  /** Nothing runnable comes before it in the list. */
  lemma {:induction false} FirstRunnableIsFirst(counts: seq<nat>, order: seq<nat>, runnable: set<nat>, i: nat)
    requires Positions(order, |counts|) && InOrder(counts, order) && Lists(order, i) && i in runnable
    ensures FirstRunnable(order, runnable).Some?
    ensures var h := FirstRunnable(order, runnable).value;
            h in runnable && h < |counts| && i < |counts| && (h == i || Before(counts, h, i))
  {
    var k :| 0 <= k < |order| && order[k] == i;
    if order[0] in runnable {
      assert k > 0 ==> Before(counts, order[0], order[k]);
    } else {
      assert order[1..][k - 1] == i;
      FirstRunnableIsFirst(counts, order[1..], runnable, i);
    }
  }

  /** No runnable condition has fewer samples than the one taken, and none declared
      before it has as few. */
  lemma TakenIsLeast(counts: seq<nat>, runnable: set<nat>, i: nat)
    requires i < |counts| && i in runnable
    ensures Taken(counts, runnable).Some?
    ensures var h := Taken(counts, runnable).value;
            && h in runnable && h < |counts|
            && counts[h] <= counts[i] && (i < h ==> counts[h] < counts[i])
  {
    PriorityListsAll(counts, |counts|, i);
    PriorityIsSorted(counts, |counts|);
    FirstRunnableIsFirst(counts, Priority(counts, |counts|), runnable, i);
  }

  lemma {:induction false} FirstRunnableIsListed(order: seq<nat>, runnable: set<nat>)
    requires FirstRunnable(order, runnable).Some?
    ensures Lists(order, FirstRunnable(order, runnable).value) && FirstRunnable(order, runnable).value in runnable
  {
    if order[0] in runnable {
      assert order[0] == FirstRunnable(order, runnable).value;
    } else {
      FirstRunnableIsListed(order[1..], runnable);
      ConsLists(order[0], order[1..], FirstRunnable(order, runnable).value);
      assert order == [order[0]] + order[1..];
    }
  }

  lemma TakenIsRunnable(counts: seq<nat>, runnable: set<nat>)
    requires Taken(counts, runnable).Some?
    ensures var h := Taken(counts, runnable).value; h < |counts| && h in runnable
  {
    FirstRunnableIsListed(Priority(counts, |counts|), runnable);
    PriorityListsAll(counts, |counts|, Taken(counts, runnable).value);
  }

  /** What happens at a tick: which conditions can be run, and whether the one that is
      taken adds a sample. */
  datatype Event = Event(runnable: set<nat>, sampled: bool)

  /** The condition that gets a sample. */
  function Sampled(rows: seq<SummaryRow>, event: Event, setup: Setup): Option<nat> {
    if event.sampled then Taken(Counts(rows, Current(rows, setup), setup), event.runnable) else None
  }

  /** The added rows hold at most one sample, of the given condition under the given preset. */
  ghost predicate AddsSample(added: seq<SummaryRow>, setup: Setup, p: nat, sampled: Option<nat>) {
    forall q, i :: 0 <= q < |PRESET_SEQUENCE| && 0 <= i < |setup.declared| ==>
      Samples(added, PRESET_SEQUENCE[q], setup.model, setup.declared[i].name) ==
      if q == p && sampled == Some(i) then 1 else 0
  }

  /** One tick takes the first runnable condition of the priority list for the current
      preset, and appends rows of which at most one is a sample. */
  ghost predicate Tick(rows: seq<SummaryRow>, added: seq<SummaryRow>, event: Event, setup: Setup) {
    AddsSample(added, setup, Current(rows, setup), Sampled(rows, event, setup))
  }

  /** A run of ticks from an initial table. */
  ghost predicate Schedule(tables: seq<seq<SummaryRow>>, events: seq<Event>, setup: Setup) {
    && |tables| == |events| + 1
    && forall t :: 0 <= t < |events| ==>
         && tables[t] <= tables[t + 1]
         && Tick(tables[t], tables[t + 1][|tables[t]|..], events[t], setup)
  }

  function WithSample(counts: seq<nat>, sampled: Option<nat>): seq<nat> {
    if sampled.Some? && sampled.value < |counts| then counts[sampled.value := counts[sampled.value] + 1] else counts
  }

  lemma AddedCountsAt(rows: seq<SummaryRow>, added: seq<SummaryRow>, setup: Setup, p: nat, sampled: Option<nat>,
                      q: nat, i: nat)
    requires q < |PRESET_SEQUENCE| && i < |setup.declared| && AddsSample(added, setup, p, sampled)
    ensures Counts(rows + added, q, setup)[i] ==
            Counts(rows, q, setup)[i] + if q == p && sampled == Some(i) then 1 else 0
  {
    SamplesAppend(rows, added, PRESET_SEQUENCE[q], setup.model, setup.declared[i].name);
  }

  lemma AddedCounts(rows: seq<SummaryRow>, added: seq<SummaryRow>, setup: Setup, p: nat, sampled: Option<nat>, q: nat)
    requires q < |PRESET_SEQUENCE| && AddsSample(added, setup, p, sampled)
    ensures var before := Counts(rows, q, setup);
            Counts(rows + added, q, setup) == if q == p then WithSample(before, sampled) else before
  {
    var before, after := Counts(rows, q, setup), Counts(rows + added, q, setup);
    var expected := if q == p then WithSample(before, sampled) else before;
    assert |after| == |expected|;
    forall i | 0 <= i < |after|
      ensures after[i] == expected[i]
    {
      AddedCountsAt(rows, added, setup, p, sampled, q, i);
    }
  }

  /** The counts after one tick of a schedule. */
  lemma ScheduledCounts(tables: seq<seq<SummaryRow>>, events: seq<Event>, setup: Setup, t: nat, q: nat)
    requires Schedule(tables, events, setup) && t < |events| && q < |PRESET_SEQUENCE|
    ensures var before := Counts(tables[t], q, setup);
            Counts(tables[t + 1], q, setup) ==
            if q == Current(tables[t], setup) then WithSample(before, Sampled(tables[t], events[t], setup)) else before
  {
    var added := tables[t + 1][|tables[t]|..];
    assert tables[t + 1] == tables[t] + added;
    AddedCounts(tables[t], added, setup, Current(tables[t], setup), Sampled(tables[t], events[t], setup), q);
  }

  // ---------- balance ----------

  ghost predicate AlwaysRunnable(events: seq<Event>, i: nat) {
    forall t :: 0 <= t < |events| ==> i in events[t].runnable
  }

  ghost predicate NeverRunnable(events: seq<Event>, i: nat) {
    forall t :: 0 <= t < |events| ==> i !in events[t].runnable
  }

  lemma OneTickKeepsLead(rows: seq<SummaryRow>, event: Event, setup: Setup, i: nat, j: nat, lead: nat)
    requires i < |setup.declared| && j < |setup.declared| && j in event.runnable && 1 <= lead
    ensures var counts := Counts(rows, Current(rows, setup), setup);
            var after := WithSample(counts, Sampled(rows, event, setup));
            counts[i] <= counts[j] + lead ==> after[i] <= after[j] + lead
  {
    TakenIsLeast(Counts(rows, Current(rows, setup), setup), event.runnable, j);
  }

  /** Balance: over every run no condition, whether it can be run or not, gets ahead of
      one that can always be run by more than one sample, or than it was at the start. */
  lemma {:induction false} NobodyGetsAhead(tables: seq<seq<SummaryRow>>, events: seq<Event>, setup: Setup,
                                           q: nat, i: nat, j: nat, lead: nat, t: nat)
    requires Schedule(tables, events, setup) && q < |PRESET_SEQUENCE| && t <= |events|
    requires i < |setup.declared| && j < |setup.declared| && AlwaysRunnable(events, j)
    requires 1 <= lead && Counts(tables[0], q, setup)[i] <= Counts(tables[0], q, setup)[j] + lead
    ensures Counts(tables[t], q, setup)[i] <= Counts(tables[t], q, setup)[j] + lead
  {
    if t == 0 {
    } else {
      NobodyGetsAhead(tables, events, setup, q, i, j, lead, t - 1);
      ScheduledCounts(tables, events, setup, t - 1, q);
      OneTickKeepsLead(tables[t - 1], events[t - 1], setup, i, j, lead);
    }
  }

  /** No condition of the set is ahead of another by more than `spread`. */
  ghost predicate SpreadAtMost(counts: seq<nat>, among: set<nat>, spread: nat) {
    forall i, j :: 0 <= i < |counts| && 0 <= j < |counts| && i in among && j in among ==>
      counts[i] <= counts[j] + spread
  }

  /** Among the conditions that can always be run the spread never exceeds the larger of
      one and what it was at the start, for both presets. */
  lemma SpreadStaysBounded(tables: seq<seq<SummaryRow>>, events: seq<Event>, setup: Setup,
                           q: nat, among: set<nat>, spread: nat, t: nat)
    requires Schedule(tables, events, setup) && q < |PRESET_SEQUENCE| && t <= |events|
    requires forall i :: i in among ==> AlwaysRunnable(events, i)
    requires 1 <= spread && SpreadAtMost(Counts(tables[0], q, setup), among, spread)
    ensures SpreadAtMost(Counts(tables[t], q, setup), among, spread)
  {
    forall i, j | 0 <= i < |setup.declared| && 0 <= j < |setup.declared| && i in among && j in among
      ensures Counts(tables[t], q, setup)[i] <= Counts(tables[t], q, setup)[j] + spread
    {
      NobodyGetsAhead(tables, events, setup, q, i, j, spread, t);
    }
  }

  // ---------- progress ----------

  /** Some condition that can be run lacks samples of the current preset, and the one
      taken adds a sample. */
  predicate Useful(rows: seq<SummaryRow>, event: Event, setup: Setup) {
    && event.sampled
    && exists i :: 0 <= i < |setup.declared| && i in event.runnable
                   && Counts(rows, Current(rows, setup), setup)[i] < setup.runsPerPreset
  }

  lemma UsefulMeansShort(rows: seq<SummaryRow>, event: Event, setup: Setup)
    ensures var counts := Counts(rows, Current(rows, setup), setup);
            var sampled := Sampled(rows, event, setup);
            && (sampled.Some? ==> sampled.value < |counts|)
            && (Useful(rows, event, setup) <==> sampled.Some? && counts[sampled.value] < setup.runsPerPreset)
  {
    var counts := Counts(rows, Current(rows, setup), setup);
    if Sampled(rows, event, setup).Some? {
      TakenIsRunnable(counts, event.runnable);
    }
    if event.sampled {
      if i :| 0 <= i < |setup.declared| && i in event.runnable && counts[i] < setup.runsPerPreset {
        TakenIsLeast(counts, event.runnable, i);
      }
    }
  }

  lemma DeficitWithSample(counts: seq<nat>, n: nat, sampled: Option<nat>)
    requires sampled.Some? ==> sampled.value < |counts|
    ensures var short := sampled.Some? && counts[sampled.value] < n;
            && (short ==> Deficit(counts, n) > 0)
            && Deficit(WithSample(counts, sampled), n) == if short then Deficit(counts, n) - 1 else Deficit(counts, n)
  {
    if sampled.Some? {
      DeficitAfterSample(counts, n, sampled.value);
      DeficitIsShortage(counts, n);
    }
  }

  /** What a tick does to the deficits: a useful one lowers that of the current preset by
      one, and nothing else changes. */
  lemma TickProgress(tables: seq<seq<SummaryRow>>, events: seq<Event>, setup: Setup, t: nat, q: nat)
    requires Schedule(tables, events, setup) && t < |events| && q < |PRESET_SEQUENCE|
    ensures var before := Deficit(Counts(tables[t], q, setup), setup.runsPerPreset);
            var useful := Useful(tables[t], events[t], setup) && q == Current(tables[t], setup);
            && (useful ==> before > 0)
            && Deficit(Counts(tables[t + 1], q, setup), setup.runsPerPreset) == if useful then before - 1 else before
  {
    ScheduledCounts(tables, events, setup, t, q);
    UsefulMeansShort(tables[t], events[t], setup);
    if q == Current(tables[t], setup) {
      DeficitWithSample(Counts(tables[t], q, setup), setup.runsPerPreset, Sampled(tables[t], events[t], setup));
    }
  }

  /** Subtraction that stops at zero. */
  function Minus(a: nat, b: nat): nat {
    if a > b then a - b else 0
  }

  /** The current preset in terms of the deficits: the first with one, else the last. */
  lemma CurrentByDeficit(rows: seq<SummaryRow>, setup: Setup)
    ensures Current(rows, setup) == if Deficit(Counts(rows, 0, setup), setup.runsPerPreset) > 0 then 0 else 1
  {
    DeficitIsShortage(Counts(rows, 0, setup), setup.runsPerPreset);
    DeficitIsShortage(Counts(rows, 1, setup), setup.runsPerPreset);
  }

  function UsefulTicks(tables: seq<seq<SummaryRow>>, events: seq<Event>, setup: Setup, t: nat): nat
    requires t <= |events| && t <= |tables|
  {
    if t == 0 then 0
    else UsefulTicks(tables, events, setup, t - 1) + if Useful(tables[t - 1], events[t - 1], setup) then 1 else 0
  }

  /** Progress: over every run the deficits fall by exactly one per useful tick, first that
      of the first preset, then that of the second.  So the first preset is left after
      exactly as many useful ticks as it lacked samples. */
  lemma {:induction false} ProgressOverRuns(tables: seq<seq<SummaryRow>>, events: seq<Event>, setup: Setup, t: nat)
    requires Schedule(tables, events, setup) && t <= |events|
    ensures var n, k := setup.runsPerPreset, UsefulTicks(tables, events, setup, t);
            var small, large := Deficit(Counts(tables[0], 0, setup), n), Deficit(Counts(tables[0], 1, setup), n);
            && Deficit(Counts(tables[t], 0, setup), n) == Minus(small, k)
            && Deficit(Counts(tables[t], 1, setup), n) == Minus(large, Minus(k, small))
            && k <= small + large
            && Current(tables[t], setup) == if k < small then 0 else 1
  {
    CurrentByDeficit(tables[t], setup);
    if t == 0 {
    } else {
      ProgressOverRuns(tables, events, setup, t - 1);
      TickProgress(tables, events, setup, t - 1, 0);
      TickProgress(tables, events, setup, t - 1, 1);
    }
  }

  function SampledTicks(events: seq<Event>): nat {
    if events == [] then 0
    else SampledTicks(events[..|events| - 1]) + if events[|events| - 1].sampled then 1 else 0
  }

  lemma AllRunnableUseful(rows: seq<SummaryRow>, event: Event, setup: Setup)
    requires forall i :: 0 <= i < |setup.declared| ==> i in event.runnable
    ensures Useful(rows, event, setup) <==>
            event.sampled && Deficit(Counts(rows, Current(rows, setup), setup), setup.runsPerPreset) > 0
  {
    DeficitIsShortage(Counts(rows, Current(rows, setup), setup), setup.runsPerPreset);
  }

  /** The samples that both presets lack. */
  function Lacking(rows: seq<SummaryRow>, setup: Setup): nat {
    Deficit(Counts(rows, 0, setup), setup.runsPerPreset) + Deficit(Counts(rows, 1, setup), setup.runsPerPreset)
  }

  lemma CurrentLacks(tables: seq<seq<SummaryRow>>, events: seq<Event>, setup: Setup, t: nat)
    requires Schedule(tables, events, setup) && t <= |events|
    ensures Deficit(Counts(tables[t], Current(tables[t], setup), setup), setup.runsPerPreset) > 0 <==>
            UsefulTicks(tables, events, setup, t) < Lacking(tables[0], setup)
    ensures UsefulTicks(tables, events, setup, t) <= Lacking(tables[0], setup)
  {
    ProgressOverRuns(tables, events, setup, t);
  }

  lemma SampledIsUseful(tables: seq<seq<SummaryRow>>, events: seq<Event>, setup: Setup, t: nat)
    requires Schedule(tables, events, setup) && t < |events|
    requires forall i :: 0 <= i < |setup.declared| ==> AlwaysRunnable(events, i)
    ensures Useful(tables[t], events[t], setup) <==>
            events[t].sampled && UsefulTicks(tables, events, setup, t) < Lacking(tables[0], setup)
  {
    forall i | 0 <= i < |setup.declared|
      ensures i in events[t].runnable
    {
      assert AlwaysRunnable(events, i);
    }
    AllRunnableUseful(tables[t], events[t], setup);
    CurrentLacks(tables, events, setup, t);
  }

  /** When every condition can always be run, every tick that adds a sample is useful
      until both presets are full. */
  lemma {:induction false} AllRunnableAllUseful(tables: seq<seq<SummaryRow>>, events: seq<Event>, setup: Setup, t: nat)
    requires Schedule(tables, events, setup) && t <= |events|
    requires forall i :: 0 <= i < |setup.declared| ==> AlwaysRunnable(events, i)
    ensures var k, lacking := SampledTicks(events[..t]), Lacking(tables[0], setup);
            UsefulTicks(tables, events, setup, t) == if k < lacking then k else lacking
  {
    if t == 0 {
    } else {
      AllRunnableAllUseful(tables, events, setup, t - 1);
      assert events[..t][..t - 1] == events[..t - 1];
      SampledIsUseful(tables, events, setup, t - 1);
    }
  }

  /** A condition that can never be run keeps the preset from being left for ever. */
  lemma {:induction false} NeverRunnableHoldsPreset(tables: seq<seq<SummaryRow>>, events: seq<Event>, setup: Setup,
                                                    i: nat, t: nat)
    requires Schedule(tables, events, setup) && t <= |events|
    requires i < |setup.declared| && NeverRunnable(events, i)
    requires Counts(tables[0], 0, setup)[i] < setup.runsPerPreset
    ensures Counts(tables[t], 0, setup)[i] == Counts(tables[0], 0, setup)[i]
    ensures Current(tables[t], setup) == 0
  {
    if t == 0 {
    } else {
      NeverRunnableHoldsPreset(tables, events, setup, i, t - 1);
      ScheduledCounts(tables, events, setup, t - 1, 0);
      if Sampled(tables[t - 1], events[t - 1], setup).Some? {
        TakenIsRunnable(Counts(tables[t - 1], 0, setup), events[t - 1].runnable);
      }
    }
    assert Short(Counts(tables[t], 0, setup), setup.runsPerPreset);
  }

  /** The preset never moves backward, whatever rows are appended. */
  lemma PresetNeverMovesBack(rows: seq<SummaryRow>, added: seq<SummaryRow>, setup: Setup)
    ensures Current(rows, setup) <= Current(rows + added, setup)
  {
    var before, after := Counts(rows, 0, setup), Counts(rows + added, 0, setup);
    forall i | 0 <= i < |setup.declared|
      ensures before[i] <= after[i]
    {
      SamplesAppend(rows, added, PRESET_SEQUENCE[0], setup.model, setup.declared[i].name);
    }
    if Short(after, setup.runsPerPreset) {
      var i :| 0 <= i < |after| && after[i] < setup.runsPerPreset;
      assert before[i] < setup.runsPerPreset;
    }
  }

  // ---------- what counts as a sample ----------

  /** A row is a sample of its condition when it is of the preset and, if one is asked for,
      of the model, and it succeeded and was not marked as not measurable. */
  lemma OneMoreRow(rows: seq<SummaryRow>, row: SummaryRow, preset: string, model: Option<string>, condition: string)
    ensures Samples([], preset, model, condition) == 0
    ensures Samples(rows + [row], preset, model, condition) ==
            Samples(rows, preset, model, condition)
            + if row.promptId == preset && (model == None || model == Some(row.model))
                 && row.terminalReason == "succeeded" && row.measurable != "0" && row.condition == condition
              then 1 else 0
  {
    assert (rows + [row])[..|rows|] == rows;
  }

  /** The preset is "small" while some condition has fewer than the wanted samples of it,
      and "large" ever after. */
  lemma SmallBeforeLarge(rows: seq<SummaryRow>, setup: Setup)
    ensures PRESET_SEQUENCE[Current(rows, setup)] ==
            if exists i :: 0 <= i < |setup.declared|
                           && Samples(rows, "small", setup.model, setup.declared[i].name) < setup.runsPerPreset
            then "small" else "large"
  {
    var counts := Counts(rows, 0, setup);
    if i :| 0 <= i < |setup.declared|
            && Samples(rows, "small", setup.model, setup.declared[i].name) < setup.runsPerPreset {
      assert counts[i] < setup.runsPerPreset;
    }
    if i :| 0 <= i < |counts| && counts[i] < setup.runsPerPreset {
      assert Samples(rows, "small", setup.model, setup.declared[i].name) < setup.runsPerPreset;
    }
  }
}
