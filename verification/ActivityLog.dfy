/** Turn-level token accounting (`token_bench/activity_log.py`). */
module ActivityLog {
  import opened Wrappers
  import opened Transcript

  datatype Turn = Turn(index: nat, tools: seq<string>, context: int, output: int, result: int,
                       discarded: int, compacted: bool, tax: int)

  function Max(a: int, b: int): int {
    if a >= b then a else b
  }

  function ContextOf(m: Message): int {
    m.usage.input + m.usage.cacheCreation + m.usage.cacheRead
  }

  /** The turn of the message at a position: what the context grew by beyond the
      output is charged to the turn that caused it. */
  function TurnAt(messages: seq<Message>, i: nat): Turn
    requires i < |messages|
  {
    var m := messages[i];
    var context, output := ContextOf(m), m.usage.output;
    if i + 1 < |messages| then
      var growth := ContextOf(messages[i + 1]) - context;
      var result := Max(0, growth - output);
      var discarded := growth - output - result;
      Turn(i + 1, m.tools, context, output, result, discarded, discarded < 0, 0)
    else
      Turn(i + 1, m.tools, context, output, 0, 0, false, 0)
  }

  function Extracted(messages: seq<Message>): seq<Turn> {
    seq(|messages|, i requires 0 <= i < |messages| => TurnAt(messages, i))
  }

  method ExtractTurns(messages: seq<Message>) returns (turns: seq<Turn>)
    ensures turns == Extracted(messages)
  {
    turns := [];
    for position := 0 to |messages|
      invariant turns == Extracted(messages)[..position]
    {
      var m := messages[position];
      var context, output := ContextOf(m), m.usage.output;
      var following := position + 1;
      var result, discarded, compacted := 0, 0, false;
      if following < |messages| {
        var growth := ContextOf(messages[following]) - context;
        result := Max(0, growth - output);
        discarded := growth - output - result;
        compacted := discarded < 0;
      }
      turns := turns + [Turn(position + 1, m.tools, context, output, result, discarded, compacted, 0)];
    }
  }

  // ---------- sums ----------

  function Sum(xs: seq<int>): int {
    if xs == [] then 0 else Sum(Init(xs)) + Last(xs)
  }

  /** Every entry counted once for each of the `total` positions after it. */
  function Weighted(xs: seq<int>, total: int): int {
    if xs == [] then 0 else Weighted(Init(xs), total) + Last(xs) * (total - |xs|)
  }

  function Contexts(turns: seq<Turn>): seq<int> {
    seq(|turns|, i requires 0 <= i < |turns| => turns[i].context)
  }

  function Outputs(turns: seq<Turn>): seq<int> {
    seq(|turns|, i requires 0 <= i < |turns| => turns[i].output)
  }

  function Results(turns: seq<Turn>): seq<int> {
    seq(|turns|, i requires 0 <= i < |turns| => turns[i].result)
  }

  function Discards(turns: seq<Turn>): seq<int> {
    seq(|turns|, i requires 0 <= i < |turns| => turns[i].discarded)
  }

  function Taxes(turns: seq<Turn>): seq<int> {
    seq(|turns|, i requires 0 <= i < |turns| => turns[i].tax)
  }

  function WithContextTax(turns: seq<Turn>): seq<Turn> {
    seq(|turns|, i requires 0 <= i < |turns| => turns[i].(tax := turns[i].result * (|turns| - turns[i].index)))
  }

  datatype Shares = Shares(opening: int, output: int, toolResult: int, discarded: int, observed: int, balanced: bool)

  /** The shares of the reread context; turn `i` has index `i + 1`. */
  function Reconcile(turns: seq<Turn>): Shares {
    var total := |turns|;
    var opening := if turns == [] then 0 else turns[0].context * (total - 1);
    var output := if turns == [] then 0 else WeightedByIndex(Init(turns), total, (t: Turn) => t.output);
    var toolResult := WeightedByIndex(turns, total, (t: Turn) => t.result);
    var discarded := WeightedByIndex(turns, total, (t: Turn) => t.discarded);
    var observed := if turns == [] then 0 else Sum(Contexts(turns[1..]));
    Shares(opening, output, toolResult, discarded, observed, opening + output + toolResult + discarded == observed)
  }

  function WeightedByIndex(turns: seq<Turn>, total: int, f: Turn -> int): int {
    if turns == [] then 0
    else WeightedByIndex(Init(turns), total, f) + f(Last(turns)) * (total - Last(turns).index)
  }

  function IsMeasurable(turns: seq<Turn>): bool {
    turns != [] && Reconcile(turns).balanced && !(exists t :: t in turns && t.compacted)
  }

  /** Turns numbered from one, as extraction leaves them. */
  ghost predicate Numbered(turns: seq<Turn>) {
    forall i :: 0 <= i < |turns| ==> turns[i].index == i + 1
  }

  lemma {:induction false} WeightedByPosition(turns: seq<Turn>, total: int, f: Turn -> int, xs: seq<int>)
    requires Numbered(turns) && |xs| == |turns|
    requires forall i :: 0 <= i < |turns| ==> xs[i] == f(turns[i])
    ensures WeightedByIndex(turns, total, f) == Weighted(xs, total)
  {
    if turns == [] {
    } else {
      WeightedByPosition(Init(turns), total, f, Init(xs));
    }
  }

  lemma {:induction false} WeightedShift(xs: seq<int>, total: int)
    ensures Weighted(xs, total + 1) == Weighted(xs, total) + Sum(xs)
  {
    if xs == [] {
    } else {
      WeightedShift(Init(xs), total);
      assert Last(xs) * (total + 1 - |xs|) == Last(xs) * (total - |xs|) + Last(xs);
    }
  }

  /** Adding up prefix sums counts every entry once for each later position. */
  function PrefixSums(xs: seq<int>): seq<int> {
    seq(|xs|, k requires 0 <= k < |xs| => Sum(xs[..k]))
  }

  lemma {:induction false} DoubleSum(xs: seq<int>)
    ensures Weighted(xs, |xs|) == Sum(PrefixSums(xs))
  {
    if xs == [] {
    } else {
      var init, n := Init(xs), |xs|;
      DoubleSum(init);
      WeightedShift(init, n - 1);
      assert xs[..n - 1] == init;
      assert Init(PrefixSums(xs)) == PrefixSums(init) by {
        forall k | 0 <= k < n - 1
          ensures xs[..k] == init[..k]
        {
        }
      }
      assert Last(PrefixSums(xs)) == Sum(init);
      assert Last(xs) * (n - n) == 0;
    }
  }

  // ---------- what the provider charged ----------

  /** The three causes of growth explain every step of the context. */
  ghost predicate Explained(turns: seq<Turn>) {
    forall i :: 0 <= i < |turns| - 1 ==>
      turns[i + 1].context == turns[i].context + turns[i].output + turns[i].result + turns[i].discarded
  }

  lemma ExtractionExplains(messages: seq<Message>)
    ensures Numbered(Extracted(messages)) && Explained(Extracted(messages))
  {
  }

  lemma {:induction false} ContextIsExplained(turns: seq<Turn>, k: nat)
    requires Explained(turns) && k < |turns|
    ensures turns[k].context ==
            turns[0].context + Sum(Outputs(turns)[..k]) + Sum(Results(turns)[..k]) + Sum(Discards(turns)[..k])
  {
    if k == 0 {
    } else {
      ContextIsExplained(turns, k - 1);
      OneMore(Outputs(turns), k);
      OneMore(Results(turns), k);
      OneMore(Discards(turns), k);
    }
  }

  lemma OneMore(xs: seq<int>, k: nat)
    requires 0 < k <= |xs|
    ensures Sum(xs[..k]) == Sum(xs[..k - 1]) + xs[k - 1]
  {
    assert Init(xs[..k]) == xs[..k - 1];
  }

  /** Each turn's context is the first context plus everything put in or dropped since. */
  lemma TurnContext(messages: seq<Message>, k: nat)
    requires k < |messages|
    ensures var turns := Extracted(messages);
            turns[k].context ==
            turns[0].context + Sum(Outputs(turns)[..k]) + Sum(Results(turns)[..k]) + Sum(Discards(turns)[..k])
  {
    ExtractionExplains(messages);
    ContextIsExplained(Extracted(messages), k);
  }

  /** One more context, by what it consists of. */
  lemma SplitStep(turns: seq<Turn>, k: nat)
    requires Explained(turns) && 1 < k <= |turns|
    ensures Sum(Contexts(turns)[1..k]) ==
            Sum(Contexts(turns)[1..k - 1]) + turns[0].context
            + Sum(Outputs(turns)[..k - 1]) + Sum(Results(turns)[..k - 1]) + Sum(Discards(turns)[..k - 1])
  {
    var c := Contexts(turns);
    assert Init(c[1..k]) == c[1..k - 1];
    ContextIsExplained(turns, k - 1);
  }

  /** The contexts after the first, up to turn `k`, split four ways. */
  lemma {:induction false} SplitUpTo(turns: seq<Turn>, k: nat)
    requires Explained(turns) && 1 <= k <= |turns|
    ensures Sum(Contexts(turns)[1..k]) ==
            turns[0].context * (k - 1) + Weighted(Outputs(turns)[..k - 1], k)
            + Weighted(Results(turns)[..k - 1], k) + Weighted(Discards(turns)[..k - 1], k)
  {
    if k == 1 {
    } else {
      SplitUpTo(turns, k - 1);
      SplitStep(turns, k);
      WeightedOneMore(Outputs(turns), k);
      WeightedOneMore(Results(turns), k);
      WeightedOneMore(Discards(turns), k);
      OneMoreTime(turns[0].context, k - 2);
    }
  }

  lemma OneMoreTime(x: int, times: int)
    ensures x * (times + 1) == x * times + x
  {
  }

  lemma WeightedOneMore(xs: seq<int>, k: nat)
    requires 1 < k <= |xs| + 1
    ensures Weighted(xs[..k - 1], k) == Weighted(xs[..k - 2], k - 1) + Sum(xs[..k - 1])
  {
    var init := xs[..k - 2];
    assert Init(xs[..k - 1]) == init;
    WeightedShift(init, k - 1);
  }

  /** The shares of extracted turns, as sums over positions. */
  lemma SharesByPosition(messages: seq<Message>)
    ensures var turns := Extracted(messages);
            var n, s := |turns|, Reconcile(turns);
            && s.toolResult == Weighted(Results(turns), n)
            && s.discarded == Weighted(Discards(turns), n)
            && (n > 0 ==> s.output == Weighted(Outputs(turns)[..n - 1], n))
            && (n > 0 ==> s.observed == Sum(Contexts(turns)[1..n]))
  {
    var turns := Extracted(messages);
    var n := |turns|;
    WeightedByPosition(turns, n, (t: Turn) => t.result, Results(turns));
    WeightedByPosition(turns, n, (t: Turn) => t.discarded, Discards(turns));
    if n > 0 {
      WeightedByPosition(Init(turns), n, (t: Turn) => t.output, Outputs(turns)[..n - 1]);
      assert Contexts(turns[1..]) == Contexts(turns)[1..n];
    }
  }

  /** Main result: for every message sequence the shares add up to what was reread. */
  lemma ReconciliationBalances(messages: seq<Message>)
    ensures var s := Reconcile(Extracted(messages));
            s.opening + s.output + s.toolResult + s.discarded == s.observed && s.balanced
  {
    var turns := Extracted(messages);
    var n := |turns|;
    SharesByPosition(messages);
    ExtractionExplains(messages);
    if n > 0 {
      SplitUpTo(turns, n);
      LastIsFree(Results(turns));
      LastIsFree(Discards(turns));
    }
  }

  /** Nothing comes after the last entry. */
  lemma LastIsFree(xs: seq<int>)
    requires xs != []
    ensures Weighted(xs, |xs|) == Weighted(xs[..|xs| - 1], |xs|)
  {
    assert Last(xs) * (|xs| - |xs|) == 0;
  }

  // ---------- context tax ----------

  lemma {:induction false} TaxIsWeighted(total: int, xs: seq<int>, taxes: seq<int>)
    requires |xs| == |taxes|
    requires forall i :: 0 <= i < |xs| ==> taxes[i] == xs[i] * (total - (i + 1))
    ensures Sum(taxes) == Weighted(xs, total)
  {
    if xs == [] {
    } else {
      TaxIsWeighted(total, Init(xs), Init(taxes));
    }
  }

  /** The total tax is, over all turns, the tool results of the turns before it; it
      equals the tool share, so with the opening and the output it exceeds what was
      reread by exactly the negated discarded share. */
  lemma ContextTax(messages: seq<Message>)
    ensures var turns := Extracted(messages);
            var tax, s := Sum(Taxes(WithContextTax(turns))), Reconcile(turns);
            && tax == Sum(PrefixSums(Results(turns)))
            && tax == s.toolResult
            && s.opening + s.output + tax == s.observed - s.discarded
  {
    var turns := Extracted(messages);
    TaxIsWeighted(|turns|, Results(turns), Taxes(WithContextTax(turns)));
    DoubleSum(Results(turns));
    SharesByPosition(messages);
    ReconciliationBalances(messages);
  }

  lemma DiscardedIsNegativePart(messages: seq<Message>, i: nat)
    requires i < |messages|
    ensures var t := Extracted(messages)[i];
            && t.discarded <= 0 <= t.result
            && (t.discarded == 0 || t.result == 0)
            && (t.compacted <==> t.discarded < 0)
            && (i == |messages| - 1 ==> t.discarded == 0)
  {
  }

  lemma {:induction false} NonPositiveWeights(xs: seq<int>, total: int)
    requires |xs| <= total
    requires forall i :: 0 <= i < |xs| ==> xs[i] <= 0
    requires |xs| == total ==> |xs| == 0 || Last(xs) == 0
    ensures Weighted(xs, total) <= 0
    ensures Weighted(xs, total) == 0 <==> forall i :: 0 <= i < |xs| ==> xs[i] == 0
  {
    if xs == [] {
    } else {
      var weight := total - |xs|;
      NonPositiveWeights(Init(xs), total);
      assert forall i :: 0 <= i < |xs| - 1 ==> Init(xs)[i] == xs[i];
      if weight > 0 {
        NonPositiveProduct(Last(xs), weight);
      }
    }
  }

  lemma NonPositiveProduct(x: int, w: int)
    requires x <= 0 && w > 0
    ensures x * w <= 0 && (x * w == 0 <==> x == 0)
  {
  }

  /** The discarded share is never positive, and zero only if nothing was dropped. */
  lemma DiscardedShare(messages: seq<Message>)
    ensures var turns := Extracted(messages);
            && Reconcile(turns).discarded <= 0
            && (Reconcile(turns).discarded == 0 <==> !exists t :: t in turns && t.compacted)
  {
    var turns := Extracted(messages);
    var d := Discards(turns);
    SharesByPosition(messages);
    NonPositiveWeights(d, |turns|);
    if forall i :: 0 <= i < |d| ==> d[i] == 0 {
      forall t | t in turns
        ensures !t.compacted
      {
        var i :| 0 <= i < |turns| && turns[i] == t;
        assert d[i] == 0;
      }
    } else {
      var i :| 0 <= i < |d| && d[i] != 0;
      assert turns[i] in turns && turns[i].compacted;
    }
  }

  /** A run is measurable exactly when it has a turn and every step of the context
      grows by at least the output before it. */
  lemma MeasurableRuns(messages: seq<Message>)
    ensures IsMeasurable(Extracted(messages)) <==>
            && messages != []
            && forall i :: 0 <= i < |messages| - 1 ==>
                 ContextOf(messages[i + 1]) - ContextOf(messages[i]) >= messages[i].usage.output
  {
    var turns := Extracted(messages);
    ReconciliationBalances(messages);
    if i :| 0 <= i < |messages| - 1 && ContextOf(messages[i + 1]) - ContextOf(messages[i]) < messages[i].usage.output {
      assert turns[i] in turns && turns[i].compacted;
    } else {
      forall t | t in turns
        ensures !t.compacted
      {
        var i :| 0 <= i < |turns| && turns[i] == t;
      }
    }
  }

  /** Context tax is exact precisely for the measurable runs. */
  lemma TaxIsExactWhenMeasurable(messages: seq<Message>)
    requires messages != []
    ensures var turns := Extracted(messages);
            var tax, s := Sum(Taxes(WithContextTax(turns))), Reconcile(turns);
            && s.opening + s.output + tax >= s.observed
            && (s.opening + s.output + tax == s.observed <==> IsMeasurable(turns))
  {
    ContextTax(messages);
    ReconciliationBalances(messages);
    DiscardedShare(messages);
  }

  // ---------- why a run is not measurable ----------

  /** `ledger._invalid_reason`: the reasons, before they are joined with `+`. */
  function InvalidReasons(status: string, turns: seq<Turn>): seq<string> {
    if status == "succeeded" && IsMeasurable(turns) then []
    else
      var reasons :=
        (if status != "succeeded" then ["execution_error"] else [])
        + if turns == [] then ["no_turns"]
          else
            (if !Reconcile(turns).balanced then ["reconcile_unbalanced"] else [])
            + if exists t :: t in turns && t.compacted then ["compacted"] else [];
      if reasons == [] then ["unknown"] else reasons
  }

  /** For extracted turns two of the five reasons never appear, and an invalid run
      always has one of the other three. */
  lemma ReasonsOfExtractedTurns(status: string, messages: seq<Message>)
    ensures var turns := Extracted(messages);
            var reasons := InvalidReasons(status, turns);
            && "reconcile_unbalanced" !in reasons && "unknown" !in reasons
            && (reasons == [] <==> status == "succeeded" && IsMeasurable(turns))
            && ("no_turns" in reasons <==> messages == [])
            && ("compacted" in reasons <==> messages != [] && !IsMeasurable(turns))
            && reasons ==
               (if status != "succeeded" then ["execution_error"] else [])
               + (if messages == [] then ["no_turns"] else if !IsMeasurable(turns) then ["compacted"] else [])
  {
    ReconciliationBalances(messages);
  }

  // ---------- the columns of a turn ----------

  /** A turn's number, tools, context and output are those of its message; its result and
      what was discarded come from the next one. */
  lemma TurnShowsMessage(messages: seq<Message>, i: nat)
    requires i < |messages|
    ensures var t, usage := Extracted(messages)[i], messages[i].usage;
            && |Extracted(messages)| == |messages|
            && t.index == i + 1 && t.tools == messages[i].tools
            && t.context == usage.input + usage.cacheCreation + usage.cacheRead
            && t.output == usage.output
            && (i + 1 == |messages| ==> t.result == 0 && t.discarded == 0 && !t.compacted)
            && (i + 1 < |messages| ==>
                  var next := messages[i + 1].usage;
                  var rest := next.input + next.cacheCreation + next.cacheRead - t.context - t.output;
                  && (rest >= 0 ==> t.result == rest && t.discarded == 0 && !t.compacted)
                  && (rest < 0 ==> t.result == 0 && t.discarded == rest && t.compacted))
  {
  }

  /** A turn is taxed once for each turn that comes after it, and otherwise as it was. */
  lemma TaxOfATurn(messages: seq<Message>, i: nat)
    requires i < |messages|
    ensures var turns := Extracted(messages);
            && |WithContextTax(turns)| == |turns|
            && WithContextTax(turns)[i] == turns[i].(tax := turns[i].result * |turns[i + 1..]|)
  {
    ExtractionExplains(messages);
  }

  lemma OutputShare(messages: seq<Message>)
    ensures Reconcile(Extracted(messages)).output == Sum(PrefixSums(Outputs(Extracted(messages))))
  {
    var xs := Outputs(Extracted(messages));
    SharesByPosition(messages);
    DoubleSum(xs);
    if messages != [] {
      LastIsFree(xs);
      assert xs[..|messages| - 1] == xs[..|xs| - 1];
    } else {
      assert PrefixSums(xs) == [];
    }
  }

  /** Each share, as a sum over the turns that pay it: every turn after the first rereads
      the opening, the outputs, the results and the discards before it. */
  lemma SharesArePrefixSums(messages: seq<Message>)
    ensures var turns := Extracted(messages);
            var s := Reconcile(turns);
            && s.toolResult == Sum(PrefixSums(Results(turns)))
            && s.discarded == Sum(PrefixSums(Discards(turns)))
            && s.output == Sum(PrefixSums(Outputs(turns)))
  {
    SharesByPosition(messages);
    DoubleSum(Results(Extracted(messages)));
    DoubleSum(Discards(Extracted(messages)));
    OutputShare(messages);
  }

  lemma ObservedRest(turns: seq<Turn>)
    requires turns != []
    ensures Reconcile(turns).observed == Sum(Contexts(turns)) - turns[0].context
  {
    assert Contexts(turns[1..]) == Contexts(turns)[1..];
    SumOfRest(Contexts(turns));
  }

  /** The opening is reread by every turn after the first, and what was observed is all
      contexts but the first. */
  lemma OpeningAndObserved(messages: seq<Message>)
    requires messages != []
    ensures var turns := Extracted(messages);
            && Reconcile(turns).opening == (|turns| - 1) * turns[0].context
            && Reconcile(turns).observed == Sum(Contexts(turns)) - turns[0].context
  {
    ObservedRest(Extracted(messages));
  }

  lemma {:induction false} SumOfRest(xs: seq<int>)
    requires xs != []
    ensures Sum(xs[1..]) == Sum(xs) - xs[0]
  {
    if |xs| == 1 {
      assert Init(xs) == [] && xs[1..] == [];
    } else {
      SumOfRest(Init(xs));
      assert Init(xs)[1..] == Init(xs[1..]);
    }
  }
}
