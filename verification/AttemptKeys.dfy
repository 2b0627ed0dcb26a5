/** Keys of published attempts, from `token_bench/ledger.py`.

    The first attempt of a run is published under its run id, later ones under
    `id#2`, `id#3` and so on.
 */
module AttemptKeys {

  /** What every run id of the job store satisfies. */
  predicate PlainRunId(runId: string) {
    runId != "" && '#' !in runId
  }

  /** The text before the first `#`. */
  function BaseRunId(key: string): string {
    if key == "" || key[0] == '#' then "" else [key[0]] + BaseRunId(key[1..])
  }

  const DIGITS := "0123456789"

  function Decimal(n: nat): string {
    if n < 10 then [DIGITS[n]] else Decimal(n / 10) + [DIGITS[n % 10]]
  }

  function AttemptKey(runId: string, attempt: nat): string {
    if attempt <= 1 then runId else runId + "#" + Decimal(attempt)
  }

  /** The first key of the run, from the given attempt on, that is not taken. */
  function FreshKey(runId: string, published: set<string>, attempt: nat): string
    decreases |published|
  {
    var key := AttemptKey(runId, attempt);
    if key !in published then key else FreshKey(runId, published - {key}, attempt + 1)
  }

  lemma {:induction false} DecimalIsInjective(m: nat, n: nat)
    requires Decimal(m) == Decimal(n)
    ensures m == n
  {
    if m < 10 || n < 10 {
      DecimalLength(m);
      DecimalLength(n);
    } else {
      var a, b := Decimal(m / 10), Decimal(n / 10);
      assert a == Decimal(m)[..|Decimal(m)| - 1] == Decimal(n)[..|Decimal(n)| - 1] == b;
      DecimalIsInjective(m / 10, n / 10);
      assert DIGITS[m % 10] == Decimal(m)[|a|] == DIGITS[n % 10];
    }
  }

  lemma {:induction false} DecimalLength(n: nat)
    ensures |Decimal(n)| >= 1 && (|Decimal(n)| == 1 <==> n < 10)
  {
    if n >= 10 {
      DecimalLength(n / 10);
    }
  }

  lemma {:induction false} AttemptKeyIsInjective(runId: string, i: nat, j: nat)
    requires 1 <= i && 1 <= j && AttemptKey(runId, i) == AttemptKey(runId, j)
    ensures i == j
  {
    var prefix := runId + "#";
    if i > 1 && j > 1 {
      assert Decimal(i) == AttemptKey(runId, i)[|prefix|..] == AttemptKey(runId, j)[|prefix|..] == Decimal(j);
      DecimalIsInjective(i, j);
    }
  }

  lemma {:induction false} BaseOfSuffixed(runId: string, suffix: string)
    requires '#' !in runId && (suffix == "" || suffix[0] == '#')
    ensures BaseRunId(runId + suffix) == runId
  {
    if runId == "" {
      assert runId + suffix == suffix;
    } else {
      assert (runId + suffix)[1..] == runId[1..] + suffix;
      BaseOfSuffixed(runId[1..], suffix);
    }
  }

  /** Stripping the attempt number gives the run id back. */
  lemma BaseOfAttemptKey(runId: string, attempt: nat)
    requires PlainRunId(runId)
    ensures BaseRunId(AttemptKey(runId, attempt)) == runId
  {
    if attempt <= 1 {
      BaseOfSuffixed(runId, "");
      assert runId + "" == runId;
    } else {
      BaseOfSuffixed(runId, "#" + Decimal(attempt));
      assert runId + "#" + Decimal(attempt) == runId + ("#" + Decimal(attempt));
    }
  }

  ghost predicate IsFreshKey(runId: string, published: set<string>, first: nat, attempt: nat, key: string) {
    && first <= attempt
    && key == AttemptKey(runId, attempt)
    && key !in published
    && forall j :: first <= j < attempt ==> AttemptKey(runId, j) in published
  }

  /** The fresh key is the least free one. */
  lemma {:induction false} FreshKeyIsLeast(runId: string, published: set<string>, first: nat) returns (attempt: nat)
    requires 1 <= first
    ensures IsFreshKey(runId, published, first, attempt, FreshKey(runId, published, first))
    decreases |published|
  {
    var key := AttemptKey(runId, first);
    if key !in published {
      attempt := first;
    } else {
      attempt := FreshKeyIsLeast(runId, published - {key}, first + 1);
      FreshKeyOneEarlier(runId, published, first, attempt, FreshKey(runId, published - {key}, first + 1));
    }
  }

  lemma FreshKeyOneEarlier(runId: string, published: set<string>, first: nat, attempt: nat, key: string)
    requires 1 <= first && AttemptKey(runId, first) in published
    requires IsFreshKey(runId, published - {AttemptKey(runId, first)}, first + 1, attempt, key)
    ensures IsFreshKey(runId, published, first, attempt, key)
  {
    if key == AttemptKey(runId, first) {
      AttemptKeyIsInjective(runId, first, attempt);
      assert false;
    }
  }

  lemma LaterAttemptsDiffer(runId: string, attempt: nat)
    requires 1 <= attempt
    ensures forall j :: attempt < j ==> AttemptKey(runId, j) != AttemptKey(runId, attempt)
  {
    forall j | attempt < j && AttemptKey(runId, j) == AttemptKey(runId, attempt)
      ensures false
    {
      AttemptKeyIsInjective(runId, attempt, j);
    }
  }

  /** The search ends for every finite set of published keys, at the least free
      attempt, with a key that belongs to the run. */
  method AttemptRunId(runId: string, published: set<string>) returns (key: string)
    ensures key == FreshKey(runId, published, 1)
    ensures key !in published
    ensures PlainRunId(runId) ==> BaseRunId(key) == runId
    ensures exists k {:trigger AttemptKey(runId, k)} :: IsFreshKey(runId, published, 1, k, key)
  {
    ghost var least := FreshKeyIsLeast(runId, published, 1);
    if PlainRunId(runId) {
      BaseOfAttemptKey(runId, least);
    }
    if runId !in published {
      return runId;
    }
    var attempt := 2;
    ghost var passed := {runId};
    while runId + "#" + Decimal(attempt) in published
      invariant 2 <= attempt
      invariant passed <= published && |passed| == attempt - 1
      invariant forall j :: attempt <= j ==> AttemptKey(runId, j) !in passed
      invariant FreshKey(runId, published, 1) == FreshKey(runId, published - passed, attempt)
      decreases |published| - |passed|
    {
      var taken := AttemptKey(runId, attempt);
      assert published - passed - {taken} == published - (passed + {taken});
      LaterAttemptsDiffer(runId, attempt);
      SubsetIsNoLarger(passed + {taken}, published);
      passed := passed + {taken};
      attempt := attempt + 1;
    }
    key := runId + "#" + Decimal(attempt);
  }

  lemma SubsetIsNoLarger<T>(a: set<T>, b: set<T>)
    requires a <= b
    ensures |a| <= |b|
  {
    assert b == a + (b - a);
  }

  // ---------- the text of a key ----------

  /** The number that a numeral stands for. */
  function Value(numeral: string): int {
    if numeral == "" then 0
    else 10 * Value(numeral[..|numeral| - 1]) + (numeral[|numeral| - 1] as int - '0' as int)
  }

  ghost predicate Numeral(text: string) {
    && text != "" && (text[0] == '0' ==> |text| == 1)
    && forall i :: 0 <= i < |text| ==> '0' <= text[i] <= '9'
  }

  /** Attempt numbers are written in decimal. */
  lemma {:induction false} DecimalIsTheNumeral(n: nat)
    ensures Numeral(Decimal(n)) && Value(Decimal(n)) == n
    ensures n > 0 ==> Decimal(n)[0] != '0'
  {
    assert forall d :: 0 <= d < 10 ==> DIGITS[d] as int == '0' as int + d;
    if n < 10 {
      assert Decimal(n)[..0] == "";
    } else {
      DecimalIsTheNumeral(n / 10);
      assert Decimal(n)[..|Decimal(n)| - 1] == Decimal(n / 10);
      assert Decimal(n)[0] == Decimal(n / 10)[0];
    }
  }

  /** The keys of a run: its id, then its id with `#2`, `#3` and so on. */
  lemma KeysOfARun(runId: string, attempt: nat)
    requires 1 <= attempt
    ensures AttemptKey(runId, 1) == runId
    ensures AttemptKey(runId, 2) == runId + "#2" && AttemptKey(runId, 3) == runId + "#3"
    ensures attempt >= 2 ==>
              exists numeral :: AttemptKey(runId, attempt) == runId + "#" + numeral
                                && Numeral(numeral) && Value(numeral) == attempt
  {
    DecimalIsTheNumeral(attempt);
    assert Decimal(2) == "2" && Decimal(3) == "3";
    assert runId + "#" + "2" == runId + "#2" && runId + "#" + "3" == runId + "#3";
  }

  /** The base of a key is what stands before its first `#`. */
  lemma {:induction false} BaseEndsAtHash(key: string)
    ensures var base := BaseRunId(key);
            '#' !in base && (key == base || (|base| < |key| && key[..|base|] == base && key[|base|] == '#'))
  {
    if key == "" || key[0] == '#' {
    } else {
      BaseEndsAtHash(key[1..]);
      assert key == [key[0]] + key[1..];
    }
  }
}
