/** Grouping rows under keys and listing keys in ascending order, as dictionaries
    filled with `setdefault` and read with `sorted` do. */
module Grouping {

  /** The distinct keys in the order they first occur. */
  function Keys<K(==), R>(items: seq<R>, key: R -> K): seq<K> {
    if items == [] then []
    else
      var earlier, k := Keys(items[..|items| - 1], key), key(items[|items| - 1]);
      if k in earlier then earlier else earlier + [k]
  }

  /** The items under one key, in order. */
  function Members<K(==), R>(items: seq<R>, key: R -> K, k: K): seq<R> {
    if items == [] then []
    else
      Members(items[..|items| - 1], key, k)
      + if key(items[|items| - 1]) == k then [items[|items| - 1]] else []
  }

  lemma {:induction false} MembersAreTheItems<K, R>(items: seq<R>, key: R -> K, k: K)
    ensures forall r :: r in Members(items, key, k) <==> r in items && key(r) == k
  {
    if items == [] {
    } else {
      MembersAreTheItems(items[..|items| - 1], key, k);
      assert items == items[..|items| - 1] + [items[|items| - 1]];
    }
  }

  lemma {:induction false} KeysAreTheKeys<K, R>(items: seq<R>, key: R -> K)
    ensures forall k :: k in Keys(items, key) <==> Members(items, key, k) != []
  {
    if items == [] {
    } else {
      KeysAreTheKeys(items[..|items| - 1], key);
    }
  }

  lemma MembersOneMore<K, R>(items: seq<R>, r: R, key: R -> K, k: K)
    ensures Members(items + [r], key, k) == Members(items, key, k) + if key(r) == k then [r] else []
  {
    assert (items + [r])[..|items|] == items;
  }

  lemma {:induction false} MembersConcat<K, R>(a: seq<R>, b: seq<R>, key: R -> K, k: K)
    ensures Members(a + b, key, k) == Members(a, key, k) + Members(b, key, k)
  {
    if b == [] {
      assert a + b == a;
    } else {
      assert (a + b)[..|a + b| - 1] == a + b[..|b| - 1];
      MembersConcat(a, b[..|b| - 1], key, k);
    }
  }

  method GroupBy<K(==), R>(items: seq<R>, key: R -> K) returns (keys: seq<K>, groups: map<K, seq<R>>)
    ensures keys == Keys(items, key)
    ensures forall k :: k in groups <==> k in keys
    ensures forall k :: k in groups ==> groups[k] == Members(items, key, k)
  {
    keys, groups := [], map[];
    KeysAreTheKeys(items[..0], key);
    for i := 0 to |items|
      invariant keys == Keys(items[..i], key)
      invariant forall k :: k in groups <==> k in keys
      invariant forall k :: k in groups ==> groups[k] == Members(items[..i], key, k)
    {
      var k := key(items[i]);
      assert items[..i + 1][..i] == items[..i];
      KeysAreTheKeys(items[..i], key);
      if k !in groups {
        assert Members(items[..i], key, k) == [];
        groups := groups[k := []];
        keys := keys + [k];
      }
      groups := groups[k := groups[k] + [items[i]]];
      assert groups[k] == Members(items[..i], key, k) + [items[i]] == Members(items[..i + 1], key, k);
    }
    assert items[..|items|] == items;
  }

  // ---------- ascending order ----------

  ghost predicate StrictOrder<K(!new)>(less: (K, K) -> bool) {
    && (forall a :: !less(a, a))
    && (forall a, b, c :: less(a, b) && less(b, c) ==> less(a, c))
    && (forall a, b :: a == b || less(a, b) || less(b, a))
  }

  ghost predicate Ascending<K>(ks: seq<K>, less: (K, K) -> bool) {
    forall i, j :: 0 <= i < j < |ks| ==> less(ks[i], ks[j])
  }

  function Insert<K(==)>(ks: seq<K>, k: K, less: (K, K) -> bool): seq<K> {
    if ks == [] then [k]
    else if k == ks[0] then ks
    else if less(k, ks[0]) then [k] + ks
    else [ks[0]] + Insert(ks[1..], k, less)
  }

  function Sorted<K(==)>(ks: seq<K>, less: (K, K) -> bool): seq<K> {
    if ks == [] then [] else Insert(Sorted(ks[..|ks| - 1], less), ks[|ks| - 1], less)
  }

  lemma {:induction false} InsertMembers<K>(ks: seq<K>, k: K, less: (K, K) -> bool)
    ensures forall x :: x in Insert(ks, k, less) <==> x == k || x in ks
  {
    if ks != [] && k != ks[0] && !less(k, ks[0]) {
      InsertMembers(ks[1..], k, less);
      assert ks == [ks[0]] + ks[1..];
    }
  }

  lemma {:induction false} InsertAscends<K(!new)>(ks: seq<K>, k: K, less: (K, K) -> bool)
    requires StrictOrder(less) && Ascending(ks, less)
    ensures Ascending(Insert(ks, k, less), less)
  {
    if ks != [] && k != ks[0] && !less(k, ks[0]) {
      var rest := Insert(ks[1..], k, less);
      InsertAscends(ks[1..], k, less);
      InsertMembers(ks[1..], k, less);
      forall j | 0 <= j < |rest|
        ensures less(ks[0], rest[j])
      {
        assert rest[j] in rest;
        if rest[j] != k {
          var i :| 0 <= i < |ks[1..]| && ks[1..][i] == rest[j];
          assert less(ks[0], ks[i + 1]);
        }
      }
    }
  }

  lemma {:induction false} SortedIsSorted<K(!new)>(ks: seq<K>, less: (K, K) -> bool)
    requires StrictOrder(less)
    ensures Ascending(Sorted(ks, less), less)
    ensures forall k :: k in Sorted(ks, less) <==> k in ks
  {
    if ks == [] {
    } else {
      var init, last := ks[..|ks| - 1], ks[|ks| - 1];
      SortedIsSorted(init, less);
      InsertAscends(Sorted(init, less), last, less);
      InsertMembers(Sorted(init, less), last, less);
      assert ks == init + [last];
    }
  }

  /** A strictly ascending list is determined by its members. */
  lemma {:induction false} AscendingIsUnique<K(!new)>(a: seq<K>, b: seq<K>, less: (K, K) -> bool)
    requires forall x, y :: less(x, y) ==> !less(y, x)
    requires Ascending(a, less) && Ascending(b, less)
    requires forall x :: x in a <==> x in b
    ensures a == b
  {
    assert |a| == 0 || a[0] in b;
    assert |b| == 0 || b[0] in a;
    if a != [] && b != [] {
      FirstIsTheSame(a, b, less);
      FirstIsNotLater(a, less);
      FirstIsNotLater(b, less);
      forall x
        ensures x in a[1..] <==> x in b[1..]
      {
        assert x in a <==> x == a[0] || x in a[1..];
        assert x in b <==> x == b[0] || x in b[1..];
      }
      AscendingIsUnique(a[1..], b[1..], less);
      assert a == [a[0]] + a[1..] && b == [b[0]] + b[1..];
    }
  }

  lemma FirstIsNotLater<K(!new)>(a: seq<K>, less: (K, K) -> bool)
    requires forall x, y :: less(x, y) ==> !less(y, x)
    requires a != [] && Ascending(a, less)
    ensures a[0] !in a[1..]
  {
    forall i | 0 <= i < |a[1..]|
      ensures a[1..][i] != a[0]
    {
      assert less(a[0], a[i + 1]);
    }
  }

  lemma FirstIsTheSame<K(!new)>(a: seq<K>, b: seq<K>, less: (K, K) -> bool)
    requires forall x, y :: less(x, y) ==> !less(y, x)
    requires a != [] && b != [] && Ascending(a, less) && Ascending(b, less)
    requires forall x :: x in a <==> x in b
    ensures a[0] == b[0]
  {
    assert a[0] in b && b[0] in a;
    var i :| 0 <= i < |b| && b[i] == a[0];
    var j :| 0 <= j < |a| && a[j] == b[0];
    assert i > 0 ==> less(b[0], a[0]);
    assert j > 0 ==> less(a[0], b[0]);
  }

  // ---------- text order ----------

  /** Comparison of texts, character by character. */
  predicate Less(a: string, b: string) {
    b != "" && (a == "" || a[0] < b[0] || (a[0] == b[0] && Less(a[1..], b[1..])))
  }

  lemma {:induction false} LessIsTransitive(a: string, b: string, c: string)
    requires Less(a, b) && Less(b, c)
    ensures Less(a, c)
  {
    if a != "" && a[0] == b[0] == c[0] {
      LessIsTransitive(a[1..], b[1..], c[1..]);
    }
  }

  lemma {:induction false} LessIsTotal(a: string, b: string)
    ensures !Less(a, a)
    ensures a == b || Less(a, b) || Less(b, a)
  {
    if a != "" {
      LessIsTotal(a[1..], if b == "" then "" else b[1..]);
      if b != "" && a[0] == b[0] && a[1..] == b[1..] {
        assert a == [a[0]] + a[1..] && b == [b[0]] + b[1..];
      }
    }
  }

  lemma LessIsAsymmetric(a: string, b: string)
    ensures !(Less(a, b) && Less(b, a))
  {
    LessIsTotal(a, a);
    if Less(a, b) {
      forall x | x == a && Less(b, x)
        ensures false
      {
        LessIsTransitive(a, b, x);
      }
    }
  }

  lemma LessIsStrictOrder()
    ensures StrictOrder(Less)
  {
    forall a, b
      ensures !Less(a, a) && (a == b || Less(a, b) || Less(b, a))
    {
      LessIsTotal(a, b);
    }
    forall a, b, c | Less(a, b) && Less(b, c)
      ensures Less(a, c)
    {
      LessIsTransitive(a, b, c);
    }
  }

  /** Strings are ordered by their first difference; a proper beginning comes first. */
  lemma {:induction false} LessIsLexicographic(a: string, b: string)
    ensures Less(a, b) <==> exists k: nat :: DiffersAt(a, b, k)
  {
    if a == "" || b == "" {
      assert b != "" ==> DiffersAt(a, b, 0);
    } else if a[0] != b[0] {
      assert a[0] < b[0] ==> DiffersAt(a, b, 0);
      forall k: nat | DiffersAt(a, b, k)
        ensures k == 0
      {
      }
    } else {
      LessIsLexicographic(a[1..], b[1..]);
      if k: nat :| DiffersAt(a, b, k) {
        assert k > 0;
        assert a[..k][1..] == a[1..][..k - 1] && b[..k][1..] == b[1..][..k - 1];
        assert DiffersAt(a[1..], b[1..], k - 1);
      }
      if k: nat :| DiffersAt(a[1..], b[1..], k) {
        assert a[..k + 1] == [a[0]] + a[1..][..k] && b[..k + 1] == [b[0]] + b[1..][..k];
        assert DiffersAt(a, b, k + 1);
      }
    }
  }

  /** The strings agree before `k`, and there the first ends or has the smaller character. */
  ghost predicate DiffersAt(a: string, b: string, k: nat) {
    k <= |a| && k < |b| && a[..k] == b[..k] && (k == |a| || a[k] < b[k])
  }
}
