/** Stock facts about sequences. */
module Sequences {

  lemma Associative<T>(a: seq<T>, b: seq<T>, c: seq<T>)
    ensures a + b + c == a + (b + c)
  {
  }

  // ---------- picking some of the items ----------

  ghost predicate Increasing(at: seq<nat>) {
    forall j, k :: 0 <= j < k < |at| ==> at[j] < at[k]
  }

  ghost predicate Hits(at: seq<nat>, i: nat) {
    exists k :: 0 <= k < |at| && at[k] == i
  }

  /** Every result comes from a kept item. */
  ghost predicate Sound<A, B>(s: seq<A>, keep: A -> bool, of: (A, B) -> bool, r: seq<B>, at: seq<nat>) {
    |at| == |r| && forall k :: 0 <= k < |at| ==> at[k] < |s| && keep(s[at[k]]) && of(s[at[k]], r[k])
  }

  /** Every kept item has a result. */
  ghost predicate Complete<A>(s: seq<A>, keep: A -> bool, at: seq<nat>) {
    forall i :: 0 <= i < |s| && keep(s[i]) ==> Hits(at, i)
  }

  ghost predicate PickedAt<A, B>(s: seq<A>, keep: A -> bool, of: (A, B) -> bool, r: seq<B>, at: seq<nat>) {
    Increasing(at) && Sound(s, keep, of, r, at) && Complete(s, keep, at)
  }

  /** There is one result for each kept item, in the order of the items. */
  ghost predicate Picked<A, B>(s: seq<A>, keep: A -> bool, of: (A, B) -> bool, r: seq<B>) {
    exists at: seq<nat> :: PickedAt(s, keep, of, r, at)
  }

  lemma NothingPicked<A, B>(keep: A -> bool, of: (A, B) -> bool)
    ensures Picked<A, B>([], keep, of, [])
  {
    assert PickedAt<A, B>([], keep, of, [], []);
  }

  lemma HitsStand(at: seq<nat>, more: seq<nat>, i: nat)
    requires Hits(at, i) || Hits(more, i)
    ensures Hits(at + more, i)
  {
    if Hits(at, i) {
      var k :| 0 <= k < |at| && at[k] == i;
      assert (at + more)[k] == i;
    } else {
      var k :| 0 <= k < |more| && more[k] == i;
      assert (at + more)[|at| + k] == i;
    }
  }

  lemma CompleteLast<A>(s: seq<A>, x: A, keep: A -> bool, at: seq<nat>)
    requires Complete(s, keep, at)
    ensures Complete(s + [x], keep, at + if keep(x) then [|s|] else [])
  {
    var more := if keep(x) then [|s|] else [];
    forall i | 0 <= i < |s + [x]| && keep((s + [x])[i])
      ensures Hits(at + more, i)
    {
      if i < |s| {
        assert Hits(at, i);
      } else {
        assert more[0] == i;
      }
      HitsStand(at, more, i);
    }
  }

  lemma SoundLast<A, B>(s: seq<A>, x: A, keep: A -> bool, of: (A, B) -> bool, r: seq<B>, added: seq<B>, at: seq<nat>)
    requires Sound(s, keep, of, r, at)
    requires if keep(x) then |added| == 1 && of(x, added[0]) else added == []
    ensures Sound(s + [x], keep, of, r + added, at + if keep(x) then [|s|] else [])
  {
  }

  lemma PickedLast<A, B>(s: seq<A>, x: A, keep: A -> bool, of: (A, B) -> bool, r: seq<B>, added: seq<B>)
    requires Picked(s, keep, of, r)
    requires if keep(x) then |added| == 1 && of(x, added[0]) else added == []
    ensures Picked(s + [x], keep, of, r + added)
  {
    var at: seq<nat> :| PickedAt(s, keep, of, r, at);
    var at' := at + if keep(x) then [|s|] else [];
    SoundLast(s, x, keep, of, r, added, at);
    CompleteLast(s, x, keep, at);
    assert Increasing(at') by {
      assert Sound(s, keep, of, r, at);
    }
    assert PickedAt(s + [x], keep, of, r + added, at');
  }

  /** How many items are kept. */
  function Kept<A>(s: seq<A>, keep: A -> bool): nat {
    if s == [] then 0 else Kept(s[..|s| - 1], keep) + if keep(s[|s| - 1]) then 1 else 0
  }
}
