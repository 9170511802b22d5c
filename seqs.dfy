/**
 * Sequence helpers for the list idioms the program uses: counting
 * occurrences, the first index of an element, and de-duplication that keeps
 * the first occurrence (a list filled in a loop guarded by a `seen` set).
 */
module Seqs {

  /** How many times `x` occurs in `xs` (`xs.count(x)`). */
  function Occurrences<T(==)>(xs: seq<T>, x: T): (n: nat)
    ensures n == 0 <==> x !in xs
    ensures n <= |xs|
    decreases |xs|
  {
    if xs == [] then 0
    else Occurrences(xs[..|xs| - 1], x) + (if xs[|xs| - 1] == x then 1 else 0)
  }

  /** The index of the first `x` in `xs` (`xs.index(x)`). */
  function FirstIndex<T(==)>(xs: seq<T>, x: T): (i: nat)
    requires x in xs
    ensures i < |xs| && xs[i] == x
    ensures forall j :: 0 <= j < i ==> xs[j] != x
    decreases |xs|
  {
    if xs[0] == x then 0 else 1 + FirstIndex(xs[1..], x)
  }

  lemma FirstIndexAppend<T>(xs: seq<T>, y: T, x: T)
    requires x in xs
    ensures x in xs + [y] && FirstIndex(xs + [y], x) == FirstIndex(xs, x)
  {
    var i := FirstIndex(xs, x);
    var k := FirstIndex(xs + [y], x);
    assert (xs + [y])[i] == x;
    assert k <= i;
    assert xs[k] == x;
  }

  lemma FirstIndexNew<T>(xs: seq<T>, y: T)
    requires y !in xs
    ensures FirstIndex(xs + [y], y) == |xs|
  {
  }

  /** No element occurs twice. */
  predicate Distinct<T(==)>(xs: seq<T>) {
    forall i, j :: 0 <= i < j < |xs| ==> xs[i] != xs[j]
  }

  /**
   * The elements of `xs` whose key has not been seen before, in order:
   * what a loop that appends `x` only when `key(x)` is not yet in a `seen`
   * set (and then adds it) collects.
   */
  function DedupBy<T, K(==)>(xs: seq<T>, key: T -> K): seq<T>
    decreases |xs|
  {
    if xs == [] then []
    else
      var d := DedupBy(xs[..|xs| - 1], key);
      var x := xs[|xs| - 1];
      if key(x) in KeysOf(d, key) then d else d + [x]
  }

  /** The keys of a sequence, as a set. */
  function KeysOf<T, K>(xs: seq<T>, key: T -> K): set<K>
    decreases |xs|
  {
    if xs == [] then {} else KeysOf(xs[..|xs| - 1], key) + {key(xs[|xs| - 1])}
  }

  /** The keys of a sequence are exactly the keys of its elements. */
  lemma {:induction false} KeysOfSpec<T, K>(xs: seq<T>, key: T -> K)
    ensures forall i :: 0 <= i < |xs| ==> key(xs[i]) in KeysOf(xs, key)
    ensures forall k :: k in KeysOf(xs, key) ==> exists i :: 0 <= i < |xs| && key(xs[i]) == k
    decreases |xs|
  {
    if xs != [] {
      var p := xs[..|xs| - 1];
      KeysOfSpec(p, key);
      forall k | k in KeysOf(xs, key) ensures exists i :: 0 <= i < |xs| && key(xs[i]) == k {
        if k in KeysOf(p, key) {
          var i :| 0 <= i < |p| && key(p[i]) == k;
          assert xs[i] == p[i];
        } else {
          assert key(xs[|xs| - 1]) == k;
        }
      }
      forall i | 0 <= i < |xs| ensures key(xs[i]) in KeysOf(xs, key) {
        if i < |p| { assert xs[i] == p[i]; }
      }
    }
  }

  lemma OccurrencesAppend<T>(xs: seq<T>, x: T, y: T)
    ensures Occurrences(xs + [x], y) == Occurrences(xs, y) + (if x == y then 1 else 0)
  {
    assert (xs + [x])[..|xs|] == xs;
  }

  lemma KeysOfAppend<T, K>(xs: seq<T>, x: T, key: T -> K)
    ensures KeysOf(xs + [x], key) == KeysOf(xs, key) + {key(x)}
  {
    assert (xs + [x])[..|xs|] == xs;
  }

  /** One more element: kept when its key is new, dropped otherwise. */
  lemma DedupByAppend<T, K>(xs: seq<T>, x: T, key: T -> K)
    ensures DedupBy(xs + [x], key)
      == if key(x) in KeysOf(DedupBy(xs, key), key) then DedupBy(xs, key) else DedupBy(xs, key) + [x]
  {
    assert (xs + [x])[..|xs|] == xs;
  }

  lemma FlattenAppend<T>(xs: seq<seq<T>>, x: seq<T>)
    ensures Flatten(xs + [x]) == Flatten(xs) + x
  {
    assert (xs + [x])[..|xs|] == xs;
  }

  function Identity<T>(x: T): T { x }

  /** De-duplication by the element itself. */
  function DedupFirst<T(==)>(xs: seq<T>): seq<T> {
    DedupBy(xs, Identity)
  }

  /** No two elements kept by `DedupBy` share a key. */
  lemma {:induction false} DedupByDistinctKeys<T, K>(xs: seq<T>, key: T -> K)
    ensures forall i, j :: 0 <= i < j < |DedupBy(xs, key)| ==> key(DedupBy(xs, key)[i]) != key(DedupBy(xs, key)[j])
    decreases |xs|
  {
    if xs != [] {
      var p := xs[..|xs| - 1];
      var x := xs[|xs| - 1];
      DedupByDistinctKeys(p, key);
      var d := DedupBy(p, key);
      KeysOfSpec(d, key);
      if key(x) !in KeysOf(d, key) {
        var d' := d + [x];
        forall i, j | 0 <= i < j < |d'| ensures key(d'[i]) != key(d'[j]) {
          if j == |d| {
            assert key(d[i]) in KeysOf(d, key);
          } else {
            assert d'[i] == d[i] && d'[j] == d[j];
          }
        }
      }
    }
  }

  /** `DedupBy` keeps every key of the input, and no other. */
  lemma {:induction false} DedupByKeys<T, K>(xs: seq<T>, key: T -> K)
    ensures KeysOf(DedupBy(xs, key), key) == KeysOf(xs, key)
    decreases |xs|
  {
    if xs != [] {
      var p := xs[..|xs| - 1];
      var x := xs[|xs| - 1];
      DedupByKeys(p, key);
      var d := DedupBy(p, key);
      if key(x) !in KeysOf(d, key) {
        assert (d + [x])[..|d|] == d;
      }
    }
  }

  /** Every element kept by `DedupBy` is an element of the input. */
  lemma {:induction false} DedupByMembers<T, K>(xs: seq<T>, key: T -> K)
    ensures forall x :: x in DedupBy(xs, key) ==> x in xs
    decreases |xs|
  {
    if xs != [] {
      var p := xs[..|xs| - 1];
      DedupByMembers(p, key);
      assert forall x :: x in p ==> x in xs;
    }
  }

  /** De-duplication by identity: distinct, and the same elements. */
  lemma DedupFirstSpec<T>(xs: seq<T>)
    ensures Distinct(DedupFirst(xs))
    ensures forall i :: 0 <= i < |DedupFirst(xs)| ==> DedupFirst(xs)[i] in xs
    ensures forall x :: x in xs ==> x in DedupFirst(xs)
  {
    DedupByDistinctKeys(xs, Identity);
    DedupByKeys(xs, Identity);
    DedupByMembers(xs, Identity);
    var d := DedupFirst(xs);
    KeysOfSpec(xs, Identity);
    KeysOfSpec(d, Identity);
    forall x | x in xs ensures x in d {
      var i :| 0 <= i < |xs| && xs[i] == x;
      assert Identity(xs[i]) in KeysOf(xs, Identity);
    }
  }

  /** One more element: kept when it is new, dropped when already kept. */
  lemma DedupFirstAppend<T>(xs: seq<T>, x: T)
    ensures DedupFirst(xs + [x]) == if x in DedupFirst(xs) then DedupFirst(xs) else DedupFirst(xs) + [x]
  {
    var d := DedupFirst(xs);
    DedupByAppend(xs, x, Identity);
    KeysOfSpec(d, Identity);
    if x in d {
      var k :| 0 <= k < |d| && d[k] == x;
      assert Identity(d[k]) in KeysOf(d, Identity);
    }
  }

  /** Keeping first occurrences keeps the order of first occurrences. */
  lemma {:induction false} DedupFirstOrder<T>(xs: seq<T>, p: nat, q: nat)
    requires p < q < |DedupFirst(xs)|
    ensures DedupFirst(xs)[p] in xs && DedupFirst(xs)[q] in xs
    ensures FirstIndex(xs, DedupFirst(xs)[p]) < FirstIndex(xs, DedupFirst(xs)[q])
    decreases |xs|
  {
    DedupFirstSpec(xs);
    var pre := xs[..|xs| - 1];
    var y := xs[|xs| - 1];
    var d := DedupFirst(pre);
    DedupFirstSpec(pre);
    assert xs == pre + [y];
    if q < |d| {
      DedupFirstOrder(pre, p, q);
      FirstIndexAppend(pre, y, d[p]);
      FirstIndexAppend(pre, y, d[q]);
    } else {
      KeysOfSpec(d, Identity);
      assert y !in pre;
      assert DedupFirst(xs) == d + [y];
      assert DedupFirst(xs)[q] == y && DedupFirst(xs)[p] == d[p];
      FirstIndexNew(pre, y);
      assert d[p] in pre;
      FirstIndexAppend(pre, y, d[p]);
    }
  }

  /** `sum(len(x) for x in xs)`. */
  function TotalLength<T>(xs: seq<seq<T>>): nat
    decreases |xs|
  {
    if xs == [] then 0 else TotalLength(xs[..|xs| - 1]) + |xs[|xs| - 1]|
  }

  /** The concatenation of a sequence of sequences (`list.extend` in a loop). */
  function Flatten<T>(xs: seq<seq<T>>): seq<T>
    decreases |xs|
  {
    if xs == [] then [] else Flatten(xs[..|xs| - 1]) + xs[|xs| - 1]
  }

  lemma {:induction false} FlattenLength<T>(xs: seq<seq<T>>)
    ensures |Flatten(xs)| == TotalLength(xs)
    decreases |xs|
  {
    if xs != [] { FlattenLength(xs[..|xs| - 1]); }
  }
}
