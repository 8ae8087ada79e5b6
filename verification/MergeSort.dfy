/** What the interpreter's `sort` computes (`packages/interpreter/src/prelude.ts`): the merges on
    sequences, and that they order stably. */
module MergeSort {

  /** Less-than tests that order: irreflexive, transitive, and with a transitive "neither is
      less". */
  ghost predicate StrictWeak<V(!new)>(less: (V, V) -> bool) {
    && (forall x :: !less(x, x))
    && (forall x, y, z :: less(x, y) && less(y, z) ==> less(x, z))
    && (forall x, y, z :: less(x, y) ==> less(x, z) || less(z, y))
  }

  /** From the second list only what is less than the first one's head. */
  function Merge<V>(a: seq<V>, b: seq<V>, less: (V, V) -> bool): seq<V>
    decreases |a| + |b|
  {
    if a == [] then b else if b == [] then a
    else if less(b[0], a[0]) then [b[0]] + Merge(a, b[1..], less)
    else [a[0]] + Merge(a[1..], b, less)
  }

  function Sorted<V>(xs: seq<V>, less: (V, V) -> bool): seq<V>
    decreases |xs|
  {
    if |xs| < 2 then xs
    else Merge(Sorted(xs[..|xs| / 2], less), Sorted(xs[|xs| / 2..], less), less)
  }

  // ----- a permutation, whatever the test -----

  lemma {:induction false} MergePermutes<V>(a: seq<V>, b: seq<V>, less: (V, V) -> bool)
    ensures multiset(Merge(a, b, less)) == multiset(a) + multiset(b)
    decreases |a| + |b|
  {
    if a != [] && b != [] {
      if less(b[0], a[0]) {
        assert b == [b[0]] + b[1..];
        MergePermutes(a, b[1..], less);
      } else {
        assert a == [a[0]] + a[1..];
        MergePermutes(a[1..], b, less);
      }
    }
  }

  lemma {:induction false} SortPermutes<V>(xs: seq<V>, less: (V, V) -> bool)
    ensures multiset(Sorted(xs, less)) == multiset(xs)
    decreases |xs|
  {
    if |xs| >= 2 {
      var h := |xs| / 2;
      SortPermutes(xs[..h], less);
      SortPermutes(xs[h..], less);
      MergePermutes(Sorted(xs[..h], less), Sorted(xs[h..], less), less);
      assert xs == xs[..h] + xs[h..];
    }
  }

  // ----- ordered -----

  predicate Ordered<V>(xs: seq<V>, less: (V, V) -> bool) {
    forall i, j | 0 <= i < j < |xs| :: !less(xs[j], xs[i])
  }

  predicate NoneLess<V>(xs: seq<V>, x: V, less: (V, V) -> bool) {
    forall i | 0 <= i < |xs| :: !less(xs[i], x)
  }

  lemma OrderedCons<V>(x: V, xs: seq<V>, less: (V, V) -> bool)
    requires NoneLess(xs, x, less) && Ordered(xs, less)
    ensures Ordered([x] + xs, less)
  {
  }

  lemma OrderedTail<V>(xs: seq<V>, less: (V, V) -> bool)
    requires xs != [] && Ordered(xs, less)
    ensures NoneLess(xs[1..], xs[0], less) && Ordered(xs[1..], less)
  {
  }

  lemma {:induction false} MergeNoneLess<V>(a: seq<V>, b: seq<V>, x: V, less: (V, V) -> bool)
    requires NoneLess(a, x, less) && NoneLess(b, x, less)
    ensures NoneLess(Merge(a, b, less), x, less)
    decreases |a| + |b|
  {
    if a != [] && b != [] {
      if less(b[0], a[0]) { MergeNoneLess(a, b[1..], x, less); } else { MergeNoneLess(a[1..], b, x, less); }
    }
  }

  /** Nothing in an ordered list is less than what its head is not less than. */
  lemma NoneLessThan<V(!new)>(xs: seq<V>, x: V, less: (V, V) -> bool)
    requires StrictWeak(less) && xs != [] && Ordered(xs, less) && !less(xs[0], x)
    ensures NoneLess(xs, x, less)
  {
    forall i | 0 <= i < |xs| ensures !less(xs[i], x) {
      if i > 0 { assert !less(xs[i], xs[0]); }
    }
  }

  lemma {:induction false} MergeOrders<V(!new)>(a: seq<V>, b: seq<V>, less: (V, V) -> bool)
    requires StrictWeak(less) && Ordered(a, less) && Ordered(b, less)
    ensures Ordered(Merge(a, b, less), less)
    decreases |a| + |b|
  {
    if a != [] && b != [] {
      if less(b[0], a[0]) {
        OrderedTail(b, less);
        assert !less(a[0], b[0]);
        NoneLessThan(a, b[0], less);
        MergeOrders(a, b[1..], less);
        MergeNoneLess(a, b[1..], b[0], less);
        OrderedCons(b[0], Merge(a, b[1..], less), less);
      } else {
        OrderedTail(a, less);
        NoneLessThan(b, a[0], less);
        MergeOrders(a[1..], b, less);
        MergeNoneLess(a[1..], b, a[0], less);
        OrderedCons(a[0], Merge(a[1..], b, less), less);
      }
    }
  }

  lemma {:induction false} SortOrders<V(!new)>(xs: seq<V>, less: (V, V) -> bool)
    requires StrictWeak(less)
    ensures Ordered(Sorted(xs, less), less)
    decreases |xs|
  {
    if |xs| >= 2 {
      var h := |xs| / 2;
      SortOrders(xs[..h], less);
      SortOrders(xs[h..], less);
      MergeOrders(Sorted(xs[..h], less), Sorted(xs[h..], less), less);
    }
  }

  // ----- stable -----

  predicate Level<V>(x: V, v: V, less: (V, V) -> bool) {
    !less(x, v) && !less(v, x)
  }

  /** The elements on a level with `v`, in order. */
  function LevelWith<V>(xs: seq<V>, v: V, less: (V, V) -> bool): seq<V>
    decreases |xs|
  {
    if xs == [] then [] else (if Level(xs[0], v, less) then [xs[0]] else []) + LevelWith(xs[1..], v, less)
  }

  lemma {:induction false} LevelJoin<V>(a: seq<V>, b: seq<V>, v: V, less: (V, V) -> bool)
    ensures LevelWith(a + b, v, less) == LevelWith(a, v, less) + LevelWith(b, v, less)
    decreases |a|
  {
    if a == [] {
      assert a + b == b;
    } else {
      LevelJoin(a[1..], b, v, less);
      assert a + b == [a[0]] + (a[1..] + b);
      LevelCons(a[0], a[1..] + b, v, less);
      LevelCons(a[0], a[1..], v, less);
      assert a == [a[0]] + a[1..];
    }
  }

  lemma LevelCons<V>(x: V, xs: seq<V>, v: V, less: (V, V) -> bool)
    ensures LevelWith([x] + xs, v, less) == (if Level(x, v, less) then [x] else []) + LevelWith(xs, v, less)
  {
    assert ([x] + xs)[1..] == xs;
  }

  lemma {:induction false} NoneLevel<V(!new)>(a: seq<V>, x: V, v: V, less: (V, V) -> bool)
    requires StrictWeak(less) && Level(x, v, less) && forall i | 0 <= i < |a| :: less(x, a[i])
    ensures LevelWith(a, v, less) == []
    decreases |a|
  {
    if a != [] {
      assert less(x, a[0]);
      NoneLevel(a[1..], x, v, less);
    }
  }

  lemma LessThanAll<V(!new)>(a: seq<V>, x: V, less: (V, V) -> bool)
    requires StrictWeak(less) && a != [] && Ordered(a, less) && less(x, a[0])
    ensures forall i | 0 <= i < |a| :: less(x, a[i])
  {
    forall i | 0 <= i < |a| ensures less(x, a[i]) {
      if i > 0 { assert !less(a[i], a[0]); }
    }
  }

  lemma {:induction false} MergeKeepsLevels<V(!new)>(a: seq<V>, b: seq<V>, v: V, less: (V, V) -> bool)
    requires StrictWeak(less) && Ordered(a, less) && Ordered(b, less)
    ensures LevelWith(Merge(a, b, less), v, less) == LevelWith(a, v, less) + LevelWith(b, v, less)
    decreases |a| + |b|
  {
    if a != [] && b != [] {
      if less(b[0], a[0]) {
        MergeKeepsLevels(a, b[1..], v, less);
        assert ([b[0]] + Merge(a, b[1..], less))[1..] == Merge(a, b[1..], less);
        if Level(b[0], v, less) {
          LessThanAll(a, b[0], less);
          NoneLevel(a, b[0], v, less);
        }
      } else {
        MergeKeepsLevels(a[1..], b, v, less);
        assert ([a[0]] + Merge(a[1..], b, less))[1..] == Merge(a[1..], b, less);
      }
    }
  }

  /** Elements that are on a level keep their order. */
  lemma {:induction false} SortIsStable<V(!new)>(xs: seq<V>, v: V, less: (V, V) -> bool)
    requires StrictWeak(less)
    ensures LevelWith(Sorted(xs, less), v, less) == LevelWith(xs, v, less)
    decreases |xs|
  {
    if |xs| >= 2 {
      var h := |xs| / 2;
      SortIsStable(xs[..h], v, less);
      SortIsStable(xs[h..], v, less);
      SortOrders(xs[..h], less);
      SortOrders(xs[h..], less);
      MergeKeepsLevels(Sorted(xs[..h], less), Sorted(xs[h..], less), v, less);
      LevelJoin(xs[..h], xs[h..], v, less);
      assert xs == xs[..h] + xs[h..];
    }
  }
}
