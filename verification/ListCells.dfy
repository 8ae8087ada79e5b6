/** Lists of cells that change in place, and the interpreter's `sort` over them
    (`packages/interpreter/src/prelude.ts`). */
module ListCells {
  import opened Wrappers
  import opened MergeSort

  type Ref = nat

  datatype Cell<V> = Cell(car: V, cdr: Option<Ref>)

  /** The cells along a list. */
  predicate IsList<V(!new)>(heap: map<Ref, Cell<V>>, at: Option<Ref>, refs: seq<Ref>)
    decreases |refs|
  {
    if refs == [] then at == None
    else at == Some(refs[0]) && refs[0] in heap && IsList(heap, heap[refs[0]].cdr, refs[1..])
  }

  predicate AllIn<V(!new)>(heap: map<Ref, Cell<V>>, refs: seq<Ref>) {
    forall i | 0 <= i < |refs| :: refs[i] in heap
  }

  function Values<V(!new)>(heap: map<Ref, Cell<V>>, refs: seq<Ref>): (vs: seq<V>)
    requires AllIn(heap, refs)
    ensures |vs| == |refs|
  {
    seq(|refs|, i requires 0 <= i < |refs| => heap[refs[i]].car)
  }

  lemma {:induction false} ListIn<V(!new)>(heap: map<Ref, Cell<V>>, at: Option<Ref>, refs: seq<Ref>)
    requires IsList(heap, at, refs)
    ensures AllIn(heap, refs)
    decreases |refs|
  {
    if refs != [] {
      ListIn(heap, heap[refs[0]].cdr, refs[1..]);
      forall i | 0 <= i < |refs| ensures refs[i] in heap {
        if i > 0 { assert refs[1..][i - 1] == refs[i]; }
      }
    }
  }

  /** A list stays the list it is while its cells are as they were. */
  lemma {:induction false} ListStays<V(!new)>(heap: map<Ref, Cell<V>>, later: map<Ref, Cell<V>>, at: Option<Ref>,
                                              refs: seq<Ref>)
    requires IsList(heap, at, refs)
    requires forall i | 0 <= i < |refs| && refs[i] in heap :: refs[i] in later && later[refs[i]] == heap[refs[i]]
    ensures IsList(later, at, refs) && AllIn(heap, refs) && AllIn(later, refs)
    ensures Values(later, refs) == Values(heap, refs)
    decreases |refs|
  {
    ListIn(heap, at, refs);
    if refs != [] {
      assert later[refs[0]] == heap[refs[0]];
      assert forall i | 0 <= i < |refs[1..]| :: refs[1..][i] == refs[i + 1];
      ListStays(heap, later, heap[refs[0]].cdr, refs[1..]);
    }
  }

  predicate Distinct(refs: seq<Ref>) {
    forall i, j | 0 <= i < j < |refs| :: refs[i] != refs[j]
  }

  predicate From(refs: seq<Ref>, mark: nat) {
    forall i | 0 <= i < |refs| :: refs[i] >= mark
  }

  /** Nothing below the mark has changed. */
  ghost predicate SameBelow<V(!new)>(heap: map<Ref, Cell<V>>, later: map<Ref, Cell<V>>, mark: nat) {
    forall r | r in heap && r < mark :: r in later && later[r] == heap[r]
  }

  function Reversed(refs: seq<Ref>): (r: seq<Ref>)
    ensures |r| == |refs|
    decreases |refs|
  {
    if refs == [] then [] else Reversed(refs[1..]) + [refs[0]]
  }

  class Cells<V(!new)> {
    var heap: map<Ref, Cell<V>>
    var next: Ref

    predicate Valid()
      reads this
    {
      forall r | r in heap :: r < next
    }

    constructor ()
      ensures Valid() && heap == map[]
    {
      heap, next := map[], 0;
    }

    method Cons(x: V, list: Option<Ref>) returns (r: Ref)
      requires Valid()
      modifies this
      ensures Valid() && r == old(next) && next == old(next) + 1 && heap == old(heap)[r := Cell(x, list)]
    {
      r := next;
      heap := heap[r := Cell(x, list)];
      next := next + 1;
    }

    /** `_nreverse`: each cell is turned to the one before it. */
    method ReverseOnto(x: Ref, prev: Option<Ref>, ghost refs: seq<Ref>, ghost done: seq<Ref>) returns (r: Option<Ref>)
      requires Valid() && IsList(heap, Some(x), refs) && IsList(heap, prev, done) && Distinct(refs + done)
      modifies this`heap
      ensures Valid() && IsList(heap, r, Reversed(refs) + done) && Recut(old(heap), heap, refs)
      decreases |refs|
    {
      ghost var rest := refs[1..];
      var following := heap[x].cdr;
      ghost var before := heap;
      heap := heap[x := heap[x].(cdr := prev)];
      TurnOne(before, heap, x, prev, refs, done);
      TurnedFirst(before, heap, x, prev, refs, done);
      if following == None { return Some(x); }
      ghost var turned := heap;
      r := ReverseOnto(following.value, Some(x), rest, [x] + done);
      RecutMore(before, turned, heap, rest, refs);
    }

    /** `nreverse`. */
    method Reverse(list: Option<Ref>, ghost refs: seq<Ref>) returns (r: Option<Ref>)
      requires Valid() && IsList(heap, list, refs) && Distinct(refs)
      modifies this`heap
      ensures Valid() && IsList(heap, r, Reversed(refs)) && Recut(old(heap), heap, refs)
    {
      if list == None { return None; }
      assert refs + [] == refs && Reversed(refs) + [] == Reversed(refs);
      r := ReverseOnto(list.value, None, refs, []);
    }

    /** `last`. */
    method Last(list: Ref, ghost refs: seq<Ref>) returns (r: Ref)
      requires IsList(heap, Some(list), refs)
      ensures r == refs[|refs| - 1]
      decreases |refs|
    {
      if heap[list].cdr == None { return list; }
      r := Last(heap[list].cdr.value, refs[1..]);
    }

    /** `nconc` of two lists: the last cell of the first comes to point at the second. */
    method Concat(a: Option<Ref>, b: Option<Ref>, ghost ra: seq<Ref>, ghost rb: seq<Ref>) returns (r: Option<Ref>)
      requires Valid() && IsList(heap, a, ra) && IsList(heap, b, rb) && Distinct(ra) && forall k | k in ra :: k !in rb
      modifies this`heap
      ensures Valid() && IsList(heap, r, ra + rb) && Recut(old(heap), heap, ra)
    {
      if a == None {
        assert ra + rb == rb;
        return b;
      }
      var end := Last(a.value, ra);
      ListIn(heap, a, ra);
      ghost var before := heap;
      heap := heap[end := heap[end].(cdr := b)];
      assert forall i | 0 <= i < |rb| :: rb[i] in rb;
      assert end in ra;
      ListStays(before, heap, b, rb);
      Joined(before, heap, a, b, ra, rb);
      return a;
    }

    /** `_merge`: what comes first goes in front of `out`, which is then turned round. */
    method MergeLists(a0: Option<Ref>, b0: Option<Ref>, less: (V, V) -> bool, ghost ra0: seq<Ref>, ghost rb0: seq<Ref>,
                      ghost base: nat)
      returns (r: Option<Ref>, ghost rr: seq<Ref>)
      requires Valid() && IsList(heap, a0, ra0) && IsList(heap, b0, rb0) && AllIn(heap, ra0) && AllIn(heap, rb0)
      requires From(ra0, base) && From(rb0, base) && base <= next
      modifies this
      ensures Valid() && old(next) <= next && SameBelow(old(heap), heap, old(next))
      ensures IsList(heap, r, rr) && From(rr, base) && AllIn(heap, rr)
      ensures Values(heap, rr) == Merge(old(Values(heap, ra0)), old(Values(heap, rb0)), less)
    {
      ghost var mark, vs := next, Merge(Values(heap, ra0), Values(heap, rb0), less);
      ghost var was := heap;
      var out: Option<Ref> := None;
      var a, b := a0, b0;
      ghost var ro, ra, rb: seq<Ref> := [], ra0, rb0;
      while a != None && b != None
        invariant Valid() && mark <= next && SameBelow(was, heap, mark)
        invariant Merging(heap, out, a, b, ro, ra, rb, mark, base)
        invariant Backwards(Values(heap, ro)) + Merge(Values(heap, ra), Values(heap, rb), less) == vs
        decreases |ra| + |rb|
      {
        var c, fromB := TakeLess(out, a, b, less, ro, ra, rb, mark, base);
        if fromB {
          b := heap[b.value].cdr;
          rb := rb[1..];
        } else {
          a := heap[a.value].cdr;
          ra := ra[1..];
        }
        out, ro := Some(c), [c] + ro;
      }
      r, rr := FinishMerge(out, a, b, ro, ra, rb, mark, base);
    }

    /** The lesser head, of the second list only if it is less, in front of `out`. */
    method TakeLess(out: Option<Ref>, a: Option<Ref>, b: Option<Ref>, less: (V, V) -> bool,
                    ghost ro: seq<Ref>, ghost ra: seq<Ref>, ghost rb: seq<Ref>, ghost mark: nat, ghost base: nat)
      returns (c: Ref, fromB: bool)
      requires Valid() && mark <= next && Merging(heap, out, a, b, ro, ra, rb, mark, base) && a != None && b != None
      modifies this
      ensures Valid() && mark <= next && SameBelow(old(heap), heap, mark) && a.value in heap && b.value in heap
      ensures fromB ==> Merging(heap, Some(c), a, heap[b.value].cdr, [c] + ro, ra, rb[1..], mark, base)
      ensures !fromB ==> Merging(heap, Some(c), heap[a.value].cdr, b, [c] + ro, ra[1..], rb, mark, base)
      ensures Backwards(Values(heap, [c] + ro))
                + Merge(Values(heap, if fromB then ra else ra[1..]), Values(heap, if fromB then rb[1..] else rb), less)
              == Backwards(old(Values(heap, ro))) + Merge(old(Values(heap, ra)), old(Values(heap, rb)), less)
    {
      ghost var before := heap;
      var x, y := heap[a.value].car, heap[b.value].car;
      fromB := less(y, x);
      var v := if fromB then y else x;
      c := Cons(v, out);
      TookOne(before, heap, c, v, out, a, b, ro, ra, rb, mark, base);
      MergeStep(Values(before, ro), Values(before, ra), Values(before, rb), less);
    }

    /** `(nconc (nreverse out) (or a b))`. */
    method FinishMerge(out: Option<Ref>, a: Option<Ref>, b: Option<Ref>, ghost ro: seq<Ref>, ghost ra: seq<Ref>,
                       ghost rb: seq<Ref>,
                       ghost mark: nat, ghost base: nat)
      returns (r: Option<Ref>, ghost rr: seq<Ref>)
      requires Valid() && Merging(heap, out, a, b, ro, ra, rb, mark, base) && (a == None || b == None) && base <= mark
      modifies this`heap
      ensures Valid() && SameBelow(old(heap), heap, mark)
      ensures IsList(heap, r, rr) && From(rr, base) && AllIn(heap, rr)
      ensures Values(heap, rr)
           == Backwards(old(Values(heap, ro))) + (if a != None then old(Values(heap, ra)) else old(Values(heap, rb)))
    {
      ghost var was := heap;
      var turned := Reverse(out, ro);
      var rest := if a != None then a else b;
      ghost var tail := if a != None then ra else rb;
      ReversedElements(ro);
      Apart(ro, tail, mark);
      ghost var half := heap;
      ListStays(was, half, rest, tail);
      r := Concat(turned, rest, Reversed(ro), tail);
      rr := Reversed(ro) + tail;
      ListIn(heap, r, rr);
      forall i | 0 <= i < |rr| ensures rr[i] >= base {
        if i < |ro| { assert Reversed(ro)[i] in Reversed(ro) && Reversed(ro)[i] in ro; }
      }
      RecutTwice(was, half, heap, ro, mark);
      FinishedValues(was, heap, ro, tail);
    }

    /** `_sort`: the first `n` elements, sorted by halves into a list of new cells. */
    method SortFirst(xs: Option<Ref>, n: nat, less: (V, V) -> bool, ghost refs: seq<Ref>)
      returns (r: Option<Ref>, ghost rr: seq<Ref>)
      requires Valid() && IsList(heap, xs, refs) && AllIn(heap, refs) && n <= |refs|
      modifies this
      ensures Valid() && old(next) <= next && SameBelow(old(heap), heap, old(next))
      ensures IsList(heap, r, rr) && From(rr, old(next)) && AllIn(heap, rr)
      ensures Values(heap, rr) == Sorted(old(Values(heap, refs))[..n], less)
      decreases n, 1
    {
      if n < 1 { return None, []; }
      ghost var vs := Values(heap, refs);
      if n == 1 {
        var c := Cons(heap[xs.value].car, None);
        assert vs[..1] == [heap[c].car] && Values(heap, [c]) == [heap[c].car];
        return Some(c), [c];
      }
      Halves(vs, n);
      r, rr := SortHalves(xs, n, less, refs);
    }

    method SortHalves(xs: Option<Ref>, n: nat, less: (V, V) -> bool, ghost refs: seq<Ref>)
      returns (r: Option<Ref>, ghost rr: seq<Ref>)
      requires Valid() && IsList(heap, xs, refs) && AllIn(heap, refs) && 2 <= n <= |refs|
      modifies this
      ensures Valid() && old(next) <= next && SameBelow(old(heap), heap, old(next))
      ensures IsList(heap, r, rr) && From(rr, old(next)) && AllIn(heap, rr)
      ensures var vs := old(Values(heap, refs));
              Values(heap, rr) == Merge(Sorted(vs[..n / 2], less), Sorted(vs[n / 2..][..n - n / 2], less), less)
      decreases n, 0
    {
      ghost var was, base, vs := heap, next, Values(heap, refs);
      var half := n / 2;
      var tail := NthCdr(xs, half, refs);
      DropValues(was, refs, half);
      var a; ghost var ra; a, ra := SortFirst(xs, half, less, refs);
      ghost var mid := heap;
      StaysBelow(was, mid, tail, refs[half..], base);
      var b; ghost var rb; b, rb := SortFirst(tail, n - half, less, refs[half..]);
      FreshStays(mid, heap, a, ra);
      assert Values(heap, ra) == Sorted(vs[..half], less);
      assert Values(heap, rb) == Sorted(vs[half..][..n - half], less);
      r, rr := MergeLists(a, b, less, ra, rb, base);
    }

    /** `nthcdr`. */
    method NthCdr(xs: Option<Ref>, n: nat, ghost refs: seq<Ref>) returns (r: Option<Ref>)
      requires IsList(heap, xs, refs) && n <= |refs|
      ensures IsList(heap, r, refs[n..])
      decreases n
    {
      if n == 0 { return xs; }
      assert refs[1..][n - 1..] == refs[n..];
      r := NthCdr(heap[xs.value].cdr, n - 1, refs[1..]);
    }

    method Length(xs: Option<Ref>, ghost refs: seq<Ref>) returns (n: nat)
      requires IsList(heap, xs, refs)
      ensures n == |refs|
      decreases |refs|
    {
      if xs == None { return 0; }
      n := Length(heap[xs.value].cdr, refs[1..]);
      n := n + 1;
    }

    /** `sort`: a new list of the sorted elements; no cell there was before has changed. */
    method Sort(xs: Option<Ref>, less: (V, V) -> bool, ghost refs: seq<Ref>)
      returns (r: Option<Ref>, ghost rr: seq<Ref>)
      requires Valid() && IsList(heap, xs, refs) && AllIn(heap, refs)
      modifies this
      ensures Valid() && IsList(heap, r, rr) && AllIn(heap, rr)
      ensures forall i | 0 <= i < |rr| :: rr[i] !in old(heap)
      ensures forall k | k in old(heap) :: k in heap && heap[k] == old(heap)[k]
      ensures Values(heap, rr) == Sorted(old(Values(heap, refs)), less)
    {
      var n := Length(xs, refs);
      ghost var vs := Values(heap, refs);
      assert vs[..n] == vs;
      r, rr := SortFirst(xs, n, less, refs);
    }
  }

  lemma Halves<V>(vs: seq<V>, n: nat)
    requires n <= |vs|
    ensures |vs[..n]| / 2 == n / 2 && vs[..n][..n / 2] == vs[..n / 2] && vs[..n][n / 2..] == vs[n / 2..][..n - n / 2]
  {
  }

  lemma DropValues<V(!new)>(heap: map<Ref, Cell<V>>, refs: seq<Ref>, k: nat)
    requires AllIn(heap, refs) && k <= |refs|
    ensures AllIn(heap, refs[k..]) && Values(heap, refs[k..]) == Values(heap, refs)[k..]
  {
    assert forall i | 0 <= i < |refs[k..]| :: refs[k..][i] == refs[k + i];
  }

  lemma Apart(refs: seq<Ref>, others: seq<Ref>, mark: nat)
    requires From(refs, mark) && forall k | k in others :: k < mark
    ensures forall i | 0 <= i < |others| :: others[i] !in refs
    ensures forall k | k in Reversed(refs) && k in refs :: k !in others
    ensures forall k | k in refs :: k >= mark
  {
    forall i | 0 <= i < |others| ensures others[i] !in refs { assert others[i] in others; }
  }

  lemma RecutTwice<V(!new)>(was: map<Ref, Cell<V>>, half: map<Ref, Cell<V>>, heap: map<Ref, Cell<V>>, ro: seq<Ref>,
                            mark: nat)
    requires Recut(was, half, ro) && Recut(half, heap, Reversed(ro))
    requires From(ro, mark) && forall k :: k in Reversed(ro) <==> k in ro
    ensures SameBelow(was, heap, mark) && heap.Keys == was.Keys && forall k | k in was :: heap[k].car == was[k].car
  {
    forall k | k in ro ensures k >= mark {}
  }

  lemma FinishedValues<V(!new)>(was: map<Ref, Cell<V>>, heap: map<Ref, Cell<V>>, ro: seq<Ref>, tail: seq<Ref>)
    requires AllIn(was, ro) && AllIn(was, tail) && AllIn(heap, Reversed(ro) + tail)
    requires heap.Keys == was.Keys && forall k | k in was :: heap[k].car == was[k].car
    ensures Values(heap, Reversed(ro) + tail) == Backwards(Values(was, ro)) + Values(was, tail)
  {
    var rr := Reversed(ro) + tail;
    assert forall i | 0 <= i < |Reversed(ro)| :: Reversed(ro)[i] == rr[i];
    SameCars(was, heap, tail);
    ReversedValues(was, heap, ro);
    assert Values(heap, rr) == Values(heap, Reversed(ro)) + Values(heap, tail);
  }

  lemma SameCars<V(!new)>(heap: map<Ref, Cell<V>>, later: map<Ref, Cell<V>>, refs: seq<Ref>)
    requires AllIn(heap, refs) && heap.Keys == later.Keys && forall k | k in heap :: later[k].car == heap[k].car
    ensures AllIn(later, refs) && Values(later, refs) == Values(heap, refs)
  {
  }

  lemma StaysBelow<V(!new)>(heap: map<Ref, Cell<V>>, later: map<Ref, Cell<V>>, at: Option<Ref>, refs: seq<Ref>,
                            mark: nat)
    requires IsList(heap, at, refs) && SameBelow(heap, later, mark) && forall r | r in heap :: r < mark
    ensures IsList(later, at, refs) && AllIn(heap, refs) && AllIn(later, refs)
    ensures Values(later, refs) == Values(heap, refs)
  {
    ListStays(heap, later, at, refs);
  }

  lemma FreshStays<V(!new)>(heap: map<Ref, Cell<V>>, later: map<Ref, Cell<V>>, at: Option<Ref>, refs: seq<Ref>)
    requires IsList(heap, at, refs) && forall r | r in heap :: r in later && later[r] == heap[r]
    ensures IsList(later, at, refs) && AllIn(heap, refs) && AllIn(later, refs)
    ensures Values(later, refs) == Values(heap, refs)
  {
    ListStays(heap, later, at, refs);
  }

  /** One more cell in front of what is out. */
  lemma TookOne<V(!new)>(heap: map<Ref, Cell<V>>, later: map<Ref, Cell<V>>, c: Ref, v: V, out: Option<Ref>,
                         a: Option<Ref>, b: Option<Ref>,
                         ro: seq<Ref>, ra: seq<Ref>, rb: seq<Ref>, mark: nat, base: nat)
    requires Merging(heap, out, a, b, ro, ra, rb, mark, base) && a != None && b != None
    requires c !in heap && c >= mark && later == heap[c := Cell(v, out)]
    ensures Merging(later, Some(c), a, b, [c] + ro, ra, rb, mark, base)
    ensures Merging(later, Some(c), later[a.value].cdr, b, [c] + ro, ra[1..], rb, mark, base)
    ensures Merging(later, Some(c), a, later[b.value].cdr, [c] + ro, ra, rb[1..], mark, base)
    ensures Values(later, [c] + ro) == [v] + Values(heap, ro)
    ensures Values(later, ra) == Values(heap, ra) && Values(later, rb) == Values(heap, rb)
    ensures Values(later, ra[1..]) == Values(heap, ra)[1..] && Values(later, rb[1..]) == Values(heap, rb)[1..]
  {
    ListStays(heap, later, out, ro);
    ListStays(heap, later, a, ra);
    ListStays(heap, later, b, rb);
    assert ([c] + ro)[1..] == ro;
    assert forall k | k in ra[1..] :: k in ra;
    assert forall k | k in rb[1..] :: k in rb;
  }

  /** The step of a merge, seen on what is out and what is left. */
  lemma MergeStep<V>(vo: seq<V>, va: seq<V>, vb: seq<V>, less: (V, V) -> bool)
    requires va != [] && vb != []
    ensures less(vb[0], va[0]) ==>
              Backwards([vb[0]] + vo) + Merge(va, vb[1..], less) == Backwards(vo) + Merge(va, vb, less)
    ensures !less(vb[0], va[0]) ==>
              Backwards([va[0]] + vo) + Merge(va[1..], vb, less) == Backwards(vo) + Merge(va, vb, less)
  {
    assert ([vb[0]] + vo)[1..] == vo && ([va[0]] + vo)[1..] == vo;
  }

  lemma {:induction false} ReversedElements(refs: seq<Ref>)
    requires Distinct(refs)
    ensures forall k :: k in Reversed(refs) <==> k in refs
    ensures Distinct(Reversed(refs))
    decreases |refs|
  {
    if refs != [] {
      assert forall i, j | 0 <= i < j < |refs[1..]| :: refs[1..][i] != refs[1..][j] by {
        assert forall i | 0 <= i < |refs[1..]| :: refs[1..][i] == refs[i + 1];
      }
      ReversedElements(refs[1..]);
      assert refs == [refs[0]] + refs[1..];
      assert refs[0] !in refs[1..];
    }
  }

  lemma {:induction false} ReversedValues<V(!new)>(heap: map<Ref, Cell<V>>, later: map<Ref, Cell<V>>, refs: seq<Ref>)
    requires AllIn(heap, refs) && AllIn(later, refs) && AllIn(later, Reversed(refs))
    requires forall k | k in heap && k in later :: later[k].car == heap[k].car
    ensures Values(later, Reversed(refs)) == Backwards(Values(heap, refs))
    decreases |refs|
  {
    if refs != [] {
      var rest := refs[1..];
      assert forall i | 0 <= i < |rest| :: rest[i] == refs[i + 1];
      assert forall i | 0 <= i < |Reversed(rest)| :: Reversed(refs)[i] == Reversed(rest)[i];
      ReversedValues(heap, later, rest);
      assert Values(heap, rest) == Values(heap, refs)[1..];
      assert Values(later, Reversed(refs)) == Values(later, Reversed(rest)) + [later[refs[0]].car] by {
        assert Reversed(refs)[|rest|] == refs[0];
      }
    }
  }

  lemma RotatesDistinct(x: Ref, rest: seq<Ref>, done: seq<Ref>)
    requires Distinct([x] + rest + done)
    ensures Distinct(rest + ([x] + done))
  {
    var a, b := [x] + rest + done, rest + ([x] + done);
    forall i, j | 0 <= i < j < |b| ensures b[i] != b[j] {
      var at := (k: int) requires 0 <= k < |b| => if k < |rest| then k + 1 else if k == |rest| then 0 else k;
      assert b[i] == a[at(i)] && b[j] == a[at(j)] && at(i) != at(j);
    }
  }

  /** Backwards. */
  function Backwards<V>(vs: seq<V>): (r: seq<V>)
    ensures |r| == |vs|
    decreases |vs|
  {
    if vs == [] then [] else Backwards(vs[1..]) + [vs[0]]
  }

  /** Only the references onward of some cells have changed. */
  ghost predicate Recut<V(!new)>(heap: map<Ref, Cell<V>>, later: map<Ref, Cell<V>>, refs: seq<Ref>) {
    && later.Keys == heap.Keys
    && forall k | k in heap :: later[k].car == heap[k].car && (k !in refs ==> later[k] == heap[k])
  }

  /** What the first cell, turned round, is to the whole list. */
  lemma TurnedFirst<V(!new)>(before: map<Ref, Cell<V>>, heap: map<Ref, Cell<V>>, x: Ref, prev: Option<Ref>,
                             refs: seq<Ref>, done: seq<Ref>)
    requires IsList(before, Some(x), refs) && heap == before[x := before[x].(cdr := prev)]
    ensures Recut(before, heap, refs) && Reversed(refs[1..]) + ([x] + done) == Reversed(refs) + done
    ensures before[x].cdr == None ==> Reversed(refs) == [x]
    ensures forall k | k in refs[1..] :: k in refs
  {
    assert refs[0] == x && x in refs;
  }

  lemma RecutMore<V(!new)>(heap: map<Ref, Cell<V>>, half: map<Ref, Cell<V>>, later: map<Ref, Cell<V>>, rest: seq<Ref>,
                           refs: seq<Ref>)
    requires Recut(heap, half, refs) && Recut(half, later, rest) && forall k | k in rest :: k in refs
    ensures Recut(heap, later, refs)
  {
  }

  lemma TurnOne<V(!new)>(before: map<Ref, Cell<V>>, heap: map<Ref, Cell<V>>, x: Ref, prev: Option<Ref>, refs: seq<Ref>,
                         done: seq<Ref>)
    requires IsList(before, Some(x), refs) && IsList(before, prev, done) && Distinct(refs + done)
    requires heap == before[x := before[x].(cdr := prev)]
    ensures IsList(heap, before[x].cdr, refs[1..]) && IsList(heap, Some(x), [x] + done)
    ensures Distinct(refs[1..] + ([x] + done))
  {
    var rest := refs[1..];
    assert refs == [x] + rest;
    RotatesDistinct(x, rest, done);
    forall i | 0 <= i < |rest| ensures rest[i] != x { assert rest[i] == (refs + done)[i + 1] && x == (refs + done)[0]; }
    forall i | 0 <= i < |done|
      ensures done[i] != x
    {
      assert done[i] == (refs + done)[i + |refs|] && x == (refs + done)[0];
    }
    ListStays(before, heap, before[x].cdr, rest);
    ListStays(before, heap, prev, done);
    assert ([x] + done)[1..] == done;
  }

  lemma {:induction false} Joined<V(!new)>(before: map<Ref, Cell<V>>, heap: map<Ref, Cell<V>>, a: Option<Ref>,
                                           b: Option<Ref>, ra: seq<Ref>, rb: seq<Ref>)
    requires IsList(before, a, ra) && IsList(heap, b, rb) && ra != [] && Distinct(ra) && AllIn(before, ra)
    requires heap == before[ra[|ra| - 1] := before[ra[|ra| - 1]].(cdr := b)]
    ensures IsList(heap, a, ra + rb)
    decreases |ra|
  {
    var rest := ra[1..];
    assert (ra + rb)[1..] == rest + rb;
    if rest == [] {
      assert rest + rb == rb;
    } else {
      assert ra[0] != ra[|ra| - 1] && rest[|rest| - 1] == ra[|ra| - 1];
      assert forall i | 0 <= i < |rest| :: rest[i] == ra[i + 1];
      Joined(before, heap, before[ra[0]].cdr, b, rest, rb);
    }
  }

  /** The state of a merge: what is out so far, in cells of its own, and what is left. */
  predicate Merging<V(!new)>(heap: map<Ref, Cell<V>>, out: Option<Ref>, a: Option<Ref>, b: Option<Ref>,
                             ro: seq<Ref>, ra: seq<Ref>, rb: seq<Ref>, mark: nat, base: nat) {
    && IsList(heap, out, ro) && IsList(heap, a, ra) && IsList(heap, b, rb)
    && AllIn(heap, ro) && AllIn(heap, ra) && AllIn(heap, rb)
    && Distinct(ro) && From(ro, mark) && From(ra, base) && From(rb, base)
    && (forall k | k in ra :: k < mark) && (forall k | k in rb :: k < mark)
  }
}
