/** Printing cells of a heap (`packages/interpreter/src/print.ts`): cells may be shared, and a
    list of those being printed guards against cycles. */
module Printer {
  import opened LispObjects
  import opened LispText

  type Ref = nat

  datatype Value = Atom(x: Obj) | Pointer(r: Ref)

  type Heap = map<Ref, (Value, Value)>

  predicate Below(heap: Heap, rank: map<Ref, nat>, v: Value, bound: nat) {
    match v
    case Atom(x) => !x.Cell?
    case Pointer(r) => r in heap && r in rank && rank[r] < bound
  }

  /** No cell can be reached from itself: there is a rank that falls along every reference. */
  predicate Acyclic(heap: Heap, rank: map<Ref, nat>) {
    forall r | r in heap :: r in rank && Below(heap, rank, heap[r].0, rank[r]) && Below(heap, rank, heap[r].1, rank[r])
  }

  function Height(rank: map<Ref, nat>, v: Value): nat {
    if v.Pointer? && v.r in rank then rank[v.r] + 1 else 0
  }

  predicate Good(heap: Heap, rank: map<Ref, nat>, v: Value) {
    Acyclic(heap, rank) && Below(heap, rank, v, Height(rank, v))
  }

  /** The datum that a value is, every shared cell written out. */
  ghost function Unfold(heap: Heap, rank: map<Ref, nat>, v: Value): (x: Obj)
    requires Good(heap, rank, v)
    ensures x.Cell? <==> v.Pointer?
    decreases Height(rank, v)
  {
    match v
    case Atom(x) => x
    case Pointer(r) => Cell(Unfold(heap, rank, heap[r].0), Unfold(heap, rank, heap[r].1))
  }

  lemma UnfoldCell(heap: Heap, rank: map<Ref, nat>, r: Ref)
    requires Good(heap, rank, Pointer(r))
    ensures Good(heap, rank, heap[r].0) && Good(heap, rank, heap[r].1)
    ensures Height(rank, heap[r].0) <= rank[r] && Height(rank, heap[r].1) <= rank[r]
    ensures Unfold(heap, rank, Pointer(r)) == Cell(Unfold(heap, rank, heap[r].0), Unfold(heap, rank, heap[r].1))
  {
  }

  /** The printer's test for a mark with its one argument. */
  predicate Marked(heap: Heap, r: Ref)
    requires r in heap
  {
    var (car, cdr) := heap[r];
    car.Atom? && MarkOf(car.x).Some? && cdr.Pointer? && cdr.r in heap && heap[cdr.r].1 == Atom(Nil)
  }

  lemma MarkedSugar(heap: Heap, rank: map<Ref, nat>, r: Ref)
    requires Good(heap, rank, Pointer(r))
    ensures Marked(heap, r) <==> Sugar(Unfold(heap, rank, Pointer(r)))
    ensures Marked(heap, r) ==>
              var inner := heap[heap[r].1.r].0;
              && Good(heap, rank, inner) && Height(rank, inner) < rank[r]
              && Unfold(heap, rank, Pointer(r)).cdr.car == Unfold(heap, rank, inner)
  {
    UnfoldCell(heap, rank, r);
    if heap[r].1.Pointer? { UnfoldCell(heap, rank, heap[r].1.r); }
    MarkUnfolds(heap, rank, r);
  }

  lemma MarkUnfolds(heap: Heap, rank: map<Ref, nat>, r: Ref)
    requires Good(heap, rank, Pointer(r)) && Good(heap, rank, heap[r].0) && Good(heap, rank, heap[r].1)
    ensures heap[r].0.Atom? <==> !Unfold(heap, rank, heap[r].0).Cell?
    ensures heap[r].0.Atom? ==> Unfold(heap, rank, heap[r].0) == heap[r].0.x
  {
  }

  function Join(items: seq<string>): string {
    if items == [] then "" else if |items| == 1 then items[0] else items[0] + " " + Join(items[1..])
  }

  /** What `strListBody` pushes for a list. */
  function Items(numerals: Numerals, x: Obj): (items: seq<string>)
    requires x.Cell?
    ensures items != []
  {
    var first := Text(numerals, x.car);
    match x.cdr
    case Nil => [first]
    case Cell(_, _) => [first] + Items(numerals, x.cdr)
    case _ => [first, ".", Text(numerals, x.cdr)]
  }

  /** What the rest of a list has to push. */
  function TailItems(numerals: Numerals, x: Obj): seq<string> {
    if x.Cell? then Items(numerals, x) else if x.Nil? then [] else [".", Text(numerals, x)]
  }

  lemma TailCell(numerals: Numerals, s: seq<string>, car: Obj, cdr: Obj)
    ensures s + TailItems(numerals, Cell(car, cdr)) == (s + [Text(numerals, car)]) + TailItems(numerals, cdr)
  {
    assert Items(numerals, Cell(car, cdr)) == [Text(numerals, car)] + TailItems(numerals, cdr);
  }

  lemma {:induction false} ItemsJoin(numerals: Numerals, x: Obj)
    requires x.Cell?
    ensures Join(Items(numerals, x)) == BodyText(numerals, x)
  {
    var first := Text(numerals, x.car);
    if x.cdr.Cell? {
      ItemsJoin(numerals, x.cdr);
      assert Items(numerals, x)[1..] == Items(numerals, x.cdr);
    } else if !x.cdr.Nil? {
      var last := Text(numerals, x.cdr);
      assert [first, ".", last][1..] == [".", last] && [".", last][1..] == [last];
      assert Join([".", last]) == "." + " " + last;
      assert first + " " + ("." + " " + last) == first + " . " + last;
    }
  }

  const REPEATS := 4

  class Printing {
    const numerals: Numerals
    const heap: Heap
    ghost const rank: map<Ref, nat>
    var printed: seq<Ref>

    constructor (numerals: Numerals, heap: Heap, ghost rank: map<Ref, nat>)
      ensures this.numerals == numerals && this.heap == heap && this.rank == rank && printed == []
    {
      this.numerals, this.heap, this.rank := numerals, heap, rank;
      printed := [];
    }

    /** Everything being printed lies above `v`. */
    ghost predicate Above(v: Value)
      reads this
    {
      forall p | p in printed :: p in rank && rank[p] + 1 > Height(rank, v)
    }

    /** `str`, which on data without cycles prints all of it, and leaves the list of what is
        being printed as it was. */
    method Str(v: Value, count: int) returns (text: string)
      requires Good(heap, rank, v) && Above(v)
      modifies this
      ensures printed == old(printed) && text == Text(numerals, Unfold(heap, rank, v))
      decreases Height(rank, v), 1
    {
      match v
      case Atom(x) => text := AtomText(numerals, x);
      case Pointer(r) => text := StrCell(r, count);
    }

    method StrCell(r: Ref, count: int) returns (text: string)
      requires Good(heap, rank, Pointer(r)) && Above(Pointer(r))
      modifies this
      ensures printed == old(printed) && text == Text(numerals, Unfold(heap, rank, Pointer(r)))
      decreases Height(rank, Pointer(r)), 0
    {
      MarkedSugar(heap, rank, r);
      if Marked(heap, r) {
        var inner := Str(heap[heap[r].1.r].0, count);
        text := MarkOf(heap[r].0.x).value + inner;
      } else {
        var body := StrListBody(r, count);
        text := "(" + body + ")";
      }
    }

    method StrListBody(r: Ref, count0: int) returns (text: string)
      requires Good(heap, rank, Pointer(r)) && Above(Pointer(r))
      modifies this
      ensures printed == old(printed) && text == BodyText(numerals, Unfold(heap, rank, Pointer(r)))
      decreases Height(rank, Pointer(r)), 0, 1
    {
      ghost var x := Unfold(heap, rank, Pointer(r));
      ghost var start := printed;
      var spine: seq<Ref>, s: seq<string> := [], [];
      var y, count := Pointer(r), count0;
      while y.Pointer?
        invariant Good(heap, rank, y) && Above(y) && printed == start + spine && Fresh(start, spine)
        invariant Height(rank, y) <= Height(rank, Pointer(r))
        invariant s + Rest(y) == Items(numerals, x)
        decreases Height(rank, y)
      {
        RestCell(y.r, s);
        var stop, item;
        stop, item, count := StrItem(y.r, count, start, spine);
        if stop { return Join(s + ["..."]); }
        spine := spine + [y.r];
        s := s + [item];
        y := heap[y.r].1;
      }
      if y != Atom(Nil) {
        s := s + ["."];
        var last := Str(y, count);
        s := s + [last];
      }
      assert s == Items(numerals, x);
      ItemsJoin(numerals, x);
      Unmark(start, spine);
      text := Join(s);
    }

    /** One cell of the list: it is listed as being printed, and what it holds is printed. */
    method StrItem(r: Ref, count0: int, ghost start: seq<Ref>, ghost spine: seq<Ref>)
      returns (stop: bool, item: string, count: int)
      requires Good(heap, rank, Pointer(r)) && Above(Pointer(r)) && printed == start + spine && Fresh(start, spine)
      modifies this
      ensures !stop && printed == start + (spine + [r]) && Fresh(start, spine + [r]) && Above(heap[r].1)
      ensures item == Text(numerals, Unfold(heap, rank, heap[r].0))
      decreases Height(rank, Pointer(r)), 0, 0
    {
      stop, count := Mark(r, count0, start, spine);
      if stop { return true, "", count; }
      UnfoldCell(heap, rank, r);
      item := Str(heap[r].0, count);
    }

    /** A cell not yet being printed is listed as such; one that is would count down to the
        end of the printing. */
    method Mark(r: Ref, count0: int, ghost start: seq<Ref>, ghost spine: seq<Ref>) returns (stop: bool, count: int)
      requires Good(heap, rank, Pointer(r)) && Above(Pointer(r)) && printed == start + spine && Fresh(start, spine)
      modifies this
      ensures !stop && printed == start + (spine + [r]) && Fresh(start, spine + [r])
      ensures Above(heap[r].0) && Above(heap[r].1)
    {
      UnfoldCell(heap, rank, r);
      count := count0;
      if r in printed {
        count := count - 1;
        return count < 0, count;
      }
      printed := printed + [r];
      return false, REPEATS;
    }

    /** What is still to push when the list has been printed up to `y`. */
    ghost function Rest(y: Value): seq<string>
      requires Good(heap, rank, y)
    {
      TailItems(numerals, Unfold(heap, rank, y))
    }

    lemma RestCell(r: Ref, s: seq<string>)
      requires Good(heap, rank, Pointer(r))
      ensures Good(heap, rank, heap[r].0) && Good(heap, rank, heap[r].1)
      ensures Height(rank, heap[r].0) <= rank[r] && Height(rank, heap[r].1) <= rank[r]
      ensures s + Rest(Pointer(r)) == (s + [Text(numerals, Unfold(heap, rank, heap[r].0))]) + Rest(heap[r].1)
    {
      UnfoldCell(heap, rank, r);
      TailCell(numerals, s, Unfold(heap, rank, heap[r].0), Unfold(heap, rank, heap[r].1));
    }

    /** The second loop: each cell of the list leaves the list of what is being printed. */
    method Unmark(ghost start: seq<Ref>, spine: seq<Ref>)
      requires printed == start + spine && Fresh(start, spine)
      modifies this
      ensures printed == start
    {
      var k := 0;
      while k < |spine|
        invariant 0 <= k <= |spine| && printed == start + spine[k..]
      {
        FirstAt(start, spine, k);
        var i := IndexOf(printed, spine[k]);
        if i < |printed| { printed := printed[..i] + printed[i + 1..]; }
        assert printed == start + spine[k + 1..];
        k := k + 1;
      }
    }
  }

  /** Cells of a list are marked once, and none was marked before. */
  predicate Fresh(start: seq<Ref>, spine: seq<Ref>) {
    && (forall i | 0 <= i < |spine| :: spine[i] !in start)
    && (forall i, j | 0 <= i < j < |spine| :: spine[i] != spine[j])
  }

  function IndexOf(xs: seq<Ref>, r: Ref): (i: nat)
    ensures i <= |xs| && (i < |xs| ==> xs[i] == r) && forall j | 0 <= j < i :: xs[j] != r
  {
    if xs == [] || xs[0] == r then 0 else 1 + IndexOf(xs[1..], r)
  }

  lemma FirstAt(start: seq<Ref>, spine: seq<Ref>, k: nat)
    requires Fresh(start, spine) && k < |spine|
    ensures IndexOf(start + spine[k..], spine[k]) == |start|
  {
    var xs := start + spine[k..];
    assert xs[|start|] == spine[k];
  }
}
