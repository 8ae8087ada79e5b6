/** `snapshot`: numbering the objects reachable from the globals with a worklist
    (`packages/interpreter/src/image.ts`). */
module ImageWriter {
  import opened ImageFormat
  import opened Wrappers

  /** The image: its objects, the globals with their symbols, and the sources by name. */
  datatype Image = Image(objects: seq<Node<Json>>, globals: seq<(Json, Json)>, sources: seq<(string, Json)>)

  /** What the image is taken of. */
  datatype Contents = Contents(heap: Heap, globals: seq<(Value, Value)>, sources: seq<(string, Value)>)

  /** Everything written before the worklist runs, in the order it is written. */
  function GlobalValues(gs: seq<(Value, Value)>): seq<Value> {
    if gs == [] then [] else [gs[0].0, gs[0].1] + GlobalValues(gs[1..])
  }

  function RootValues(c: Contents): seq<Value> {
    GlobalValues(c.globals) + MapSeq((s: (string, Value)) => s.1, c.sources)
  }

  function Roots(c: Contents): set<Ref> {
    AllRefs(RootValues(c))
  }

  /** The symbols, values and sources, written with one numbering. */
  predicate GlobalsWritten(gs: seq<(Value, Value)>, js: seq<(Json, Json)>, ids: map<Ref, nat>) {
    && |js| == |gs|
    && forall i | 0 <= i < |gs| :: js[i] == (Encode(gs[i].0, ids), Encode(gs[i].1, ids))
  }

  predicate SourcesWritten(ss: seq<(string, Value)>, js: seq<(string, Json)>, ids: map<Ref, nat>) {
    && |js| == |ss|
    && forall i | 0 <= i < |ss| :: js[i] == (ss[i].0, Encode(ss[i].1, ids))
  }

  lemma {:induction false} GlobalValueAt(gs: seq<(Value, Value)>, i: nat)
    requires i < |gs|
    ensures |GlobalValues(gs)| == 2 * |gs|
    ensures GlobalValues(gs)[2 * i] == gs[i].0 && GlobalValues(gs)[2 * i + 1] == gs[i].1
  {
    if i > 0 {
      GlobalValueAt(gs[1..], i - 1);
    } else if |gs| > 1 {
      GlobalValueAt(gs[1..], 0);
    }
  }

  function EncodeNode(n: Node<Value>, ids: map<Ref, nat>): Node<Json> {
    MapNode((v: Value) => Encode(v, ids), n)
  }

  function EncodeAll(vs: seq<Value>, ids: map<Ref, nat>): (js: seq<Json>)
    ensures |js| == |vs|
    ensures forall i | 0 <= i < |vs| :: js[i] == Encode(vs[i], ids)
  {
    MapSeq((v: Value) => Encode(v, ids), vs)
  }

  lemma EncodeAllCons(vs: seq<Value>, ids: map<Ref, nat>)
    requires vs != []
    ensures EncodeAll(vs, ids) == [Encode(vs[0], ids)] + EncodeAll(vs[1..], ids)
  {
  }

  /** An object of the same kind with other contents in its slots. */
  function WithSlots<A, B>(n: Node<A>, js: seq<B>): Node<B>
    requires |js| == |Slots(n)|
  {
    match n
    case Pair(_, _) => Pair(js[0], js[1])
    case Vector(_) => Vector(js)
    case Frame(_) => Frame(js)
    case Func(kind, carity, keys, _, _) => Func(kind, carity, keys, js[0], js[1])
    case Symbol(name) => Symbol(name)
    case Fulfilled(_) => Fulfilled(js[0])
    case Rejected(reason) => Rejected(reason)
    case Pending => Pending
    case Builtin(name) => Builtin(name)
  }

  lemma EncodeWithSlots(n: Node<Value>, ids: map<Ref, nat>)
    ensures EncodeNode(n, ids) == WithSlots(n, EncodeAll(Slots(n), ids))
  {
    match n
    case Vector(items) => assert MapNode((v: Value) => Encode(v, ids), n).items == EncodeAll(Slots(n), ids);
    case Frame(slots) => assert MapNode((v: Value) => Encode(v, ids), n).slots == EncodeAll(Slots(n), ids);
    case _ =>
  }

  /** `ids` numbers the objects of `order` by their place in it, one number each. */
  predicate Numbers(ids: map<nat, nat>, order: seq<nat>) {
    && (forall i | 0 <= i < |order| :: order[i] in ids && ids[order[i]] == i)
    && (forall r | r in ids :: ids[r] < |order| && order[ids[r]] == r)
  }

  predicate Extends(ids: map<nat, nat>, more: map<nat, nat>) {
    forall r | r in ids :: r in more && more[r] == ids[r]
  }

  lemma EncodeNodeGrow(n: Node<Value>, ids: map<Ref, nat>, more: map<Ref, nat>)
    requires AllRefs(Slots(n)) <= ids.Keys && Extends(ids, more)
    ensures EncodeNode(n, more) == EncodeNode(n, ids)
  {
    forall i | 0 <= i < |Slots(n)| ensures Encode(Slots(n)[i], more) == Encode(Slots(n)[i], ids) {
      InAllRefs(Slots(n), i);
      EncodeGrow(Slots(n)[i], ids, more);
    }
    MapNodeAgree((v: Value) => Encode(v, more), (v: Value) => Encode(v, ids), n);
  }

  /** The image holds exactly the reachable objects, once each, and every slot, global and
      source is written with the same numbering. */
  ghost predicate ImageOf(c: Contents, image: Image, ids: map<Ref, nat>, order: seq<Ref>) {
    && Numbers(ids, order) && |image.objects| == |order|
    && (forall r {:trigger Reachable(Edges(c.heap), Roots(c), r)} ::
          r in ids <==> Reachable(Edges(c.heap), Roots(c), r))
    && ids.Keys <= c.heap.Keys
    && (forall i | 0 <= i < |order| ::
          && AllRefs(Slots(c.heap[order[i]])) <= ids.Keys
          && image.objects[i] == EncodeNode(c.heap[order[i]], ids))
    && Roots(c) <= ids.Keys
    && GlobalsWritten(c.globals, image.globals, ids)
    && SourcesWritten(c.sources, image.sources, ids)
  }

  lemma EncodeAllGrow(xs: seq<Value>, ids: map<Ref, nat>, more: map<Ref, nat>)
    requires AllRefs(xs) <= ids.Keys && Extends(ids, more)
    ensures EncodeAll(xs, more) == EncodeAll(xs, ids)
  {
    forall i | 0 <= i < |xs| ensures Encode(xs[i], more) == Encode(xs[i], ids) {
      InAllRefs(xs, i);
      EncodeGrow(xs[i], ids, more);
    }
  }

  /** What globals and sources hold is numbered before anything else. */
  predicate RootsFirst(c: Contents, ids: map<Ref, nat>) {
    forall r, s | r in Roots(c) && r in ids && s in ids && s !in Roots(c) :: ids[r] < ids[s]
  }

  lemma FirstNumbers(before: map<Ref, nat>, first: seq<Ref>, ids: map<Ref, nat>, order: seq<Ref>, r: Ref, s: Ref)
    requires Numbers(before, first) && Numbers(ids, order) && Extends(before, ids)
    requires r in before && s in ids && s !in before
    ensures ids[r] < ids[s]
  {
    forall i | 0 <= i < |first| ensures i < |order| && order[i] == first[i] { assert first[i] in before; }
  }

  /** Taking an image. Termination is the worklist's; what it leaves is a numbering of the
      reachable objects, a bijection, and the image written with it. */
  method Snapshot(c: Contents) returns (image: Image, ghost ids: map<Ref, nat>, ghost order: seq<Ref>)
    requires WellFormed(c.heap) && Roots(c) <= c.heap.Keys
    ensures ImageOf(c, image, ids, order) && RootsFirst(c, ids)
  {
    var writer := new Writer(c.heap);
    var js := writer.WriteAll(RootValues(c), {});
    ghost var ids0, order0 := writer.ids, writer.order;
    ghost var edges := Edges(c.heap);
    forall r | r in ids0 ensures Reachable(edges, Roots(c), r) { RootReachable(edges, Roots(c), r); }
    writer.Drain(Roots(c));
    ids, order := writer.ids, writer.order;
    forall r, s | r in Roots(c) && s in ids && s !in Roots(c) ensures ids[r] < ids[s] {
      FirstNumbers(ids0, order0, ids, order, r, s);
    }
    EncodeAllGrow(RootValues(c), ids0, ids);
    forall r | Reachable(edges, Roots(c), r) ensures r in ids { ClosedCovers(edges, Roots(c), ids.Keys, r); }
    var objects := writer.Objects();
    RootCount(c);
    image := Assemble(c, js, objects);
    Assembled(c, js, objects, ids);
  }

  /** The roots' JSON, put back into globals and sources. */
  function Assemble(c: Contents, js: seq<Json>, objects: seq<Node<Json>>): Image
    requires |js| == 2 * |c.globals| + |c.sources|
  {
    var g := |c.globals|;
    Image(objects,
          seq(g, i requires 0 <= i < g => (js[2 * i], js[2 * i + 1])),
          seq(|c.sources|, i requires 0 <= i < |c.sources| => (c.sources[i].0, js[2 * g + i])))
  }

  lemma RootCount(c: Contents)
    ensures |RootValues(c)| == 2 * |c.globals| + |c.sources|
  {
    if c.globals != [] { GlobalValueAt(c.globals, 0); }
  }

  lemma Assembled(c: Contents, js: seq<Json>, objects: seq<Node<Json>>, ids: map<Ref, nat>)
    requires js == EncodeAll(RootValues(c), ids) && |js| == 2 * |c.globals| + |c.sources|
    ensures GlobalsWritten(c.globals, Assemble(c, js, objects).globals, ids)
    ensures SourcesWritten(c.sources, Assemble(c, js, objects).sources, ids)
  {
    GlobalsInImage(c, js, objects, ids);
    SourcesInImage(c, js, objects, ids);
  }

  lemma GlobalsInImage(c: Contents, js: seq<Json>, objects: seq<Node<Json>>, ids: map<Ref, nat>)
    requires js == EncodeAll(RootValues(c), ids) && |js| == 2 * |c.globals| + |c.sources|
    ensures GlobalsWritten(c.globals, Assemble(c, js, objects).globals, ids)
  {
    forall i | 0 <= i < |c.globals|
      ensures Assemble(c, js, objects).globals[i] == (Encode(c.globals[i].0, ids), Encode(c.globals[i].1, ids))
    {
      GlobalAssembled(c, js, ids, i);
    }
  }

  lemma SourcesInImage(c: Contents, js: seq<Json>, objects: seq<Node<Json>>, ids: map<Ref, nat>)
    requires js == EncodeAll(RootValues(c), ids) && |js| == 2 * |c.globals| + |c.sources|
    ensures SourcesWritten(c.sources, Assemble(c, js, objects).sources, ids)
  {
    forall i | 0 <= i < |c.sources|
      ensures Assemble(c, js, objects).sources[i] == (c.sources[i].0, Encode(c.sources[i].1, ids))
    {
      SourceAssembled(c, js, ids, i);
    }
  }

  lemma SourceAssembled(c: Contents, js: seq<Json>, ids: map<Ref, nat>, i: nat)
    requires js == EncodeAll(RootValues(c), ids) && |js| == 2 * |c.globals| + |c.sources| && i < |c.sources|
    ensures js[2 * |c.globals| + i] == Encode(c.sources[i].1, ids)
  {
    SourceAt(c, i);
  }

  lemma SourceAt(c: Contents, i: nat)
    requires i < |c.sources|
    ensures 2 * |c.globals| + i < |RootValues(c)| && RootValues(c)[2 * |c.globals| + i] == c.sources[i].1
  {
    RootSplit(c);
  }

  lemma RootSplit(c: Contents)
    ensures |GlobalValues(c.globals)| == 2 * |c.globals|
  {
    if c.globals != [] { GlobalValueAt(c.globals, 0); }
  }

  lemma GlobalAssembled(c: Contents, js: seq<Json>, ids: map<Ref, nat>, i: nat)
    requires js == EncodeAll(RootValues(c), ids) && |js| == 2 * |c.globals| + |c.sources| && i < |c.globals|
    ensures js[2 * i] == Encode(c.globals[i].0, ids) && js[2 * i + 1] == Encode(c.globals[i].1, ids)
  {
    GlobalValueAt(c.globals, i);
    assert RootValues(c)[2 * i] == c.globals[i].0 && RootValues(c)[2 * i + 1] == c.globals[i].1;
  }

  lemma StepAll(g: map<nat, set<nat>>, roots: set<nat>, s: set<nat>, x: nat, more: set<nat>)
    requires x in s && x in g && more <= s + g[x]
    requires forall r | r in s :: Reachable(g, roots, r)
    ensures forall r | r in more :: Reachable(g, roots, r)
  {
    forall r | r in more && r !in s ensures Reachable(g, roots, r) { StepReachable(g, roots, x, r); }
  }

  class Writer {
    const heap: Heap
    var objects: seq<Option<Node<Json>>>
    var ids: map<Ref, nat>
    var pending: seq<(nat, Ref)>
    ghost var order: seq<Ref>

    constructor (heap: Heap)
      requires WellFormed(heap)
      ensures Valid({}) && this.heap == heap && ids == map[] && pending == []
    {
      this.heap := heap;
      objects, ids, pending, order := [], map[], [], [];
    }

    /** Every object numbered so far is written, is being written (`busy`), or is pending. */
    ghost predicate Valid(busy: set<nat>)
      reads this
    {
      && WellFormed(heap) && ids.Keys <= heap.Keys
      && Numbers(ids, order) && |objects| == |order|
      && (forall i | 0 <= i < |objects| && objects[i].Some? :: Written(i))
      && (forall i | 0 <= i < |objects| && objects[i].None? :: i in busy || (i, order[i]) in pending)
      && (forall e | e in pending :: e.0 < |order| && order[e.0] == e.1)
    }

    ghost predicate Written(i: nat)
      requires i < |objects| && i < |order| && objects[i].Some? && order[i] in heap
      reads this
    {
      && AllRefs(Slots(heap[order[i]])) <= ids.Keys
      && objects[i].value == EncodeNode(heap[order[i]], ids)
    }

    /** More objects are numbered; what was numbered or written stays as it was. */
    twostate predicate Grew(refs: set<Ref>)
      reads this
    {
      && Extends(old(ids), ids) && ids.Keys == old(ids.Keys) + refs
      && (ids.Keys == old(ids.Keys) ==> pending == old(pending))
    }

    method WriteRef(x: Ref, ghost busy: set<nat>) returns (j: Json)
      requires Valid(busy) && x in heap
      modifies this
      ensures Valid(busy) && Grew({x}) && j == Encode(Obj(x), ids)
    {
      if x !in ids {
        var id := |objects|;
        ghost var before := ids;
        ids := ids[x := id];
        objects := objects + [None];
        pending := pending + [(id, x)];
        order := order + [x];
        forall i | 0 <= i < |objects| && objects[i].Some? ensures Written(i) {
          EncodeNodeGrow(heap[order[i]], before, ids);
        }
        assert pending[|pending| - 1] == (id, x);
        forall i | 0 <= i < |objects| && objects[i].None? ensures i in busy || (i, order[i]) in pending {
          if i < id && i !in busy {
            assert (i, order[i]) in pending[..|pending| - 1];
          }
        }
      }
      return JRef(ids[x]);
    }

    method Write(x: Value, ghost busy: set<nat>) returns (j: Json)
      requires Valid(busy) && Refs(x) <= heap.Keys
      modifies this
      ensures Valid(busy) && Grew(Refs(x)) && j == Encode(x, ids)
      decreases x
    {
      match x
      case Arg(level, offset, sym) =>
        var s := Write(sym, busy);
        return JArg(level, offset, s);
      case Obj(r) => j := WriteRef(r, busy);
      case _ => return Encode(x, map[]);
    }

    method WriteAll(xs: seq<Value>, ghost busy: set<nat>) returns (js: seq<Json>)
      requires Valid(busy) && AllRefs(xs) <= heap.Keys
      modifies this
      ensures Valid(busy) && Grew(AllRefs(xs))
      ensures AllRefs(xs) <= ids.Keys && js == EncodeAll(xs, ids)
      decreases xs
    {
      if xs == [] { return []; }
      var j := Write(xs[0], busy);
      ghost var before := ids;
      var others := WriteAll(xs[1..], busy);
      EncodeGrow(xs[0], before, ids);
      js := [j] + others;
      EncodeAllCons(xs, ids);
    }

    method WriteObject(x: Ref, ghost busy: set<nat>) returns (j: Node<Json>)
      requires Valid(busy) && x in heap
      modifies this
      ensures Valid(busy) && Grew(AllRefs(Slots(heap[x])))
      ensures j == EncodeNode(heap[x], ids)
    {
      var n := heap[x];
      assert AllRefs(Slots(n)) <= heap.Keys;
      var js := WriteAll(Slots(n), busy);
      assert n.Func? && !n.kind.IsClosure? ==> js[1] == JNull;
      assert WithSlots(n, js) == EncodeNode(n, ids) by { EncodeWithSlots(n, ids); }
      match n
      case Pair(_, _) => j := Pair(js[0], js[1]);
      case Vector(_) => j := Vector(js);
      case Frame(_) => j := Frame(js);
      case Func(kind, carity, keys, _, _) =>
        j := Func(kind, carity, keys, js[0], if kind.IsClosure? then js[1] else JNull);
      case Symbol(name) => j := Symbol(name);
      case Fulfilled(_) => j := Fulfilled(js[0]);
      case Rejected(reason) => j := Rejected(reason);
      case Pending => j := Pending;
      case Builtin(name) => j := Builtin(name);
    }

    ghost predicate AllReachable(roots: set<Ref>)
      reads this
    {
      forall r | r in ids :: Reachable(Edges(heap), roots, r)
    }

    /** `drain`: until nothing is pending. Each turn either numbers an object of the finite
        heap for the first time or leaves one object fewer to write. */
    method Drain(ghost roots: set<Ref>)
      requires Valid({}) && AllReachable(roots)
      modifies this
      ensures Valid({}) && pending == []
      ensures forall i | 0 <= i < |objects| :: objects[i].Some?
      ensures Extends(old(ids), ids)
      ensures AllReachable(roots)
      ensures forall r | r in ids :: AllRefs(Slots(heap[r])) <= ids.Keys
    {
      while pending != []
        invariant Valid({}) && AllReachable(roots) && Extends(old(ids), ids)
        decreases heap.Keys - ids.Keys, |pending|
      {
        ghost var before := ids.Keys;
        WritePending(roots);
        if ids.Keys != before { assert heap.Keys - ids.Keys < heap.Keys - before; }
      }
      forall r | r in ids ensures AllRefs(Slots(heap[r])) <= ids.Keys {
        assert Written(ids[r]);
      }
    }

    method WritePending(ghost roots: set<Ref>)
      requires Valid({}) && pending != [] && AllReachable(roots)
      modifies this
      ensures Valid({}) && AllReachable(roots) && Extends(old(ids), ids)
      ensures ids.Keys == old(ids.Keys) ==> |pending| < |old(pending)|
    {
      var id, x := PopPending();
      ghost var before, edges := ids, Edges(heap);
      var j := WriteObject(x, {id});
      StepAll(edges, roots, before.Keys, x, ids.Keys);
      Place(id, x, j);
    }

    /** The finished array: no placeholder is left in it. */
    method Objects() returns (js: seq<Node<Json>>)
      requires Valid({}) && forall i | 0 <= i < |objects| :: objects[i].Some?
      ensures |js| == |order|
      ensures forall i | 0 <= i < |order| ::
                AllRefs(Slots(heap[order[i]])) <= ids.Keys && js[i] == EncodeNode(heap[order[i]], ids)
    {
      js := seq(|objects|, i requires 0 <= i < |objects| && objects[i].Some? reads this => objects[i].value);
      forall i | 0 <= i < |order|
        ensures AllRefs(Slots(heap[order[i]])) <= ids.Keys && js[i] == EncodeNode(heap[order[i]], ids)
      {
        assert Written(i);
      }
    }

    method PopPending() returns (id: nat, x: Ref)
      requires Valid({}) && pending != []
      modifies this`pending
      ensures Valid({id}) && |pending| == |old(pending)| - 1
      ensures x in ids && ids[x] == id
    {
      id, x := pending[|pending| - 1].0, pending[|pending| - 1].1;
      pending := pending[..|pending| - 1];
      assert forall i | 0 <= i < |objects| && objects[i].Some? :: Written(i);
      assert forall e | e in old(pending) :: e == (id, x) || e in pending;
    }

    method Place(id: nat, x: Ref, j: Node<Json>)
      requires Valid({id}) && x in ids && ids[x] == id
      requires AllRefs(Slots(heap[x])) <= ids.Keys && j == EncodeNode(heap[x], ids)
      modifies this`objects
      ensures Valid({})
    {
      objects := objects[id := Some(j)];
      forall i | 0 <= i < |objects| && objects[i].Some? ensures Written(i) {
        assert i != id ==> old(Written(i));
      }
    }
  }
}
