/** `implant`: a fragment built in another host is what restoring the whole image would have
    bound (`packages/interpreter/src/image.ts`). */
module ImageImplant {
  import opened ImageFormat
  import opened ImageWriter
  import opened ImageRestore
  import opened ImageExtract

  /** Where each object of the restored image is in the host the fragment is implanted in. */
  function Moved(ids: map<nat, nat>, from: Ref, to: Ref): map<Ref, Ref> {
    map r | r in Shift(ids.Keys, from) && r >= from && r - from in ids :: to + ids[r - from]
  }

  function Shift(s: set<nat>, base: Ref): set<Ref> {
    set k | k in s :: base + k
  }

  lemma {:induction false} DecodedRefs(j: Json, n: nat, base: Ref)
    requires forall id | id in JsonRefs(j) :: id < n
    ensures Refs(Decode(j, Built(n, base))) == Shift(JsonRefs(j), base)
  {
    if j.JArg? {
      assert JsonRefs(j.sym) <= JsonRefs(j);
      DecodedRefs(j.sym, n, base);
    }
  }

  lemma {:induction false} AllDecodedRefs(js: seq<Json>, vs: seq<Value>, n: nat, base: Ref)
    requires forall id | id in AllJsonRefs(js) :: id < n
    requires |vs| == |js| && forall i | 0 <= i < |js| :: vs[i] == Decode(js[i], Built(n, base))
    ensures AllRefs(vs) == Shift(AllJsonRefs(js), base)
  {
    if js != [] {
      assert JsonRefs(js[0]) <= AllJsonRefs(js) && AllJsonRefs(js[1..]) <= AllJsonRefs(js);
      DecodedRefs(js[0], n, base);
      AllDecodedRefs(js[1..], vs[1..], n, base);
      assert Shift(AllJsonRefs(js), base) == Shift(JsonRefs(js[0]), base) + Shift(AllJsonRefs(js[1..]), base);
    }
  }

  /** A restored object has the edges the image gave it. */
  lemma RestoredEdges(objects: seq<Node<Json>>, base: Ref, heap: Heap, k: nat)
    requires k < |objects| && !objects[k].Pending? && RebuiltAt(objects, base, heap, k)
    requires RefsWithin(objects, k)
    ensures AllRefs(Slots(heap[base + k])) == Shift(AllJsonRefs(Slots(objects[k])), base)
  {
    var vs := Slots(DecodeNode(objects[k], Built(|objects|, base)));
    AllDecodedRefs(Slots(objects[k]), vs, |objects|, base);
  }

  function Shifted(path: seq<nat>, base: Ref): (r: seq<Ref>)
    ensures |r| == |path|
  {
    seq(|path|, i requires 0 <= i < |path| => base + path[i])
  }

  /** A walk in the image is a walk among the restored objects. */
  lemma WalkRestored(heap: Heap, base: Ref, roots: set<nat>, path: seq<nat>)
    requires path != [] && path[0] in roots
    requires forall i | 0 <= i < |path| - 1 :: LinkThere(heap, base, path, i)
    ensures Walk(Edges(heap), Shift(roots, base), Shifted(path, base))
  {
    var moved := Shifted(path, base);
    forall i | 0 <= i < |moved| - 1 ensures Linked(Edges(heap), moved, i) { assert LinkThere(heap, base, path, i); }
  }

  predicate LinkThere(heap: Heap, base: Ref, path: seq<nat>, i: nat)
    requires i < |path| - 1
  {
    base + path[i] in Edges(heap) && base + path[i + 1] in Edges(heap)[base + path[i]]
  }

  lemma LinkRestored(objects: seq<Node<Json>>, base: Ref, heap: Heap, from: nat, to: nat)
    requires from < |objects| && !objects[from].Pending? && RebuiltAt(objects, base, heap, from)
    requires RefsWithin(objects, from) && to in AllJsonRefs(Slots(objects[from]))
    ensures base + from in Edges(heap) && base + to in Edges(heap)[base + from]
  {
    RestoredEdges(objects, base, heap, from);
  }

  /** Renumbering and then reading the fragment is reading the image and then moving. */
  lemma DecodeRenumber(j: Json, n: nat, ids: map<nat, nat>, m: nat, base1: Ref, base2: Ref)
    requires JsonRefs(j) <= ids.Keys && forall k | k in ids :: k < n && ids[k] < m
    ensures Decode(Renumber(j, ids), Built(m, base2)) == Rename(Decode(j, Built(n, base1)), Moved(ids, base1, base2))
  {
    forall id | id in JsonRefs(j) ensures MovesTo(id, n, ids, m, base1, base2, Moved(ids, base1, base2)) {
      MovedAt(id, ids, base1, base2);
    }
    DecodeMoved(j, n, ids, m, base1, base2, Moved(ids, base1, base2));
  }

  predicate MovesTo(id: nat, n: nat, ids: map<nat, nat>, m: nat, base1: Ref, base2: Ref, psi: map<Ref, Ref>) {
    id < n && id in ids && ids[id] < m && base1 + id in psi && psi[base1 + id] == base2 + ids[id]
  }

  lemma {:induction false} DecodeMoved(j: Json, n: nat, ids: map<nat, nat>, m: nat, base1: Ref, base2: Ref,
                                       psi: map<Ref, Ref>)
    requires forall id | id in JsonRefs(j) :: MovesTo(id, n, ids, m, base1, base2, psi)
    ensures Decode(Renumber(j, ids), Built(m, base2)) == Rename(Decode(j, Built(n, base1)), psi)
  {
    match j
    case JArg(_, _, sym) => DecodeMoved(sym, n, ids, m, base1, base2, psi);
    case JRef(id) => assert MovesTo(id, n, ids, m, base1, base2, psi);
    case _ =>
  }

  lemma MovedAt(id: nat, ids: map<nat, nat>, from: Ref, to: Ref)
    requires id in ids
    ensures from + id in Moved(ids, from, to) && Moved(ids, from, to)[from + id] == to + ids[id]
  {
  }

  lemma DecodeRenumberNode(o: Node<Json>, n: nat, ids: map<nat, nat>, order: seq<nat>, base1: Ref, base2: Ref)
    requires Numbers(ids, order) && AllJsonRefs(Slots(o)) <= ids.Keys && forall k | k in ids :: k < n
    ensures DecodeNode(RenumberNode(o, ids), Built(|order|, base2))
         == RenameNode(DecodeNode(o, Built(n, base1)), Moved(ids, base1, base2))
  {
    var psi := Moved(ids, base1, base2);
    var f := (j: Json) => Rename(Decode(j, Built(n, base1)), psi);
    forall i | 0 <= i < |Slots(o)|
      ensures Decode(Renumber(Slots(o)[i], ids), Built(|order|, base2)) == f(Slots(o)[i])
    {
      InAllJsonRefs(Slots(o), i);
      DecodeRenumber(Slots(o)[i], n, ids, |order|, base1, base2);
    }
    MapNodeMapNode((j: Json) => Renumber(j, ids), (j: Json) => Decode(j, Built(|order|, base2)), f, o);
    MapNodeMapNode((j: Json) => Decode(j, Built(n, base1)), (v: Value) => Rename(v, psi), f, o);
  }

  /** What is renumbered refers to the new numbers of what it referred to. */
  lemma {:induction false} RenumberedRefs(j: Json, ids: map<nat, nat>)
    ensures JsonRefs(Renumber(j, ids)) == Numbered(JsonRefs(j), ids)
  {
    if j.JArg? { RenumberedRefs(j.sym, ids); }
  }

  lemma {:induction false} AllRenumberedRefs(js: seq<Json>, rs: seq<Json>, ids: map<nat, nat>)
    requires |rs| == |js| && forall i | 0 <= i < |js| :: rs[i] == Renumber(js[i], ids)
    ensures AllJsonRefs(rs) == Numbered(AllJsonRefs(js), ids)
  {
    if js != [] {
      RenumberedRefs(js[0], ids);
      AllRenumberedRefs(js[1..], rs[1..], ids);
      NumberedSum(JsonRefs(js[0]), AllJsonRefs(js[1..]), ids);
    }
  }

  lemma RenumberedNode(n: Node<Json>, ids: map<nat, nat>)
    ensures AllJsonRefs(Slots(RenumberNode(n, ids))) == Numbered(AllJsonRefs(Slots(n)), ids)
    ensures Mutable(RenumberNode(n, ids)) == Mutable(n)
  {
    AllRenumberedRefs(Slots(n), Slots(RenumberNode(n, ids)), ids);
  }

  /** A fragment of an image that can be read can be read. */
  lemma FragmentReadable(objects: seq<Node<Json>>, root: Json, f: Fragment, ids: map<nat, nat>, order: seq<nat>)
    requires Readable(objects) && FragmentOf(objects, root, f, ids, order)
    ensures Readable(f.objects)
  {
    forall k | 0 <= k < |order| ensures RefsWithin(f.objects, k) {
      assert FragmentAt(objects, f.objects, ids, order, k);
      RenumberedNode(objects[order[k]], ids);
    }
    forall k | 0 <= k < |order| && f.objects[k].Func? && !f.objects[k].kind.IsClosure?
      ensures f.objects[k].env.JNull?
    {
      assert FragmentAt(objects, f.objects, ids, order, k);
    }
  }

  /** A fragment of an image whose functions refer to shells only is ordered. */
  lemma FragmentOrdered(objects: seq<Node<Json>>, root: Json, f: Fragment, ids: map<nat, nat>, order: seq<nat>)
    requires Readable(objects) && ShellsOnly(objects) && FragmentOf(objects, root, f, ids, order)
    ensures ShellsOnly(f.objects) && Ordered(f.objects)
  {
    forall k, id | 0 <= k < |order| && !Mutable(f.objects[k]) && id in AllJsonRefs(Slots(f.objects[k]))
      ensures id < |order| && Mutable(f.objects[id])
    {
      assert FragmentAt(objects, f.objects, ids, order, k);
      assert OnlyShells(objects, order[k]);
      RenumberedNode(objects[order[k]], ids);
      assert FragmentAt(objects, f.objects, ids, order, id);
    }
    forall k | 0 <= k < |order| && !Mutable(f.objects[k]) ensures OnlyShells(f.objects, k) {}
    ShellsOrdered(f.objects);
  }

  /** Everything taken that is built in the second pass refers to shells and to objects that were
      taken before it. */
  predicate TakenInOrder(objects: seq<Node<Json>>, ids: map<nat, nat>) {
    forall k | k in ids && k < |objects| && !Mutable(objects[k]) :: RefersToTaken(objects, ids, k)
  }

  predicate RefersToTaken(objects: seq<Node<Json>>, ids: map<nat, nat>, k: nat)
    requires k in ids && k < |objects|
  {
    forall m | m in AllJsonRefs(Slots(objects[k])) ::
      m in ids && m < |objects| && (Mutable(objects[m]) || ids[m] < ids[k])
  }

  /** The order of a fragment in terms of the image and of the numbers its objects get. */
  lemma FragmentOrderedExactly(objects: seq<Node<Json>>, root: Json, f: Fragment, ids: map<nat, nat>, order: seq<nat>)
    requires FragmentOf(objects, root, f, ids, order)
    ensures Ordered(f.objects) <==> TakenInOrder(objects, ids)
  {
    forall k | 0 <= k < |order| && !Mutable(f.objects[k])
      ensures order[k] < |objects| && !Mutable(objects[order[k]])
      ensures ReadsBuilt(f.objects, k) <==> RefersToTaken(objects, ids, order[k])
    {
      TakenExactly(objects, root, f, ids, order, k);
    }
    forall r | r in ids && r < |objects| && !Mutable(objects[r])
      ensures order[ids[r]] == r && !Mutable(f.objects[ids[r]])
    {
      TakenExactly(objects, root, f, ids, order, ids[r]);
    }
  }

  lemma TakenExactly(objects: seq<Node<Json>>, root: Json, f: Fragment, ids: map<nat, nat>, order: seq<nat>, k: nat)
    requires FragmentOf(objects, root, f, ids, order) && k < |order|
    ensures order[k] < |objects| && Mutable(f.objects[k]) == Mutable(objects[order[k]])
    ensures ReadsBuilt(f.objects, k) <==> RefersToTaken(objects, ids, order[k])
  {
    assert FragmentAt(objects, f.objects, ids, order, k);
    var refs := AllJsonRefs(Slots(objects[order[k]]));
    RenumberedNode(objects[order[k]], ids);
    forall m | m in refs ensures m in ids && ids[m] in Numbered(refs, ids) && order[ids[m]] == m {}
    forall m | m in refs ensures m < |objects| && Mutable(f.objects[ids[m]]) == Mutable(objects[m]) {
      assert FragmentAt(objects, f.objects, ids, order, ids[m]);
      RenumberedNode(objects[m], ids);
    }
  }

  /** A global's closure is taken first, so one whose code is a function is not in order, wherever
      the two stand in the image. */
  lemma FragmentCodeLost(objects: seq<Node<Json>>, f: Fragment, ids: map<nat, nat>, order: seq<nat>, k: nat, m: nat)
    requires FragmentOf(objects, JRef(k), f, ids, order) && f.root == JRef(0)
    requires k < |objects| && objects[k].Func? && objects[k].kind.IsClosure? && objects[k].body == JRef(m)
    requires m < |objects| && objects[m].Func?
    ensures !Ordered(f.objects)
  {
    FragmentOrderedExactly(objects, JRef(k), f, ids, order);
    FuncRefs(objects[k]);
    assert k in ids && ids[k] == 0;
    assert !RefersToTaken(objects, ids, k);
  }

  lemma FuncRefs(n: Node<Json>)
    requires n.Func?
    ensures AllJsonRefs(Slots(n)) == JsonRefs(n.body) + JsonRefs(n.env)
  {
    TwoJsonRefs(n.body, n.env);
    assert Slots(n) == [n.body, n.env];
  }

  /** The code of a closure, then the closure. */
  function CodeFirst(): seq<Node<Json>> {
    [Func(IsLambda, 1, [], JNull, JNull), Func(IsClosure, 1, [], JRef(0), JNull)]
  }

  function ClosureFirst(): seq<Node<Json>> {
    [Func(IsClosure, 1, [], JRef(1), JNull), Func(IsLambda, 1, [], JNull, JNull)]
  }

  /** So an image that is in order may hold a global whose fragment is not. */
  lemma OrderLost()
    ensures Readable(CodeFirst()) && Ordered(CodeFirst())
    ensures FragmentOf(CodeFirst(), JRef(1), Fragment(ClosureFirst(), JRef(0)), map[1 := 0, 0 := 1], [1, 0])
    ensures !Ordered(ClosureFirst())
  {
    CodeFirstOrdered();
    ClosureTaken();
    FragmentCodeLost(CodeFirst(), Fragment(ClosureFirst(), JRef(0)), map[1 := 0, 0 := 1], [1, 0], 1, 0);
  }

  lemma CodeFirstRefs()
    ensures AllJsonRefs(Slots(CodeFirst()[0])) == {} && AllJsonRefs(Slots(CodeFirst()[1])) == {0}
  {
    FuncRefs(CodeFirst()[0]);
    FuncRefs(CodeFirst()[1]);
  }

  lemma CodeFirstOrdered()
    ensures Readable(CodeFirst()) && Ordered(CodeFirst())
  {
    CodeFirstRefs();
    var objects := CodeFirst();
    assert RefsWithin(objects, 0) && RefsWithin(objects, 1);
    assert ReadsBuilt(objects, 0) && ReadsBuilt(objects, 1);
  }

  lemma ClosureTaken()
    ensures FragmentOf(CodeFirst(), JRef(1), Fragment(ClosureFirst(), JRef(0)), map[1 := 0, 0 := 1], [1, 0])
  {
    CodeFirstRefs();
    var objects, ids, order := CodeFirst(), map[1 := 0, 0 := 1], [1, 0];
    var edges := JsonEdges(objects);
    assert JsonRefs(JRef(1)) == {1};
    forall r: nat {:trigger Reachable(edges, {1}, r)} ensures r in ids <==> Reachable(edges, {1}, r) {
      BothReached(edges, r);
    }
    assert FragmentAt(objects, ClosureFirst(), ids, order, 0) && FragmentAt(objects, ClosureFirst(), ids, order, 1);
  }

  lemma BothReached(edges: map<nat, set<nat>>, r: nat)
    requires edges.Keys == {0, 1} && edges[0] == {} && edges[1] == {0}
    ensures Reachable(edges, {1}, r) <==> r == 0 || r == 1
  {
    assert Walk(edges, {1}, [1]);
    assert Linked(edges, [1, 0], 0) && Walk(edges, {1}, [1, 0]);
    if Reachable(edges, {1}, r) { ClosedCovers(edges, {1}, {0, 1}, r); }
    assert Reachable(edges, {1}, 1) by { assert [1][|[1]| - 1] == 1; }
    assert Reachable(edges, {1}, 0) by { assert [1, 0][|[1, 0]| - 1] == 0; }
  }

  /** A step from an object that is there and not waiting. */
  predicate WholeStep(objects: seq<Node<Json>>, path: seq<nat>, i: nat)
    requires i < |path| - 1
  {
    path[i] < |objects| && !objects[path[i]].Pending? && path[i + 1] in AllJsonRefs(Slots(objects[path[i]]))
  }

  lemma LinksRestored(objects: seq<Node<Json>>, base: Ref, heap: Heap, path: seq<nat>, i: nat)
    requires Readable(objects) && i < |path| - 1 && WholeStep(objects, path, i)
    requires forall k | 0 <= k < |objects| :: RebuiltAt(objects, base, heap, k)
    ensures LinkThere(heap, base, path, i)
  {
    assert RefsWithin(objects, path[i]) && RebuiltAt(objects, base, heap, path[i]);
    LinkRestored(objects, base, heap, path[i], path[i + 1]);
  }

  lemma PathReached(root: Json, base: Ref, heap: Heap, path: seq<nat>)
    requires path != [] && path[0] in JsonRefs(root)
    requires forall i | 0 <= i < |path| - 1 :: LinkThere(heap, base, path, i)
    ensures Reachable(Edges(heap), Shift(JsonRefs(root), base), base + path[|path| - 1])
  {
    WalkRestored(heap, base, JsonRefs(root), path);
    assert Shifted(path, base)[|path| - 1] == base + path[|path| - 1];
  }

  lemma TakenWhole(objects: seq<Node<Json>>, root: Json, f: Fragment, ids: map<nat, nat>, order: seq<nat>,
                   path: seq<nat>, i: nat)
    requires FragmentOf(objects, root, f, ids, order)
    requires Walk(JsonEdges(objects), JsonRefs(root), path) && i < |path| - 1
    ensures WholeStep(objects, path, i)
  {
    assert Linked(JsonEdges(objects), path, i);
    PrefixReachable(JsonEdges(objects), JsonRefs(root), path, i);
    FragmentWhole(objects, root, f, ids, order, path[i]);
  }

  /** The objects of the fragment are the ones the restored value reaches, no more. */
  lemma TakenReached(objects: seq<Node<Json>>, root: Json, f: Fragment, ids: map<nat, nat>, order: seq<nat>, base: Ref,
                     heap: Heap, k: nat)
    requires Readable(objects) && FragmentOf(objects, root, f, ids, order) && k in ids
    requires forall k | 0 <= k < |objects| :: RebuiltAt(objects, base, heap, k)
    ensures Reachable(Edges(heap), Shift(JsonRefs(root), base), base + k)
  {
    assert Reachable(JsonEdges(objects), JsonRefs(root), k);
    var path :| Walk(JsonEdges(objects), JsonRefs(root), path) && path[|path| - 1] == k;
    forall i | 0 <= i < |path| - 1 ensures LinkThere(heap, base, path, i) {
      TakenWhole(objects, root, f, ids, order, path, i);
      LinksRestored(objects, base, heap, path, i);
    }
    PathReached(root, base, heap, path);
  }

  lemma ReachedTaken(objects: seq<Node<Json>>, root: Json, f: Fragment, ids: map<nat, nat>, order: seq<nat>, base: Ref,
                     heap: Heap, r: Ref)
    requires Readable(objects) && FragmentOf(objects, root, f, ids, order)
    requires forall k | 0 <= k < |objects| :: RebuiltAt(objects, base, heap, k)
    requires Reachable(Edges(heap), Shift(JsonRefs(root), base), r)
    ensures r in Shift(ids.Keys, base)
  {
    var s := Shift(ids.Keys, base);
    forall x | x in s ensures x in Edges(heap) && Edges(heap)[x] <= s {
      TakenEdges(objects, root, f, ids, order, base, heap, x - base);
    }
    ClosedCovers(Edges(heap), Shift(JsonRefs(root), base), s, r);
  }

  /** What a taken object refers to is taken. */
  lemma TakenEdges(objects: seq<Node<Json>>, root: Json, f: Fragment, ids: map<nat, nat>, order: seq<nat>, base: Ref,
                   heap: Heap, k: nat)
    requires Readable(objects) && FragmentOf(objects, root, f, ids, order) && k in ids
    requires forall k | 0 <= k < |objects| :: RebuiltAt(objects, base, heap, k)
    ensures base + k in Edges(heap) && Edges(heap)[base + k] <= Shift(ids.Keys, base)
  {
    assert FragmentAt(objects, f.objects, ids, order, ids[k]);
    assert RebuiltAt(objects, base, heap, k) && RefsWithin(objects, k);
    RestoredEdges(objects, base, heap, k);
  }

  lemma PrefixReachable(g: map<nat, set<nat>>, roots: set<nat>, path: seq<nat>, i: nat)
    requires Walk(g, roots, path) && i < |path|
    ensures Reachable(g, roots, path[i])
  {
    var prefix := path[..i + 1];
    forall k | 0 <= k < |prefix| - 1 ensures Linked(g, prefix, k) { assert Linked(g, path, k); }
    assert Walk(g, roots, prefix) && prefix[|prefix| - 1] == path[i];
  }

  /** Extract then implant: the value bound is isomorphic to the one that the whole image describes,
      object by object, and holds nothing that one does not reach, if and only if the fragment is
      ordered. That the image is ordered is not asked: one that is so restores to what it describes. */
  lemma ExtractImplant(objects: seq<Node<Json>>, root: Json, f: Fragment, ids: map<nat, nat>, order: seq<nat>,
                       base1: Ref, host1: Heap, heap1: Heap, base2: Ref, host2: Heap, heap2: Heap)
    requires Readable(objects) && FragmentOf(objects, root, f, ids, order)
    requires (forall r | r in host1 :: r < base1) && Rebuilt(objects, base1, host1, heap1)
    requires (forall r | r in host2 :: r < base2) && Restored(f.objects, base2, host2, heap2)
    ensures var value := Decode(root, Built(|objects|, base1));
            && (Isomorphic(heap1, Refs(value), host2, heap2, Moved(ids, base1, base2)) <==> Ordered(f.objects))
            && Same(value, Decode(f.root, Built(|order|, base2)), Moved(ids, base1, base2))
  {
    InRangeIds(objects, root, f, ids, order);
    DecodeRenumber(root, |objects|, ids, |order|, base1, base2);
    DecodedRefs(root, |objects|, base1);
    FragmentReadable(objects, root, f, ids, order);
    ReadExactly(f.objects, base2, host2, heap2);
    var roots, psi := Shift(JsonRefs(root), base1), Moved(ids, base1, base2);
    assert roots <= psi.Keys;
    SameIs(Decode(root, Built(|objects|, base1)), Decode(f.root, Built(|order|, base2)), psi);
    if Ordered(f.objects) { GraphMoved(objects, root, f, ids, order, base1, host1, heap1, base2, host2, heap2); }
    if Isomorphic(heap1, roots, host2, heap2, psi) {
      MovedRebuilt(objects, root, f, ids, order, base1, host1, heap1, base2, host2, heap2);
    }
  }

  lemma MovedRebuilt(objects: seq<Node<Json>>, root: Json, f: Fragment, ids: map<nat, nat>, order: seq<nat>,
                     base1: Ref, host1: Heap, heap1: Heap, base2: Ref, host2: Heap, heap2: Heap)
    requires FragmentOf(objects, root, f, ids, order) && forall x | x in ids :: x < |objects|
    requires Rebuilt(objects, base1, host1, heap1) && Beside(|f.objects|, base2, host2, heap2)
    requires Isomorphic(heap1, Shift(JsonRefs(root), base1), host2, heap2, Moved(ids, base1, base2))
    ensures Rebuilt(f.objects, base2, host2, heap2)
  {
    AllRenamed(Shift(JsonRefs(root), base1), heap1, host2, heap2, Moved(ids, base1, base2));
    SlotsMoved(ids, order, base1, heap1, base2, heap2);
    FromSlots(objects, root, f, ids, order, base1, heap1, base2, heap2);
  }

  /** Slot `k` holds the object taken as number `k`, moved. */
  predicate SlotMoved(ids: map<nat, nat>, order: seq<nat>, base1: Ref, heap1: Heap, base2: Ref, heap2: Heap, k: nat) {
    && k < |order| && base1 + order[k] in heap1 && base2 + k in heap2
    && heap2[base2 + k] == Settled(RenameNode(heap1[base1 + order[k]], Moved(ids, base1, base2)))
  }

  predicate RenamedTo(heap1: Heap, heap2: Heap, psi: map<Ref, Ref>, r: Ref)
    requires r in psi
  {
    r in heap1 && psi[r] in heap2 && heap2[psi[r]] == Settled(RenameNode(heap1[r], psi))
  }

  lemma AllRenamed(roots: set<Ref>, heap1: Heap, host2: Heap, heap2: Heap, psi: map<Ref, Ref>)
    requires Isomorphic(heap1, roots, host2, heap2, psi)
    ensures forall r | r in psi :: RenamedTo(heap1, heap2, psi, r)
  {
    forall r | r in psi ensures RenamedTo(heap1, heap2, psi, r) {
      IsomorphicAt(heap1, roots, host2, heap2, psi, r);
    }
  }

  lemma SlotsMoved(ids: map<nat, nat>, order: seq<nat>, base1: Ref, heap1: Heap, base2: Ref, heap2: Heap)
    requires Numbers(ids, order)
    requires forall r | r in Moved(ids, base1, base2) :: RenamedTo(heap1, heap2, Moved(ids, base1, base2), r)
    ensures forall k | 0 <= k < |order| :: SlotMoved(ids, order, base1, heap1, base2, heap2, k)
  {
    forall k | 0 <= k < |order| ensures SlotMoved(ids, order, base1, heap1, base2, heap2, k) {
      MovedAt(order[k], ids, base1, base2);
      assert RenamedTo(heap1, heap2, Moved(ids, base1, base2), base1 + order[k]);
    }
  }

  lemma FromSlots(objects: seq<Node<Json>>, root: Json, f: Fragment, ids: map<nat, nat>, order: seq<nat>,
                  base1: Ref, heap1: Heap, base2: Ref, heap2: Heap)
    requires FragmentOf(objects, root, f, ids, order) && forall x | x in ids :: x < |objects|
    requires forall k | 0 <= k < |objects| :: RebuiltAt(objects, base1, heap1, k)
    requires forall k | 0 <= k < |order| :: SlotMoved(ids, order, base1, heap1, base2, heap2, k)
    ensures forall k | 0 <= k < |f.objects| :: RebuiltAt(f.objects, base2, heap2, k)
  {
    forall k | 0 <= k < |f.objects| ensures RebuiltAt(f.objects, base2, heap2, k) {
      assert FragmentAt(objects, f.objects, ids, order, k) && ids[order[k]] == k;
      assert RebuiltAt(objects, base1, heap1, order[k]) && SlotMoved(ids, order, base1, heap1, base2, heap2, k);
      MovedRebuiltAt(objects, f.objects, ids, order, base1, heap1, base2, heap2, k);
    }
  }

  lemma MovedRebuiltAt(objects: seq<Node<Json>>, taken: seq<Node<Json>>, ids: map<nat, nat>, order: seq<nat>,
                       base1: Ref, heap1: Heap, base2: Ref, heap2: Heap, k: nat)
    requires k < |order| == |taken| && Numbers(ids, order) && forall x | x in ids :: x < |objects|
    requires FragmentAt(objects, taken, ids, order, k) && RebuiltAt(objects, base1, heap1, order[k])
    requires base2 + k in heap2
    requires heap2[base2 + k] == Settled(RenameNode(heap1[base1 + order[k]], Moved(ids, base1, base2)))
    ensures RebuiltAt(taken, base2, heap2, k)
  {
    DecodeRenumberNode(objects[order[k]], |objects|, ids, order, base1, base2);
  }

  lemma InRangeIds(objects: seq<Node<Json>>, root: Json, f: Fragment, ids: map<nat, nat>, order: seq<nat>)
    requires FragmentOf(objects, root, f, ids, order)
    ensures forall k | k in ids :: k < |objects|
  {
    forall k | k in ids ensures k < |objects| { assert FragmentAt(objects, f.objects, ids, order, ids[k]); }
  }

  lemma MovedReached(objects: seq<Node<Json>>, root: Json, f: Fragment, ids: map<nat, nat>, order: seq<nat>,
                     base: Ref, heap: Heap, to: Ref, r: Ref)
    requires Readable(objects) && FragmentOf(objects, root, f, ids, order)
    requires forall k | 0 <= k < |objects| :: RebuiltAt(objects, base, heap, k)
    ensures r in Moved(ids, base, to) <==> Reachable(Edges(heap), Shift(JsonRefs(root), base), r)
  {
    if r in Moved(ids, base, to) { TakenReached(objects, root, f, ids, order, base, heap, r - base); }
    if Reachable(Edges(heap), Shift(JsonRefs(root), base), r) {
      ReachedTaken(objects, root, f, ids, order, base, heap, r);
    }
  }

  lemma MovedOneToOne(ids: map<nat, nat>, order: seq<nat>, from: Ref, to: Ref)
    requires Numbers(ids, order)
    ensures var psi := Moved(ids, from, to); forall r, s | r in psi && s in psi && psi[r] == psi[s] :: r == s
  {
    var psi := Moved(ids, from, to);
    forall r, s | r in psi && s in psi && psi[r] == psi[s] ensures r == s {
      assert order[ids[r - from]] == r - from && order[ids[s - from]] == s - from;
    }
  }

  lemma GraphMoved(objects: seq<Node<Json>>, root: Json, f: Fragment, ids: map<nat, nat>, order: seq<nat>,
                   base1: Ref, host1: Heap, heap1: Heap, base2: Ref, host2: Heap, heap2: Heap)
    requires Readable(objects) && FragmentOf(objects, root, f, ids, order)
    requires (forall r | r in host1 :: r < base1) && Rebuilt(objects, base1, host1, heap1)
    requires (forall r | r in host2 :: r < base2) && Rebuilt(f.objects, base2, host2, heap2)
    ensures Isomorphic(heap1, Shift(JsonRefs(root), base1), host2, heap2, Moved(ids, base1, base2))
  {
    var psi, roots := Moved(ids, base1, base2), Shift(JsonRefs(root), base1);
    InRangeIds(objects, root, f, ids, order);
    forall r | r in psi
      ensures r in heap1 && psi[r] in heap2 && psi[r] !in host2 && Carried(heap1[r], heap2[psi[r]], psi)
    {
      ObjectCarried(objects, root, f, ids, order, base1, host1, heap1, base2, host2, heap2, r - base1);
    }
    MovedOneToOne(ids, order, base1, base2);
    forall r: Ref {:trigger Reachable(Edges(heap1), roots, r)} ensures r in psi <==> Reachable(Edges(heap1), roots, r) {
      MovedReached(objects, root, f, ids, order, base1, heap1, base2, r);
    }
  }

  lemma ObjectCarried(objects: seq<Node<Json>>, root: Json, f: Fragment, ids: map<nat, nat>, order: seq<nat>,
                      base1: Ref, host1: Heap, heap1: Heap, base2: Ref, host2: Heap, heap2: Heap, k: nat)
    requires Readable(objects) && FragmentOf(objects, root, f, ids, order)
    requires k in ids && forall x | x in ids :: x < |objects|
    requires (forall r | r in host1 :: r < base1) && Rebuilt(objects, base1, host1, heap1)
    requires (forall r | r in host2 :: r < base2) && Rebuilt(f.objects, base2, host2, heap2)
    ensures base1 + k in heap1 && base2 + ids[k] in heap2 && base2 + ids[k] !in host2
    ensures Carried(heap1[base1 + k], heap2[base2 + ids[k]], Moved(ids, base1, base2))
  {
    ObjectThere(objects, root, f, ids, order, base1, host1, heap1, base2, host2, heap2, k);
    TakenEdges(objects, root, f, ids, order, base1, heap1, k);
    assert Shift(ids.Keys, base1) <= Moved(ids, base1, base2).Keys;
    CarriedIs(heap1[base1 + k], heap2[base2 + ids[k]], Moved(ids, base1, base2));
  }

  lemma ObjectThere(objects: seq<Node<Json>>, root: Json, f: Fragment, ids: map<nat, nat>, order: seq<nat>,
                    base1: Ref, host1: Heap, heap1: Heap, base2: Ref, host2: Heap, heap2: Heap, k: nat)
    requires FragmentOf(objects, root, f, ids, order) && k in ids && forall x | x in ids :: x < |objects|
    requires (forall r | r in host1 :: r < base1) && Rebuilt(objects, base1, host1, heap1)
    requires (forall r | r in host2 :: r < base2) && Rebuilt(f.objects, base2, host2, heap2)
    ensures ids[k] < |f.objects| && base1 + k in heap1 && base2 + ids[k] in heap2 && base2 + ids[k] !in host2
    ensures heap2[base2 + ids[k]] == Settled(RenameNode(heap1[base1 + k], Moved(ids, base1, base2)))
  {
    assert RebuiltAt(objects, base1, heap1, k) && RebuiltAt(f.objects, base2, heap2, ids[k]);
    ObjectMoved(objects, root, f, ids, order, base1, heap1, base2, heap2, k);
  }

  lemma ObjectMoved(objects: seq<Node<Json>>, root: Json, f: Fragment, ids: map<nat, nat>, order: seq<nat>,
                    base1: Ref, heap1: Heap, base2: Ref, heap2: Heap, k: nat)
    requires FragmentOf(objects, root, f, ids, order)
    requires k in ids && k < |objects| && forall x | x in ids :: x < |objects|
    requires RebuiltAt(objects, base1, heap1, k) && RebuiltAt(f.objects, base2, heap2, ids[k])
    ensures heap2[base2 + ids[k]] == Settled(RenameNode(heap1[base1 + k], Moved(ids, base1, base2)))
  {
    assert FragmentAt(objects, f.objects, ids, order, ids[k]);
    DecodeRenumberNode(objects[k], |objects|, ids, order, base1, base2);
  }

  /** `implant`. */
  method Implant(f: Fragment, host: Heap, base: Ref) returns (heap: Heap, value: Value)
    requires Readable(f.objects) && forall r | r in host :: r < base
    ensures Restored(f.objects, base, host, heap) && (Rebuilt(f.objects, base, host, heap) <==> Ordered(f.objects))
    ensures value == Decode(f.root, Built(|f.objects|, base))
  {
    var reader := new ImageReader(f.objects, host, base);
    reader.Read();
    ReadExactly(f.objects, base, host, reader.heap);
    heap, value := reader.heap, Decode(f.root, reader.values);
  }
}
