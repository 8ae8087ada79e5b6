/** `restore`: building the objects of an image in three passes, and the theorem that what is
    built is the imaged graph again (`packages/interpreter/src/image.ts`). */
module ImageRestore {
  import opened ImageFormat
  import opened ImageWriter

  /** The objects a first pass can build empty and a third pass can fill. */
  predicate Mutable<V>(n: Node<V>) {
    n.Pair? || n.Vector? || n.Frame? || n.Fulfilled? || n.Rejected? || n.Pending?
  }

  function DecodeNode(n: Node<Json>, slots: seq<Value>): Node<Value> {
    MapNode((j: Json) => Decode(j, slots), n)
  }

  /** Every slot built: the object of slot `k` has the fresh identity `base + k`. */
  function Built(n: nat, base: Ref): (r: seq<Value>)
    ensures |r| == n
  {
    seq(n, k requires 0 <= k < n => Obj(base + k))
  }

  /** Every reference is in range, and only a closure has an environment. */
  predicate Readable(objects: seq<Node<Json>>) {
    && (forall k | 0 <= k < |objects| :: RefsWithin(objects, k))
    && (forall k | 0 <= k < |objects| && objects[k].Func? && !objects[k].kind.IsClosure? :: objects[k].env.JNull?)
  }

  predicate RefsWithin(objects: seq<Node<Json>>, k: nat)
    requires k < |objects|
  {
    forall id | id in AllJsonRefs(Slots(objects[k])) :: id < |objects|
  }

  /** What object `k` finds in the slots when it is read: all of them in the third pass; in the
      second, the shells and the objects built before it, the others being unbuilt. */
  function Seen(objects: seq<Node<Json>>, base: Ref, k: nat): (r: seq<Value>)
    requires k < |objects|
    ensures |r| == |objects|
  {
    seq(|objects|, id requires 0 <= id < |objects| =>
      if Mutable(objects[k]) || Mutable(objects[id]) || id < k then Obj(base + id) else Undefined)
  }

  /** Every object that the second pass builds refers to shells and to objects before it. */
  predicate Ordered(objects: seq<Node<Json>>) {
    forall k | 0 <= k < |objects| && !Mutable(objects[k]) :: ReadsBuilt(objects, k)
  }

  predicate ReadsBuilt(objects: seq<Node<Json>>, k: nat)
    requires k < |objects|
  {
    forall id | id in AllJsonRefs(Slots(objects[k])) :: id < |objects| && (Mutable(objects[id]) || id < k)
  }

  /** So it is where functions refer to shells only. */
  predicate ShellsOnly(objects: seq<Node<Json>>) {
    forall k | 0 <= k < |objects| && !Mutable(objects[k]) :: OnlyShells(objects, k)
  }

  predicate OnlyShells(objects: seq<Node<Json>>, k: nat)
    requires k < |objects|
  {
    forall id | id in AllJsonRefs(Slots(objects[k])) :: id < |objects| && Mutable(objects[id])
  }

  lemma ShellsOrdered(objects: seq<Node<Json>>)
    requires ShellsOnly(objects)
    ensures Ordered(objects)
  {
    forall k | 0 <= k < |objects| && !Mutable(objects[k])
      ensures ReadsBuilt(objects, k)
    {
      assert OnlyShells(objects, k);
    }
  }

  /** Slot `k` holds what reading makes of it. */
  predicate RestoredAt(objects: seq<Node<Json>>, base: Ref, heap: Heap, k: nat)
    requires k < |objects|
  {
    base + k in heap && heap[base + k] == Settled(DecodeNode(objects[k], Seen(objects, base, k)))
  }

  /** Slot `k` holds the object the image describes, its references leading to the objects of the
      other slots. */
  predicate RebuiltAt(objects: seq<Node<Json>>, base: Ref, heap: Heap, k: nat)
    requires k < |objects|
  {
    base + k in heap && heap[base + k] == Settled(DecodeNode(objects[k], Built(|objects|, base)))
  }

  /** The host's objects are as they were, and nothing else is there but the image's. */
  predicate Beside(n: nat, base: Ref, host: Heap, heap: Heap) {
    && (forall r | r in host :: r in heap && heap[r] == host[r])
    && (forall r | r in heap :: r in host || base <= r < base + n)
  }

  /** What `read` leaves, whatever the image. */
  ghost predicate Restored(objects: seq<Node<Json>>, base: Ref, host: Heap, heap: Heap) {
    && Beside(|objects|, base, host, heap)
    && (forall k | 0 <= k < |objects| :: RestoredAt(objects, base, heap, k))
  }

  /** What it should leave. */
  ghost predicate Rebuilt(objects: seq<Node<Json>>, base: Ref, host: Heap, heap: Heap) {
    && Beside(|objects|, base, host, heap)
    && (forall k | 0 <= k < |objects| :: RebuiltAt(objects, base, heap, k))
  }

  class ImageReader {
    const objects: seq<Node<Json>>
    const base: Ref
    ghost const host: Heap
    var values: seq<Value>
    var heap: Heap

    constructor (objects: seq<Node<Json>>, host: Heap, base: Ref)
      requires forall r | r in host :: r < base
      ensures this.objects == objects && this.base == base && this.host == host && heap == host
      ensures |values| == |objects| && forall k | 0 <= k < |values| :: values[k] == Undefined
    {
      this.objects := objects;
      this.base := base;
      this.host := host;
      values := seq(|objects|, k => Undefined);
      heap := host;
    }

    /** The slots below `done` that hold their object, by kind; the others are unbuilt. */
    ghost predicate Shells(mutables: nat, immutables: nat)
      reads this
    {
      && |values| == |objects|
      && (forall k | 0 <= k < |objects| ::
            values[k] == if k < (if Mutable(objects[k]) then mutables else immutables) then Obj(base + k)
                         else Undefined)
      && (forall k | 0 <= k < |objects| && values[k].Obj? :: base + k in heap)
      && (forall r | r in host :: r < base && r in heap && heap[r] == host[r])
      && (forall r | r in heap :: r in host || base <= r < base + |objects|)
    }

    method Empty(n: Node<Json>) returns (shell: Node<Value>)
      requires Mutable(n)
    {
      match n
      case Pair(_, _) => shell := Pair(Nil, Nil);
      case Vector(_) => shell := Vector([]);
      case Frame(slots) => shell := Frame(seq(|slots|, i => Undefined));
      case _ => shell := Pending;
    }

    /** `read`, on any image: every slot is built, each object as it finds the others. */
    method Read()
      requires Readable(objects) && Shells(0, 0)
      modifies this
      ensures values == Built(|objects|, base)
      ensures Restored(objects, base, host, heap)
    {
      BuildMutable();
      BuildImmutable();
      Fill();
    }

    method BuildMutable()
      requires Shells(0, 0)
      modifies this
      ensures Shells(|objects|, 0)
    {
      var id := 0;
      while id < |objects|
        invariant 0 <= id <= |objects| && Shells(id, 0)
      {
        if Mutable(objects[id]) {
          var shell := Empty(objects[id]);
          values := values[id := Obj(base + id)];
          heap := heap[base + id := shell];
        }
        id := id + 1;
      }
    }

    /** The objects below `done` that the second pass has built. */
    ghost predicate Made(done: nat)
      reads this
    {
      forall k | 0 <= k < |objects| && k < done && !Mutable(objects[k]) :: RestoredAt(objects, base, heap, k)
    }

    method BuildImmutable()
      requires Readable(objects) && Shells(|objects|, 0)
      modifies this
      ensures Shells(|objects|, |objects|) && Made(|objects|)
    {
      var id := 0;
      while id < |objects|
        invariant 0 <= id <= |objects| && Shells(|objects|, id) && Made(id)
      {
        if values[id] == Undefined { BuildOne(id); }
        id := id + 1;
      }
    }

    method BuildOne(id: nat)
      requires Readable(objects) && id < |objects| && Shells(|objects|, id) && Made(id) && values[id] == Undefined
      modifies this
      ensures Shells(|objects|, id + 1) && Made(id + 1)
    {
      assert !Mutable(objects[id]);
      assert values == Seen(objects, base, id);
      var made := Immutable(id);
      ghost var before := heap;
      values := values[id := Obj(base + id)];
      heap := heap[base + id := made];
      assert RestoredAt(objects, base, heap, id);
      MadeStays(before, made, id);
    }

    /** Building one object leaves those built before it as they are. */
    lemma MadeStays(before: Heap, made: Node<Value>, id: nat)
      requires forall k | 0 <= k < |objects| && k < id && !Mutable(objects[k]) :: RestoredAt(objects, base, before, k)
      ensures forall k | 0 <= k < |objects| && k < id && !Mutable(objects[k]) ::
                RestoredAt(objects, base, before[base + id := made], k)
    {
    }

    method Immutable(id: nat) returns (made: Node<Value>)
      requires Readable(objects) && id < |objects| && !Mutable(objects[id])
      ensures made == Settled(DecodeNode(objects[id], values))
    {
      match objects[id]
      case Func(kind, carity, keys, body, env) =>
        var code := Decode(body, values);
        var scope := if kind.IsClosure? then Decode(env, values) else Nil;
        made := Func(kind, carity, keys, code, scope);
      case Symbol(name) => made := Symbol(name);
      case Builtin(name) => made := Builtin(name);
    }

    /** The objects that are as they should be once the slots below `done` are filled. */
    ghost predicate Filled(done: nat)
      reads this
    {
      forall k | 0 <= k < |objects| && (k < done || !Mutable(objects[k])) :: RestoredAt(objects, base, heap, k)
    }

    /** What stands in a slot that the third pass has filled. */
    ghost predicate Held(k: nat)
      requires k < |objects|
      reads this
    {
      && base + k in heap
      && heap[base + k] == if objects[k].Pending? then Rejected("interrupted by restore")
                           else DecodeNode(objects[k], Built(|objects|, base))
    }

    method Fill()
      requires Shells(|objects|, |objects|) && Made(|objects|)
      modifies this
      ensures Shells(|objects|, |objects|) && values == Built(|objects|, base) && Filled(|objects|)
      ensures forall k | 0 <= k < |objects| && Mutable(objects[k]) :: Held(k)
    {
      assert values == Built(|objects|, base);
      var id := 0;
      while id < |objects|
        invariant 0 <= id <= |objects| && Shells(|objects|, |objects|) && values == Built(|objects|, base) && Filled(id)
        invariant forall k | 0 <= k < id && Mutable(objects[k]) :: Held(k)
      {
        FillOne(id);
        id := id + 1;
      }
    }

    method FillOne(id: nat)
      requires id < |objects| && Shells(|objects|, |objects|) && values == Built(|objects|, base) && Filled(id)
      modifies this`heap
      ensures Shells(|objects|, |objects|) && Filled(id + 1)
      ensures Mutable(objects[id]) ==> Held(id)
      ensures forall r | r in old(heap) && r != base + id :: r in heap && heap[r] == old(heap[r])
    {
      if Mutable(objects[id]) {
        ghost var before := heap;
        assert Seen(objects, base, id) == values;
        var filled := if objects[id].Pending? then Rejected(INTERRUPTED) else DecodeNode(objects[id], values);
        heap := heap[base + id := filled];
        assert RestoredAt(objects, base, heap, id);
        forall k | 0 <= k < |objects| && k != id && RestoredAt(objects, base, before, k)
          ensures RestoredAt(objects, base, heap, k)
        {
          assert heap[base + k] == before[base + k];
        }
      }
    }
  }

  // ----- exactly which images are read right -----

  /** Reading JSON with some slots unbuilt gives what reading it with all of them built gives if
      and only if it refers to none that is unbuilt. */
  lemma {:induction false} DecodeSeen(j: Json, slots: seq<Value>, base: Ref)
    requires forall id | 0 <= id < |slots| :: slots[id] == Obj(base + id) || slots[id] == Undefined
    requires forall id | id in JsonRefs(j) :: id < |slots|
    ensures Decode(j, slots) == Decode(j, Built(|slots|, base))
       <==> forall id | id in JsonRefs(j) :: slots[id] == Obj(base + id)
  {
    match j
    case JArg(_, _, sym) =>
      assert JsonRefs(j) == JsonRefs(sym);
      DecodeSeen(sym, slots, base);
    case JRef(id) => assert id in JsonRefs(j);
    case _ =>
  }

  lemma NodeSeen(objects: seq<Node<Json>>, base: Ref, k: nat)
    requires Readable(objects) && k < |objects|
    ensures Settled(DecodeNode(objects[k], Seen(objects, base, k)))
         == Settled(DecodeNode(objects[k], Built(|objects|, base)))
       <==> Mutable(objects[k]) || ReadsBuilt(objects, k)
  {
    var slots := Seen(objects, base, k);
    assert RefsWithin(objects, k);
    if Mutable(objects[k]) {
      assert slots == Built(|objects|, base);
    } else if objects[k].Func? {
      var body, env := objects[k].body, objects[k].env;
      assert Slots(objects[k]) == [body, env];
      TwoJsonRefs(body, env);
      DecodeSeen(body, slots, base);
      DecodeSeen(env, slots, base);
    } else {
      assert Slots(objects[k]) == [];
    }
  }

  lemma TwoJsonRefs(a: Json, b: Json)
    ensures AllJsonRefs([a, b]) == JsonRefs(a) + JsonRefs(b)
  {
    assert [a, b][1..] == [b] && [b][1..] == [];
    assert AllJsonRefs([b]) == JsonRefs(b);
  }

  /** No slot that object `k` reads is unbuilt. */
  predicate SeesBuilt(objects: seq<Node<Json>>, base: Ref, k: nat)
    requires k < |objects|
  {
    forall id | id in AllJsonRefs(Slots(objects[k])) :: id < |objects| && Seen(objects, base, k)[id] != Undefined
  }

  lemma SeesReads(objects: seq<Node<Json>>, base: Ref, k: nat)
    requires Readable(objects) && k < |objects|
    ensures SeesBuilt(objects, base, k) <==> Mutable(objects[k]) || ReadsBuilt(objects, k)
  {
    var refs := AllJsonRefs(Slots(objects[k]));
    assert RefsWithin(objects, k);
    forall id | id in refs
      ensures Seen(objects, base, k)[id] != Undefined <==> Mutable(objects[k]) || Mutable(objects[id]) || id < k
    {
    }
  }

  /** The second pass reads no unbuilt slot, and what is left is what the image describes, if and
      only if the image is ordered. */
  lemma ReadExactly(objects: seq<Node<Json>>, base: Ref, host: Heap, heap: Heap)
    requires Readable(objects) && Restored(objects, base, host, heap)
    ensures Rebuilt(objects, base, host, heap) <==> Ordered(objects)
    ensures Ordered(objects) <==> forall k | 0 <= k < |objects| :: SeesBuilt(objects, base, k)
  {
    forall k | 0 <= k < |objects|
      ensures RestoredAt(objects, base, heap, k)
      ensures RebuiltAt(objects, base, heap, k) <==> Mutable(objects[k]) || ReadsBuilt(objects, k)
      ensures SeesBuilt(objects, base, k) <==> Mutable(objects[k]) || ReadsBuilt(objects, k)
    {
      NodeSeen(objects, base, k);
      SeesReads(objects, base, k);
    }
  }

  // ----- the theorem -----

  /** Where each imaged object is after restoring. */
  function Placed(ids: map<Ref, nat>, base: Ref): map<Ref, Ref> {
    map r | r in ids :: base + ids[r]
  }

  function RenameNode(n: Node<Value>, phi: map<Ref, Ref>): Node<Value> {
    MapNode((v: Value) => Rename(v, phi), n)
  }

  /** `w` is `v` with its references led along `phi`, and nothing else changed. */
  predicate Same(v: Value, w: Value, phi: map<Ref, Ref>) {
    if v.Obj? then v.ref in phi && w == Obj(phi[v.ref])
    else if v.Arg? then w.Arg? && w.level == v.level && w.offset == v.offset && Same(v.sym, w.sym, phi)
    else w == v
  }

  predicate SameAll(vs: seq<Value>, ws: seq<Value>, phi: map<Ref, Ref>) {
    |ws| == |vs| && forall i | 0 <= i < |vs| :: Same(vs[i], ws[i], phi)
  }

  /** `m` is the object `n`, slot by slot, settled promises with their values and reasons
      included; a pending promise has become one that was rejected as interrupted. */
  predicate Carried(n: Node<Value>, m: Node<Value>, phi: map<Ref, Ref>) {
    if n.Pair? then m.Pair? && Same(n.car, m.car, phi) && Same(n.cdr, m.cdr, phi)
    else if n.Vector? then m.Vector? && SameAll(n.items, m.items, phi)
    else if n.Frame? then m.Frame? && SameAll(n.slots, m.slots, phi)
    else if n.Func? then
      && m.Func? && m.kind == n.kind && m.carity == n.carity && m.keys == n.keys
      && Same(n.body, m.body, phi) && Same(n.env, m.env, phi)
    else if n.Fulfilled? then m.Fulfilled? && Same(n.outcome, m.outcome, phi)
    else if n.Pending? then m.Rejected? && m.reason == "interrupted by restore"
    else m == n
  }

  lemma {:induction false} SameIs(v: Value, w: Value, phi: map<Ref, Ref>)
    ensures Same(v, w, phi) <==> Refs(v) <= phi.Keys && w == Rename(v, phi)
  {
    if v.Arg? && w.Arg? { SameIs(v.sym, w.sym, phi); }
  }

  lemma {:induction false} RefsCovered(vs: seq<Value>, keys: set<Ref>)
    ensures AllRefs(vs) <= keys <==> forall i | 0 <= i < |vs| :: Refs(vs[i]) <= keys
  {
    if vs != [] {
      RefsCovered(vs[1..], keys);
      assert forall i | 1 <= i < |vs| :: vs[1..][i - 1] == vs[i];
    }
  }

  lemma CarriedIs(n: Node<Value>, m: Node<Value>, phi: map<Ref, Ref>)
    ensures Carried(n, m, phi) <==> AllRefs(Slots(n)) <= phi.Keys && m == Settled(RenameNode(n, phi))
  {
    RefsCovered(Slots(n), phi.Keys);
    forall v, w ensures Same(v, w, phi) <==> Refs(v) <= phi.Keys && w == Rename(v, phi) { SameIs(v, w, phi); }
    match n
    case Pair(a, d) => assert Slots(n)[0] == a && Slots(n)[1] == d;
    case Func(_, _, _, body, env) => assert Slots(n)[0] == body && Slots(n)[1] == env;
    case Fulfilled(v) => assert Slots(n)[0] == v;
    case Vector(items) => CarriedSeq(items, if m.Vector? then m.items else [], phi);
    case Frame(slots) => CarriedSeq(slots, if m.Frame? then m.slots else [], phi);
    case _ =>
  }

  lemma CarriedSeq(vs: seq<Value>, ws: seq<Value>, phi: map<Ref, Ref>)
    ensures SameAll(vs, ws, phi) <==>
            (forall i | 0 <= i < |vs| :: Refs(vs[i]) <= phi.Keys) && ws == MapSeq((v: Value) => Rename(v, phi), vs)
  {
    var f := (v: Value) => Rename(v, phi);
    forall i | 0 <= i < |vs| && i < |ws|
      ensures Same(vs[i], ws[i], phi) <==> Refs(vs[i]) <= phi.Keys && ws[i] == f(vs[i])
    {
      SameIs(vs[i], ws[i], phi);
    }
    if ws == MapSeq(f, vs) { assert forall i | 0 <= i < |vs| :: ws[i] == f(vs[i]); }
    if SameAll(vs, ws, phi) { assert forall i | 0 <= i < |vs| :: ws[i] == f(vs[i]); }
  }

  /** `phi` carries the objects of `h` reachable from the roots, one to one, onto objects of
      `h2` that the host did not have, slot by slot; only a pending promise is changed. */
  ghost predicate Isomorphic(h: Heap, roots: set<Ref>, host: Heap, h2: Heap, phi: map<Ref, Ref>) {
    && (forall r {:trigger Reachable(Edges(h), roots, r)} :: r in phi <==> Reachable(Edges(h), roots, r))
    && (forall r, s | r in phi && s in phi && phi[r] == phi[s] :: r == s)
    && (forall r | r in phi :: r in h && phi[r] in h2 && phi[r] !in host)
    && (forall r | r in phi :: Carried(h[r], h2[phi[r]], phi))
  }

  lemma {:induction false} DecodeEncode(v: Value, ids: map<Ref, nat>, order: seq<Ref>, base: Ref)
    requires Numbers(ids, order) && Refs(v) <= ids.Keys
    ensures Decode(Encode(v, ids), Built(|order|, base)) == Rename(v, Placed(ids, base))
  {
    if v.Arg? { DecodeEncode(v.sym, ids, order, base); }
  }

  lemma DecodeEncodeNode(n: Node<Value>, ids: map<Ref, nat>, order: seq<Ref>, base: Ref)
    requires Numbers(ids, order) && AllRefs(Slots(n)) <= ids.Keys
    ensures DecodeNode(EncodeNode(n, ids), Built(|order|, base)) == RenameNode(n, Placed(ids, base))
  {
    forall i | 0 <= i < |Slots(n)|
      ensures Decode(Encode(Slots(n)[i], ids), Built(|order|, base)) == Rename(Slots(n)[i], Placed(ids, base))
    {
      InAllRefs(Slots(n), i);
      DecodeEncode(Slots(n)[i], ids, order, base);
    }
    MapNodeMapNode((v: Value) => Encode(v, ids), (j: Json) => Decode(j, Built(|order|, base)),
                   (v: Value) => Rename(v, Placed(ids, base)), n);
  }

  /** The numbers of the objects of a set. */
  function Numbered(refs: set<nat>, ids: map<nat, nat>): set<nat> {
    set r | r in refs && r in ids :: ids[r]
  }

  lemma NumberedSum(a: set<nat>, b: set<nat>, ids: map<nat, nat>)
    ensures Numbered(a + b, ids) == Numbered(a, ids) + Numbered(b, ids)
  {
  }

  /** What is written for a value refers to the numbers of what the value refers to. */
  lemma {:induction false} EncodedRefs(v: Value, ids: map<Ref, nat>)
    ensures JsonRefs(Encode(v, ids)) == Numbered(Refs(v), ids)
  {
    if v.Arg? { EncodedRefs(v.sym, ids); }
  }

  lemma {:induction false} AllEncodedRefs(vs: seq<Value>, ids: map<Ref, nat>)
    ensures AllJsonRefs(EncodeAll(vs, ids)) == Numbered(AllRefs(vs), ids)
  {
    if vs != [] {
      EncodeAllCons(vs, ids);
      EncodedRefs(vs[0], ids);
      AllEncodedRefs(vs[1..], ids);
      NumberedSum(Refs(vs[0]), AllRefs(vs[1..]), ids);
    }
  }

  lemma NodeRefs(n: Node<Value>, ids: map<Ref, nat>)
    ensures AllJsonRefs(Slots(EncodeNode(n, ids))) == Numbered(AllRefs(Slots(n)), ids)
    ensures Mutable(EncodeNode(n, ids)) == Mutable(n)
  {
    EncodeWithSlots(n, ids);
    assert Slots(EncodeNode(n, ids)) == EncodeAll(Slots(n), ids);
    AllEncodedRefs(Slots(n), ids);
  }

  /** Whatever heap is imaged, the image can be read. */
  lemma ImageReadable(c: Contents, image: Image, ids: map<Ref, nat>, order: seq<Ref>)
    requires WellFormed(c.heap) && ImageOf(c, image, ids, order)
    ensures Readable(image.objects)
  {
    forall k | 0 <= k < |order| ensures RefsWithin(image.objects, k) {
      NodeRefs(c.heap[order[k]], ids);
    }
    forall k | 0 <= k < |order| && image.objects[k].Func? && !image.objects[k].kind.IsClosure?
      ensures image.objects[k].env.JNull?
    {
      FuncEncoded(c.heap[order[k]], ids);
    }
  }

  lemma FuncEncoded(n: Node<Value>, ids: map<Ref, nat>)
    requires EncodeNode(n, ids).Func?
    ensures n.Func? && Slots(n) == [n.body, n.env]
    ensures EncodeNode(n, ids) == Func(n.kind, n.carity, n.keys, Encode(n.body, ids), Encode(n.env, ids))
  {
  }

  /** Everything that the second pass builds refers to shells and to objects with lower numbers. */
  predicate HeapOrdered(h: Heap, ids: map<Ref, nat>) {
    forall r | r in ids && r in h && !Mutable(h[r]) :: RefersBack(h, ids, r)
  }

  predicate RefersBack(h: Heap, ids: map<Ref, nat>, r: Ref)
    requires r in ids && r in h
  {
    forall s | s in AllRefs(Slots(h[r])) :: s in h && s in ids && (Mutable(h[s]) || ids[s] < ids[r])
  }

  /** The order of an image in terms of the heap and of the numbers its objects get. */
  lemma OrderedExactly(c: Contents, image: Image, ids: map<Ref, nat>, order: seq<Ref>)
    requires ImageOf(c, image, ids, order)
    ensures Ordered(image.objects) <==> HeapOrdered(c.heap, ids)
  {
    forall k | 0 <= k < |order| && !Mutable(image.objects[k])
      ensures !Mutable(c.heap[order[k]]) && (ReadsBuilt(image.objects, k) <==> RefersBack(c.heap, ids, order[k]))
    {
      ReadsExactly(c, image, ids, order, k);
    }
    forall r | r in ids && !Mutable(c.heap[r]) ensures order[ids[r]] == r && !Mutable(image.objects[ids[r]]) {
      ReadsExactly(c, image, ids, order, ids[r]);
    }
  }

  lemma ReadsExactly(c: Contents, image: Image, ids: map<Ref, nat>, order: seq<Ref>, k: nat)
    requires ImageOf(c, image, ids, order) && k < |order|
    ensures Mutable(image.objects[k]) == Mutable(c.heap[order[k]])
    ensures ReadsBuilt(image.objects, k) <==> RefersBack(c.heap, ids, order[k])
  {
    var refs := AllRefs(Slots(c.heap[order[k]]));
    NodeRefs(c.heap[order[k]], ids);
    forall s | s in refs ensures s in ids && ids[s] in Numbered(refs, ids) && order[ids[s]] == s {}
    forall s | s in refs ensures Mutable(image.objects[ids[s]]) == Mutable(c.heap[s]) {
      NodeRefs(c.heap[order[ids[s]]], ids);
    }
  }

  /** Where code and environments are lists, whatever the numbering, the image is ordered. */
  lemma ListsOrdered(c: Contents, image: Image, ids: map<Ref, nat>, order: seq<Ref>)
    requires ListsIn(c.heap) && ImageOf(c, image, ids, order)
    ensures ShellsOnly(image.objects) && Ordered(image.objects)
  {
    forall k | 0 <= k < |order| && !Mutable(image.objects[k]) ensures OnlyShells(image.objects, k) {
      var n := c.heap[order[k]];
      if image.objects[k].Func? {
        FuncEncoded(n, ids);
        InAllRefs([n.body, n.env], 0);
        InAllRefs([n.body, n.env], 1);
        TwoJsonRefs(Encode(n.body, ids), Encode(n.env, ids));
        ListSlot(c, image, ids, order, n.body);
        ListSlot(c, image, ids, order, n.env);
      } else {
        assert Slots(image.objects[k]) == [];
      }
    }
    ShellsOrdered(image.objects);
  }

  lemma ListSlot(c: Contents, image: Image, ids: map<Ref, nat>, order: seq<Ref>, v: Value)
    requires ImageOf(c, image, ids, order) && IsList(c.heap, v) && Refs(v) <= ids.Keys
    ensures forall id | id in JsonRefs(Encode(v, ids)) :: id < |image.objects| && Mutable(image.objects[id])
  {
    if v.Obj? { assert order[ids[v.ref]] == v.ref; }
  }

  /** A function without its code. */
  predicate Codeless(heap: Heap, r: Ref) {
    r in heap && heap[r].Func? && heap[r].body == Undefined
  }

  /** A closure bound to a global whose code is a function not bound to one, as the closure of
      `(lambda (s) lambda (x) x)` is, has the lower number: the image is not ordered, and the
      restored closure has no code. */
  lemma CodeLost(c: Contents, image: Image, ids: map<Ref, nat>, order: seq<Ref>, base: Ref, heap: Heap, r: Ref, s: Ref)
    requires ImageOf(c, image, ids, order) && RootsFirst(c, ids)
    requires r in Roots(c) && s !in Roots(c) && s in c.heap && c.heap[s].Func?
    requires r in c.heap && c.heap[r].Func? && c.heap[r].kind.IsClosure? && c.heap[r].body == Obj(s)
    ensures r in ids && ids[r] < |image.objects| && !Ordered(image.objects)
    ensures RestoredAt(image.objects, base, heap, ids[r]) ==> Codeless(heap, base + ids[r])
  {
    LaterCode(c, image, ids, order, r, s);
    LateLost(image.objects, ids[r], ids[s], base, heap);
  }

  /** The closure has the lower number. */
  lemma LaterCode(c: Contents, image: Image, ids: map<Ref, nat>, order: seq<Ref>, r: Ref, s: Ref)
    requires ImageOf(c, image, ids, order) && RootsFirst(c, ids)
    requires r in Roots(c) && s !in Roots(c) && s in c.heap && c.heap[s].Func?
    requires r in c.heap && c.heap[r].Func? && c.heap[r].kind.IsClosure? && c.heap[r].body == Obj(s)
    ensures r in ids && s in ids && ids[r] < ids[s] < |image.objects| && CodeLater(image.objects, ids[r], ids[s])
  {
    assert order[ids[r]] == r;
    FuncSlots(c.heap[r]);
    TwoRefs(Obj(s), c.heap[r].env);
    assert s in ids && order[ids[s]] == s;
  }

  /** A closure whose code is a function with a higher number. */
  predicate CodeLater(objects: seq<Node<Json>>, k: nat, m: nat)
    requires k < m < |objects|
  {
    objects[m].Func? && objects[k].Func? && objects[k].kind.IsClosure? && objects[k].body == JRef(m)
  }

  lemma LateLost(objects: seq<Node<Json>>, k: nat, m: nat, base: Ref, heap: Heap)
    requires k < m < |objects| && CodeLater(objects, k, m)
    ensures !Ordered(objects)
    ensures RestoredAt(objects, base, heap, k) ==> Codeless(heap, base + k)
  {
    Unordered(objects, k, m);
    if RestoredAt(objects, base, heap, k) { LostAt(objects, k, m, base, heap); }
  }

  lemma Unordered(objects: seq<Node<Json>>, k: nat, m: nat)
    requires k < m < |objects| && CodeLater(objects, k, m)
    ensures !Ordered(objects)
  {
    TwoJsonRefs(JRef(m), objects[k].env);
    assert Slots(objects[k]) == [JRef(m), objects[k].env];
    assert !ReadsBuilt(objects, k);
  }

  lemma LostAt(objects: seq<Node<Json>>, k: nat, m: nat, base: Ref, heap: Heap)
    requires k < m < |objects| && CodeLater(objects, k, m) && RestoredAt(objects, base, heap, k)
    ensures Codeless(heap, base + k)
  {
    assert Seen(objects, base, k)[m] == Undefined;
    FuncDecoded(objects[k], Seen(objects, base, k));
  }

  lemma FuncSlots(n: Node<Value>)
    requires n.Func?
    ensures Slots(n) == [n.body, n.env]
  {
  }

  lemma TwoRefs(a: Value, b: Value)
    ensures AllRefs([a, b]) == Refs(a) + Refs(b)
  {
    assert [a, b][1..] == [b] && [b][1..] == [];
    assert AllRefs([b]) == Refs(b);
  }

  lemma FuncDecoded(n: Node<Json>, slots: seq<Value>)
    requires n.Func?
    ensures DecodeNode(n, slots) == Func(n.kind, n.carity, n.keys, Decode(n.body, slots), Decode(n.env, slots))
  {
  }

  /** The heap of that closure: the closure, the lambda that is its code, and that one's code. */
  predicate Nested(h: Heap) {
    && h.Keys == {0, 1, 2}
    && h[0] == Func(IsClosure, 1, [], Obj(1), Nil)
    && h[1] == Func(IsLambda, 1, [], Obj(2), Nil)
    && h[2] == Pair(Arg(0, 0, Interned("x")), Nil)
  }

  lemma NestedClosed(h: Heap)
    requires Nested(h)
    ensures WellFormed(h)
  {
    TwoRefs(Obj(1), Nil);
    TwoRefs(Obj(2), Nil);
    TwoRefs(Arg(0, 0, Interned("x")), Nil);
    assert Slots(h[0]) == [Obj(1), Nil] && Slots(h[1]) == [Obj(2), Nil];
    assert Slots(h[2]) == [Arg(0, 0, Interned("x")), Nil];
  }

  lemma NestedLambdaLost(c: Contents, image: Image, ids: map<Ref, nat>, order: seq<Ref>, base: Ref, host: Heap,
                         heap: Heap)
    requires Nested(c.heap) && c.globals == [(Interned("f"), Obj(0))] && c.sources == []
    requires ImageOf(c, image, ids, order) && RootsFirst(c, ids) && Restored(image.objects, base, host, heap)
    ensures WellFormed(c.heap) && !Ordered(image.objects)
    ensures 0 in ids && Codeless(heap, base + ids[0])
  {
    NestedClosed(c.heap);
    NestedRoots(c);
    CodeLost(c, image, ids, order, base, heap, 0, 1);
    assert RestoredAt(image.objects, base, heap, ids[0]);
  }

  lemma NestedRoots(c: Contents)
    requires c.globals == [(Interned("f"), Obj(0))] && c.sources == []
    ensures Roots(c) == {0}
  {
    assert c.globals[1..] == [] && GlobalValues(c.globals) == [Interned("f"), Obj(0)];
    assert RootValues(c) == [Interned("f"), Obj(0)];
    TwoRefs(Interned("f"), Obj(0));
  }

  /** Snapshot then restore: an isomorphism on the reachable graph, with its sharing and its
      cycles, if and only if the image is ordered; and, however that is, every global and source
      bound to the image of its value. */
  lemma SnapshotRestore(c: Contents, image: Image, ids: map<Ref, nat>, order: seq<Ref>, base: Ref, host: Heap,
                        heap: Heap)
    requires WellFormed(c.heap) && ImageOf(c, image, ids, order)
    requires (forall r | r in host :: r < base) && Restored(image.objects, base, host, heap)
    ensures Isomorphic(c.heap, Roots(c), host, heap, Placed(ids, base)) <==> Ordered(image.objects)
    ensures |image.globals| == |c.globals| && |image.sources| == |c.sources|
    ensures forall i | 0 <= i < |c.globals| ::
              && Same(c.globals[i].0, Decode(image.globals[i].0, Built(|order|, base)), Placed(ids, base))
              && Same(c.globals[i].1, Decode(image.globals[i].1, Built(|order|, base)), Placed(ids, base))
    ensures forall i | 0 <= i < |c.sources| ::
              && image.sources[i].0 == c.sources[i].0
              && Same(c.sources[i].1, Decode(image.sources[i].1, Built(|order|, base)), Placed(ids, base))
  {
    ImageReadable(c, image, ids, order);
    ReadExactly(image.objects, base, host, heap);
    RootsRestored(c, image, ids, order, base);
    if Ordered(image.objects) { GraphRestored(c, image, ids, order, base, host, heap); }
    if Isomorphic(c.heap, Roots(c), host, heap, Placed(ids, base)) {
      GraphRebuilt(c, image, ids, order, base, host, heap);
    }
  }

  lemma GraphRestored(c: Contents, image: Image, ids: map<Ref, nat>, order: seq<Ref>, base: Ref, host: Heap, heap: Heap)
    requires ImageOf(c, image, ids, order)
    requires (forall r | r in host :: r < base) && Rebuilt(image.objects, base, host, heap)
    ensures Isomorphic(c.heap, Roots(c), host, heap, Placed(ids, base))
  {
    var phi := Placed(ids, base);
    forall r | r in phi ensures phi[r] in heap && Carried(c.heap[r], heap[phi[r]], phi) {
      NodeRestored(c, image, ids, order, base, heap, r);
    }
    PlacedOneToOne(ids, order, base);
  }

  lemma GraphRebuilt(c: Contents, image: Image, ids: map<Ref, nat>, order: seq<Ref>, base: Ref, host: Heap, heap: Heap)
    requires ImageOf(c, image, ids, order) && Beside(|image.objects|, base, host, heap)
    requires Isomorphic(c.heap, Roots(c), host, heap, Placed(ids, base))
    ensures Rebuilt(image.objects, base, host, heap)
  {
    SlotsFromGraph(c.heap, Roots(c), ids, order, base, host, heap);
    SlotsRebuilt(c, image, ids, order, base, heap);
  }

  /** Slot `k` holds the object numbered `k`, renamed. */
  predicate SlotRenamed(h: Heap, ids: map<Ref, nat>, order: seq<Ref>, base: Ref, heap: Heap, k: nat) {
    && k < |order| && order[k] in h && base + k in heap
    && heap[base + k] == Settled(RenameNode(h[order[k]], Placed(ids, base)))
  }

  lemma SlotsFromGraph(h: Heap, roots: set<Ref>, ids: map<Ref, nat>, order: seq<Ref>, base: Ref, host: Heap, heap: Heap)
    requires Numbers(ids, order) && Isomorphic(h, roots, host, heap, Placed(ids, base))
    ensures forall k | 0 <= k < |order| :: SlotRenamed(h, ids, order, base, heap, k)
  {
    forall k | 0 <= k < |order| ensures SlotRenamed(h, ids, order, base, heap, k) {
      assert ids[order[k]] == k && Placed(ids, base)[order[k]] == base + k;
      IsomorphicAt(h, roots, host, heap, Placed(ids, base), order[k]);
    }
  }

  lemma SlotsRebuilt(c: Contents, image: Image, ids: map<Ref, nat>, order: seq<Ref>, base: Ref, heap: Heap)
    requires ImageOf(c, image, ids, order)
    requires forall k | 0 <= k < |order| :: SlotRenamed(c.heap, ids, order, base, heap, k)
    ensures forall k | 0 <= k < |image.objects| :: RebuiltAt(image.objects, base, heap, k)
  {
    forall k | 0 <= k < |image.objects| ensures RebuiltAt(image.objects, base, heap, k) {
      assert SlotRenamed(c.heap, ids, order, base, heap, k);
      DecodeEncodeNode(c.heap[order[k]], ids, order, base);
    }
  }

  lemma IsomorphicAt(h: Heap, roots: set<Ref>, host: Heap, h2: Heap, phi: map<Ref, Ref>, r: Ref)
    requires Isomorphic(h, roots, host, h2, phi) && r in phi
    ensures r in h && phi[r] in h2 && h2[phi[r]] == Settled(RenameNode(h[r], phi))
  {
    assert Carried(h[r], h2[phi[r]], phi);
    CarriedIs(h[r], h2[phi[r]], phi);
  }

  lemma NodeRestored(c: Contents, image: Image, ids: map<Ref, nat>, order: seq<Ref>, base: Ref, heap: Heap, r: Ref)
    requires ImageOf(c, image, ids, order) && r in ids && RebuiltAt(image.objects, base, heap, ids[r])
    ensures Carried(c.heap[r], heap[base + ids[r]], Placed(ids, base))
  {
    assert order[ids[r]] == r;
    DecodeEncodeNode(c.heap[r], ids, order, base);
    CarriedIs(c.heap[r], heap[base + ids[r]], Placed(ids, base));
  }

  lemma PlacedOneToOne(ids: map<Ref, nat>, order: seq<Ref>, base: Ref)
    requires Numbers(ids, order)
    ensures forall r, s | r in ids && s in ids && Placed(ids, base)[r] == Placed(ids, base)[s] :: r == s
  {
    forall r, s | r in ids && s in ids && Placed(ids, base)[r] == Placed(ids, base)[s] ensures r == s {
      assert order[ids[r]] == r && order[ids[s]] == s;
    }
  }

  lemma RootsRestored(c: Contents, image: Image, ids: map<Ref, nat>, order: seq<Ref>, base: Ref)
    requires ImageOf(c, image, ids, order)
    ensures |image.globals| == |c.globals| && |image.sources| == |c.sources|
    ensures forall i | 0 <= i < |c.globals| ::
              && Same(c.globals[i].0, Decode(image.globals[i].0, Built(|order|, base)), Placed(ids, base))
              && Same(c.globals[i].1, Decode(image.globals[i].1, Built(|order|, base)), Placed(ids, base))
    ensures forall i | 0 <= i < |c.sources| ::
              && image.sources[i].0 == c.sources[i].0
              && Same(c.sources[i].1, Decode(image.sources[i].1, Built(|order|, base)), Placed(ids, base))
  {
    RootCount(c);
    RootSplit(c);
    forall i | 0 <= i < |c.globals|
      ensures Same(c.globals[i].0, Decode(image.globals[i].0, Built(|order|, base)), Placed(ids, base))
      ensures Same(c.globals[i].1, Decode(image.globals[i].1, Built(|order|, base)), Placed(ids, base))
    {
      GlobalValueAt(c.globals, i);
      RootDecoded(c, ids, order, base, 2 * i);
      RootDecoded(c, ids, order, base, 2 * i + 1);
    }
    forall i | 0 <= i < |c.sources|
      ensures Same(c.sources[i].1, Decode(image.sources[i].1, Built(|order|, base)), Placed(ids, base))
    {
      RootDecoded(c, ids, order, base, 2 * |c.globals| + i);
    }
  }

  lemma RootDecoded(c: Contents, ids: map<Ref, nat>, order: seq<Ref>, base: Ref, i: nat)
    requires Numbers(ids, order) && Roots(c) <= ids.Keys && i < |RootValues(c)|
    ensures Same(RootValues(c)[i], Decode(Encode(RootValues(c)[i], ids), Built(|order|, base)), Placed(ids, base))
  {
    InAllRefs(RootValues(c), i);
    DecodeEncode(RootValues(c)[i], ids, order, base);
    SameIs(RootValues(c)[i], Decode(Encode(RootValues(c)[i], ids), Built(|order|, base)), Placed(ids, base));
  }

  /** Taking an image and restoring it into a host, end to end. */
  method SnapshotAndRestore(c: Contents, host: Heap, base: Ref)
      returns (heap: Heap, globals: seq<(Value, Value)>, image: Image, ghost phi: map<Ref, Ref>)
    requires WellFormed(c.heap) && Roots(c) <= c.heap.Keys && forall r | r in host :: r < base
    ensures Isomorphic(c.heap, Roots(c), host, heap, phi) <==> Ordered(image.objects)
    ensures ListsIn(c.heap) ==> Ordered(image.objects)
    ensures |globals| == |c.globals|
    ensures forall i | 0 <= i < |c.globals| ::
              Same(c.globals[i].0, globals[i].0, phi) && Same(c.globals[i].1, globals[i].1, phi)
    ensures forall r | r in host :: r in heap && heap[r] == host[r]
  {
    ghost var ids, order;
    image, ids, order := Snapshot(c);
    ImageReadable(c, image, ids, order);
    if ListsIn(c.heap) { ListsOrdered(c, image, ids, order); }
    var reader := new ImageReader(image.objects, host, base);
    reader.Read();
    heap := reader.heap;
    phi := Placed(ids, base);
    SnapshotRestore(c, image, ids, order, base, host, heap);
    var js := image.globals;
    var values := reader.values;
    globals := seq(|js|, i requires 0 <= i < |js| => (Decode(js[i].0, values), Decode(js[i].1, values)));
  }
}
