/** The object graph of an interpreter and the JSON it is imaged as
    (`packages/interpreter/src/image.ts`). */
module ImageFormat {

  /** An object's identity. */
  type Ref = nat

  datatype Number = Finite(r: real) | NonFinite(name: string)

  /** A value held in a slot: an atom, or a reference to an object. An argument address
      carries its symbol, which may be an uninterned one and so an object. */
  datatype Value =
    | Nil
    | True
    | Str(s: string)
    | Undefined
    | BigInt(n: int)
    | Float(f: Number)
    | Interned(name: string)
    | Keyword(name: string)
    | Eof
    | Unspecified
    | Arg(level: nat, offset: nat, sym: Value)
    | Obj(ref: Ref)

  datatype Json =
    | JNull
    | JTrue
    | JStr(s: string)
    | JConst(c: string)
    | JBig(n: int)
    | JFloat(f: Number)
    | JSym(name: string)
    | JKey(name: string)
    | JArg(level: nat, offset: nat, sym: Json)
    | JRef(id: nat)

  datatype Kind = IsClosure | IsLambda | IsMacro

  /** An object whose slots hold `V`: values in a heap, JSON in an image. */
  datatype Node<V> =
    | Pair(car: V, cdr: V)
    | Vector(items: seq<V>)
    | Frame(slots: seq<V>)
    | Func(kind: Kind, carity: int, keys: seq<string>, body: V, env: V)
    | Symbol(name: string)
    | Fulfilled(outcome: V)
    | Rejected(reason: string)
    | Pending
    | Builtin(name: string)

  type Heap = map<Ref, Node<Value>>

  const INTERRUPTED := "interrupted by restore"

  function MapSeq<A, B>(f: A -> B, xs: seq<A>): (r: seq<B>)
    ensures |r| == |xs| && forall i | 0 <= i < |xs| :: r[i] == f(xs[i])
  {
    seq(|xs|, i requires 0 <= i < |xs| => f(xs[i]))
  }

  function MapNode<A, B>(f: A -> B, n: Node<A>): Node<B> {
    match n
    case Pair(a, d) => Pair(f(a), f(d))
    case Vector(items) => Vector(MapSeq(f, items))
    case Frame(slots) => Frame(MapSeq(f, slots))
    case Func(kind, carity, keys, body, env) => Func(kind, carity, keys, f(body), f(env))
    case Symbol(name) => Symbol(name)
    case Fulfilled(v) => Fulfilled(f(v))
    case Rejected(reason) => Rejected(reason)
    case Pending => Pending
    case Builtin(name) => Builtin(name)
  }

  /** The slots of an object, in the order they are written. */
  function Slots<V>(n: Node<V>): seq<V> {
    match n
    case Pair(a, d) => [a, d]
    case Vector(items) => items
    case Frame(slots) => slots
    case Func(_, _, _, body, env) => [body, env]
    case Fulfilled(v) => [v]
    case _ => []
  }

  function Refs(v: Value): set<Ref> {
    match v
    case Obj(r) => {r}
    case Arg(_, _, sym) => Refs(sym)
    case _ => {}
  }

  function AllRefs(vs: seq<Value>): set<Ref> {
    if vs == [] then {} else Refs(vs[0]) + AllRefs(vs[1..])
  }

  function JsonRefs(j: Json): set<nat> {
    match j
    case JRef(id) => {id}
    case JArg(_, _, sym) => JsonRefs(sym)
    case _ => {}
  }

  function AllJsonRefs(js: seq<Json>): set<nat> {
    if js == [] then {} else JsonRefs(js[0]) + AllJsonRefs(js[1..])
  }

  /** What imaging writes for a value, the objects numbered by `ids`. */
  function Encode(v: Value, ids: map<Ref, nat>): Json {
    match v
    case Nil => JNull
    case True => JTrue
    case Str(s) => JStr(s)
    case Undefined => JConst("undefined")
    case BigInt(n) => JBig(n)
    case Float(f) => JFloat(f)
    case Interned(name) => JSym(name)
    case Keyword(name) => JKey(name)
    case Eof => JConst("eof")
    case Unspecified => JConst("unspecified")
    case Arg(l, o, sym) => JArg(l, o, Encode(sym, ids))
    case Obj(r) => if r in ids then JRef(ids[r]) else JNull
  }

  /** What reading gives for JSON, the objects found in `slots`; an unbuilt slot reads as
      `undefined`, as an empty element of the reader's array does. */
  function Decode(j: Json, slots: seq<Value>): Value {
    match j
    case JNull => Nil
    case JTrue => True
    case JStr(s) => Str(s)
    case JConst(c) => if c == "eof" then Eof else if c == "unspecified" then Unspecified else Undefined
    case JBig(n) => BigInt(n)
    case JFloat(f) => Float(f)
    case JSym(name) => Interned(name)
    case JKey(name) => Keyword(name)
    case JArg(l, o, sym) => Arg(l, o, Decode(sym, slots))
    case JRef(id) => if id < |slots| then slots[id] else Undefined
  }

  /** A value with its references renamed. */
  function Rename(v: Value, phi: map<Ref, Ref>): Value {
    match v
    case Arg(l, o, sym) => Arg(l, o, Rename(sym, phi))
    case Obj(r) => if r in phi then Obj(phi[r]) else Undefined
    case _ => v
  }

  function Renumber(j: Json, ids: map<nat, nat>): Json {
    match j
    case JArg(l, o, sym) => JArg(l, o, Renumber(sym, ids))
    case JRef(id) => if id in ids then JRef(ids[id]) else JNull
    case _ => j
  }

  /** What restoring makes of an object: a promise still pending is interrupted. */
  function Settled(n: Node<Value>): Node<Value> {
    if n.Pending? then Rejected(INTERRUPTED) else n
  }

  /** Closed; and only a closure has an environment. */
  predicate WellFormed(h: Heap) {
    && (forall r | r in h :: AllRefs(Slots(h[r])) <= h.Keys)
    && (forall r | r in h && h[r].Func? && !h[r].kind.IsClosure? :: h[r].env.Nil?)
  }

  /** Code and environments are lists, as the source casts them to be. */
  predicate ListsIn(h: Heap) {
    forall r | r in h && h[r].Func? :: IsList(h, h[r].body) && IsList(h, h[r].env)
  }

  predicate IsList(h: Heap, v: Value) {
    v.Nil? || (v.Obj? && v.ref in h && h[v.ref].Pair?)
  }

  // ----- reachability -----

  /** A walk along slots from a root. */
  predicate Walk(g: map<nat, set<nat>>, roots: set<nat>, path: seq<nat>) {
    && path != [] && path[0] in roots
    && forall i | 0 <= i < |path| - 1 :: Linked(g, path, i)
  }

  predicate Linked(g: map<nat, set<nat>>, path: seq<nat>, i: nat)
    requires i < |path| - 1
  {
    path[i] in g && path[i + 1] in g[path[i]]
  }

  ghost predicate Reachable(g: map<nat, set<nat>>, roots: set<nat>, r: nat) {
    exists path :: Walk(g, roots, path) && path[|path| - 1] == r
  }

  function Edges(h: Heap): map<nat, set<nat>> {
    map r | r in h :: AllRefs(Slots(h[r]))
  }

  lemma RootReachable(g: map<nat, set<nat>>, roots: set<nat>, r: nat)
    requires r in roots
    ensures Reachable(g, roots, r)
  {
    assert Walk(g, roots, [r]);
    assert [r][|[r]| - 1] == r;
  }

  lemma StepReachable(g: map<nat, set<nat>>, roots: set<nat>, r: nat, s: nat)
    requires Reachable(g, roots, r) && r in g && s in g[r]
    ensures Reachable(g, roots, s)
  {
    var path :| Walk(g, roots, path) && path[|path| - 1] == r;
    var longer := path + [s];
    forall i | 0 <= i < |longer| - 1 ensures Linked(g, longer, i) {
      if i < |path| - 1 { assert Linked(g, path, i); }
    }
    assert Walk(g, roots, longer);
    assert longer[|longer| - 1] == s;
  }

  /** A set that holds the roots and is closed under the slots holds every reachable object. */
  lemma ClosedCovers(g: map<nat, set<nat>>, roots: set<nat>, s: set<nat>, r: nat)
    requires roots <= s && (forall x | x in s :: x in g && g[x] <= s)
    requires Reachable(g, roots, r)
    ensures r in s
  {
    var path :| Walk(g, roots, path) && path[|path| - 1] == r;
    WalkStays(g, roots, s, path, |path| - 1);
  }

  lemma {:induction false} WalkStays(g: map<nat, set<nat>>, roots: set<nat>, s: set<nat>, path: seq<nat>, i: nat)
    requires roots <= s && (forall x | x in s :: x in g && g[x] <= s)
    requires Walk(g, roots, path) && i < |path|
    ensures path[i] in s
  {
    if i > 0 {
      WalkStays(g, roots, s, path, i - 1);
      assert Linked(g, path, i - 1);
    }
  }

  // ----- composing the maps -----

  lemma {:induction false} InAllRefs(vs: seq<Value>, i: nat)
    requires i < |vs|
    ensures Refs(vs[i]) <= AllRefs(vs)
  {
    if i > 0 { InAllRefs(vs[1..], i - 1); }
  }

  lemma {:induction false} InAllJsonRefs(js: seq<Json>, i: nat)
    requires i < |js|
    ensures JsonRefs(js[i]) <= AllJsonRefs(js)
  {
    if i > 0 { InAllJsonRefs(js[1..], i - 1); }
  }

  lemma MapNodeMapNode<A, B, C>(f: A -> B, g: B -> C, k: A -> C, n: Node<A>)
    requires forall i | 0 <= i < |Slots(n)| :: g(f(Slots(n)[i])) == k(Slots(n)[i])
    ensures MapNode(g, MapNode(f, n)) == MapNode(k, n)
  {
    match n
    case Pair(a, d) => assert Slots(n)[0] == a && Slots(n)[1] == d;
    case Func(_, _, _, body, env) => assert Slots(n)[0] == body && Slots(n)[1] == env;
    case Fulfilled(v) => assert Slots(n)[0] == v;
    case Vector(items) =>
      assert Slots(n) == items;
      assert MapSeq(g, MapSeq(f, items)) == MapSeq(k, items);
    case Frame(slots) =>
      assert Slots(n) == slots;
      assert MapSeq(g, MapSeq(f, slots)) == MapSeq(k, slots);
    case _ =>
  }

  lemma MapNodeAgree<A, B>(f: A -> B, g: A -> B, n: Node<A>)
    requires forall i | 0 <= i < |Slots(n)| :: f(Slots(n)[i]) == g(Slots(n)[i])
    ensures MapNode(f, n) == MapNode(g, n)
  {
    match n
    case Pair(a, d) => assert Slots(n)[0] == a && Slots(n)[1] == d;
    case Func(_, _, _, body, env) => assert Slots(n)[0] == body && Slots(n)[1] == env;
    case Fulfilled(v) => assert Slots(n)[0] == v;
    case Vector(items) =>
      assert Slots(n) == items;
      assert MapSeq(f, items) == MapSeq(g, items);
    case Frame(slots) =>
      assert Slots(n) == slots;
      assert MapSeq(f, slots) == MapSeq(g, slots);
    case _ =>
  }

  lemma {:induction false} EncodeGrow(v: Value, ids: map<Ref, nat>, more: map<Ref, nat>)
    requires Refs(v) <= ids.Keys && forall r | r in ids :: r in more && more[r] == ids[r]
    ensures Encode(v, more) == Encode(v, ids)
  {
    if v.Arg? { EncodeGrow(v.sym, ids, more); }
  }

  lemma {:induction false} RenumberGrow(j: Json, ids: map<nat, nat>, more: map<nat, nat>)
    requires JsonRefs(j) <= ids.Keys && forall r | r in ids :: r in more && more[r] == ids[r]
    ensures Renumber(j, more) == Renumber(j, ids)
  {
    if j.JArg? { RenumberGrow(j.sym, ids, more); }
  }
}
