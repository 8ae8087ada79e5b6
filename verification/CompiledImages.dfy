/** How compiled code stands in the heap that is imaged: the link between what `compileFunc`
    makes (`packages/interpreter/src/compile.ts`) and what `snapshot` numbers. */
module CompiledImages {
  import F = ImageFormat
  import L = LispObjects
  import ImageRestore
  import LexicalCompiler

  /** The value is the code, object by object. A closure is one made at the top level. */
  predicate Holds(h: F.Heap, v: F.Value, x: L.Obj)
    decreases x
  {
    if x.Nil? then v.Nil?
    else if x.True? then v.True?
    else if x.Num? then v.BigInt? && v.n == x.n
    else if x.Str? then v.Str? && v.s == x.s
    else if x.Key? then v.Keyword? && v.name == x.k
    else if x.Sym? then v.Interned? && v.name == x.name
    else if x.Arg? then v.Arg? && v.level == x.level && v.offset == x.offset && v.sym == F.Interned(x.sym)
    else if x.Cell? then
      v.Obj? && v.ref in h && h[v.ref].Pair? && Holds(h, h[v.ref].car, x.car) && Holds(h, h[v.ref].cdr, x.cdr)
    else if x.Lambda? then HoldsFunc(h, v, F.IsLambda, x.carity, x.keys) && Holds(h, h[v.ref].body, x.body)
    else if x.Closure? then
      HoldsFunc(h, v, F.IsClosure, x.carity, x.keys) && x.env == [] && Holds(h, h[v.ref].body, x.body)
    else false
  }

  predicate HoldsFunc(h: F.Heap, v: F.Value, kind: F.Kind, carity: int, keys: seq<string>) {
    && v.Obj? && v.ref in h && h[v.ref].Func? && h[v.ref].env.Nil?
    && h[v.ref].kind == kind && h[v.ref].carity == carity && h[v.ref].keys == keys
  }

  lemma NestedHolds(h: F.Heap, list: L.Obj, code: L.Obj)
    requires ImageRestore.Nested(h)
    requires list == L.Cell(L.Arg(0, 0, "x"), L.Nil) && code == L.Lambda(1, list, [])
    ensures Holds(h, F.Obj(0), L.Closure(1, code, [], []))
  {
    assert Holds(h, F.Arg(0, 0, F.Interned("x")), list.car) && Holds(h, F.Nil, list.cdr);
    assert Holds(h, F.Obj(2), list);
    assert Holds(h, F.Obj(1), code);
  }

  /** The heap whose image loses its code holds the closure that `(lambda (s) lambda (x) x)` makes. */
  lemma NestedCompiles(h: F.Heap)
    requires ImageRestore.Nested(h)
    ensures var code := LexicalCompiler.CompileFunc(LexicalCompiler.LambdaInBody("s", "x"));
            code.Ok? && Holds(h, F.Obj(0), L.Closure(code.value.carity, code.value.body, code.value.keys, []))
  {
    var list := L.Cell(L.Arg(0, 0, "x"), L.Nil);
    NestedHolds(h, list, L.Lambda(1, list, []));
    NamesFree();
    LexicalCompiler.LambdaInBodyCompiles("s", "x");
  }

  lemma NamesFree()
    ensures "s" !in LexicalCompiler.RESERVED && "x" !in LexicalCompiler.RESERVED && "s" != "x"
  {
    assert |"s"| == |"x"| == 1;
  }
}
