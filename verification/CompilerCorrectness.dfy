/** Compiling preserves meaning: running compiled code over the chain of frames gives what
    the named reference gives, step limit for step limit, and no address leaves the chain. */
module CompilerCorrectness {
  import opened Wrappers
  import opened LispObjects
  import opened Store
  import opened LexicalCompiler
  import opened FormExpander
  import Named = NamedEval
  import Run = AddressedEval

  // ----- from named values to compiled ones -----

  function Tables(scopes: seq<Scope>): seq<Table> {
    if scopes == [] then [] else [scopes[0].table] + Tables(scopes[1..])
  }

  function Chain(scopes: seq<Scope>): seq<nat> {
    if scopes == [] then [] else [scopes[0].frame] + Chain(scopes[1..])
  }

  /** A reference closure becomes the closure `compileFunc` would have made of it. */
  function T(v: Obj): Obj {
    match v
    case Cell(a, d) => Cell(T(a), T(d))
    case Scoped(ps, code, scopes) =>
      if ValidParams(ps)
      then Closure(Carity(ArgTable(ps).value), CodeList(code, [TableOf(ps)] + Tables(scopes)),
                   ArgTable(ps).value.keys, Chain(scopes))
      else Nil
    case _ => v
  }

  function TSeq(vs: seq<Obj>): (r: seq<Obj>)
    ensures |r| == |vs|
  {
    seq(|vs|, i requires 0 <= i < |vs| => T(vs[i]))
  }

  function TState(st: State): State {
    State(map s | s in st.globals :: T(st.globals[s]), st.sealed,
          seq(|st.frames|, i requires 0 <= i < |st.frames| => TSeq(st.frames[i])))
  }

  function TRes(r: Res<Obj>): Res<Obj> {
    match r
    case Done(v, st) => Done(T(v), TState(st))
    case Threw(e, st) => Threw(e, TState(st))
    case OutOfFuel => OutOfFuel
  }

  function TRess(r: Res<seq<Obj>>): Res<seq<Obj>> {
    match r
    case Done(vs, st) => Done(TSeq(vs), TState(st))
    case Threw(e, st) => Threw(e, TState(st))
    case OutOfFuel => OutOfFuel
  }

  /** What is run: the form as read at the top level, its compiled code inside a function. */
  function Target(e: Obj, scopes: seq<Scope>): Obj {
    if scopes == [] then e else Code(e, Tables(scopes))
  }

  function TargetList(e: Obj, scopes: seq<Scope>): Obj {
    if scopes == [] then e else CodeList(e, Tables(scopes))
  }

  function TargetClauses(e: Obj, scopes: seq<Scope>): Obj {
    if scopes == [] then e else CodeClauses(e, Tables(scopes))
  }

  function TargetSeq(es: seq<Obj>, scopes: seq<Scope>): (r: seq<Obj>)
    ensures |r| == |es|
  {
    if es == [] then [] else [Target(es[0], scopes)] + TargetSeq(es[1..], scopes)
  }

  /** What can be run: core code. At the top level a lambda is compiled when it is met, so
      there the passes must get its body right. */
  predicate Ready(e: Obj, scopes: seq<Scope>) {
    Core(e) && (scopes == [] ==> Fine(e, []))
  }

  predicate ReadyList(l: Obj, scopes: seq<Scope>) {
    CoreList(l) && (scopes == [] ==> FineList(l, []))
  }

  predicate ReadyClauses(l: Obj, scopes: seq<Scope>) {
    CoreClauses(l) && (scopes == [] ==> FineClauses(l, []))
  }

  // ----- what stays true of every value -----

  type Shape = seq<nat>

  function ShapeOf(st: State): Shape {
    seq(|st.frames|, i requires 0 <= i < |st.frames| => |st.frames[i]|)
  }

  predicate OkScope(sc: Scope, shape: Shape) {
    && sc.table.Keys !! RESERVED
    && sc.frame < |shape|
    && forall s | s in sc.table :: sc.table[s] < shape[sc.frame]
  }

  predicate OkScopes(scopes: seq<Scope>, shape: Shape) {
    forall i | 0 <= i < |scopes| :: OkScope(scopes[i], shape)
  }

  /** A value of the reference: its closures hold core code, and their scopes describe
      frames that are there and wide enough. */
  predicate OkVal(v: Obj, shape: Shape) {
    match v
    case Cell(a, d) => OkVal(a, shape) && OkVal(d, shape)
    case Scoped(ps, code, scopes) => ValidParams(ps) && CoreList(code) && OkScopes(scopes, shape)
    case Builtin(_, carity, keys) => |keys| <= FixedArgs(carity)
    case Arg(_, _, _) => false
    case Lambda(_, _, _) => false
    case Closure(_, _, _, _) => false
    case _ => true
  }

  predicate OkVals(vs: seq<Obj>, shape: Shape) {
    forall i | 0 <= i < |vs| :: OkVal(vs[i], shape)
  }

  predicate OkState(st: State) {
    && (forall s | s in st.globals :: OkVal(st.globals[s], ShapeOf(st)))
    && (forall i | 0 <= i < |st.frames| :: OkVals(st.frames[i], ShapeOf(st)))
  }

  /** A reason that the source has: no address left the chain of frames, and nothing was met that
      the model leaves out. */
  predicate OfSource(e: Fail) {
    e != BadAddress && e != NotModelled
  }

  predicate OkRes(r: Res<Obj>, shape: Shape) {
    match r
    case Done(v, st) => OkState(st) && shape <= ShapeOf(st) && OkVal(v, ShapeOf(st))
    case Threw(e, st) => OfSource(e) && OkState(st) && shape <= ShapeOf(st)
    case OutOfFuel => true
  }

  predicate OkRess(r: Res<seq<Obj>>, shape: Shape) {
    match r
    case Done(vs, st) => OkState(st) && shape <= ShapeOf(st) && OkVals(vs, ShapeOf(st))
    case Threw(e, st) => OfSource(e) && OkState(st) && shape <= ShapeOf(st)
    case OutOfFuel => true
  }

  /** Builtins neither look inside a closure nor invent one. */
  ghost predicate Parametric(prim: Prims) {
    forall name, frame, shape | OkVals(frame, shape) :: ParametricAt(prim, name, frame, shape)
  }

  predicate ParametricAt(prim: Prims, name: string, frame: seq<Obj>, shape: Shape) {
    match prim(name, frame)
    case Ok(v) => prim(name, TSeq(frame)) == Ok(T(v)) && OkVal(v, shape)
    case Err(e) => prim(name, TSeq(frame)) == Err(e) && OfSource(e)
  }

  // ----- small facts -----

  lemma {:induction false} Grow(v: Obj, shape: Shape, wider: Shape)
    requires OkVal(v, shape) && shape <= wider
    ensures OkVal(v, wider)
  {
    match v
    case Cell(a, d) => Grow(a, shape, wider); Grow(d, shape, wider);
    case Scoped(ps, code, scopes) =>
      assert forall i | 0 <= i < |scopes| :: OkScope(scopes[i], shape);
    case _ =>
  }

  lemma GrowAll(vs: seq<Obj>, shape: Shape, wider: Shape)
    requires OkVals(vs, shape) && shape <= wider
    ensures OkVals(vs, wider)
  {
    forall i | 0 <= i < |vs| ensures OkVal(vs[i], wider) { Grow(vs[i], shape, wider); }
  }

  lemma GrowScopes(scopes: seq<Scope>, shape: Shape, wider: Shape)
    requires OkScopes(scopes, shape) && shape <= wider
    ensures OkScopes(scopes, wider)
  {
    assert forall i | 0 <= i < |scopes| :: OkScope(scopes[i], shape);
  }

  lemma {:induction false} PlainOk(e: Obj, shape: Shape)
    requires Plain(e)
    ensures OkVal(e, shape) && T(e) == e
  {
    if e.Cell? { PlainOk(e.car, shape); PlainOk(e.cdr, shape); }
  }

  lemma {:induction false} TToList(vs: seq<Obj>, shape: Shape)
    requires OkVals(vs, shape)
    ensures T(ToList(vs)) == ToList(TSeq(vs)) && OkVal(ToList(vs), shape)
  {
    if vs != [] {
      TToList(vs[1..], shape);
      assert TSeq(vs)[1..] == TSeq(vs[1..]);
    }
  }

  lemma TablesFree(scopes: seq<Scope>, shape: Shape)
    requires OkScopes(scopes, shape)
    ensures NoSpecial(Tables(scopes)) && |Tables(scopes)| == |Chain(scopes)| == |scopes|
  {
    if scopes != [] {
      assert OkScope(scopes[0], shape);
      TablesFree(scopes[1..], shape);
    }
  }

  /** Where the reference finds a name is where its address leads. */
  lemma {:induction false} ResolveLookup(s: string, scopes: seq<Scope>, shape: Shape)
    requires OkScopes(scopes, shape)
    ensures match Named.Lookup(s, scopes)
            case None => Resolve(s, Tables(scopes)) == Sym(s)
            case Some((id, offset)) =>
              && var a := Resolve(s, Tables(scopes));
              && a.Arg? && a.level < |Chain(scopes)| && Chain(scopes)[a.level] == id && a.offset == offset
              && id < |shape| && offset < shape[id] && s !in RESERVED
  {
    if scopes != [] {
      OkTail(scopes, shape);
      assert Tables(scopes)[1..] == Tables(scopes[1..]);
      if s !in scopes[0].table {
        ResolveLookup(s, scopes[1..], shape);
        assert Chain(scopes)[1..] == Chain(scopes[1..]);
      }
    }
  }

  lemma OkTail(scopes: seq<Scope>, shape: Shape)
    requires OkScopes(scopes, shape) && scopes != []
    ensures OkScope(scopes[0], shape) && OkScopes(scopes[1..], shape)
  {
  }

  /** Reading and writing a slot that the shape has. */
  lemma Slots(id: nat, offset: nat, v: Obj, st: State)
    requires OkState(st) && id < |ShapeOf(st)| && offset < ShapeOf(st)[id] && OkVal(v, ShapeOf(st))
    ensures ReadSlot(id, offset, TState(st)) == TRes(ReadSlot(id, offset, st))
    ensures OkRes(ReadSlot(id, offset, st), ShapeOf(st))
    ensures WriteSlot(id, offset, T(v), TState(st)) == TRes(WriteSlot(id, offset, v, st))
    ensures OkRes(WriteSlot(id, offset, v, st), ShapeOf(st))
  {
    assert OkVals(st.frames[id], ShapeOf(st));
    var row := st.frames[id][offset := v];
    var st1 := st.(frames := st.frames[id := row]);
    assert ShapeOf(st1) == ShapeOf(st);
    assert TSeq(row) == TSeq(st.frames[id])[offset := T(v)];
    assert TState(st1).frames == TState(st).frames[id := TSeq(row)];
    forall i | 0 <= i < |st1.frames| ensures OkVals(st1.frames[i], ShapeOf(st1)) {
      assert OkVals(st.frames[i], ShapeOf(st));
    }
  }

  lemma ReadGlobal(s: string, st: State)
    requires OkState(st)
    ensures Global(s, TState(st)) == TRes(Global(s, st)) && OkRes(Global(s, st), ShapeOf(st))
  {
  }

  lemma WriteGlobal(s: string, v: Obj, st: State)
    requires OkState(st) && OkVal(v, ShapeOf(st))
    ensures SetGlobal(s, T(v), TState(st)) == TRes(SetGlobal(s, v, st)) && OkRes(SetGlobal(s, v, st), ShapeOf(st))
  {
    if s !in SPECIAL && s !in st.sealed {
      TGlobal(s, v, st);
      OkGlobal(s, v, st);
    }
  }

  lemma TGlobal(s: string, v: Obj, st: State)
    ensures TState(st.(globals := st.globals[s := v])) == TState(st).(globals := TState(st).globals[s := T(v)])
  {
    var st1 := st.(globals := st.globals[s := v]);
    assert TState(st1).globals == TState(st).globals[s := T(v)];
    assert TState(st1).frames == TState(st).frames;
  }

  lemma OkGlobal(s: string, v: Obj, st: State)
    requires OkState(st) && OkVal(v, ShapeOf(st))
    ensures var st1 := st.(globals := st.globals[s := v]); OkState(st1) && ShapeOf(st1) == ShapeOf(st)
  {
    var st1 := st.(globals := st.globals[s := v]);
    assert ShapeOf(st1) == ShapeOf(st);
    forall i | 0 <= i < |st1.frames| ensures OkVals(st1.frames[i], ShapeOf(st1)) {
      assert OkVals(st.frames[i], ShapeOf(st));
    }
  }

  lemma Push(frame: seq<Obj>, st: State)
    requires OkState(st) && OkVals(frame, ShapeOf(st))
    ensures PushFrame(TSeq(frame), TState(st)) == TState(PushFrame(frame, st))
    ensures ShapeOf(PushFrame(frame, st)) == ShapeOf(st) + [|frame|]
    ensures OkState(PushFrame(frame, st))
  {
    var st1 := PushFrame(frame, st);
    var wider := ShapeOf(st1);
    assert wider == ShapeOf(st) + [|frame|];
    assert TState(st1).frames == TState(st).frames + [TSeq(frame)];
    assert TState(st1).globals == TState(st).globals;
    forall s | s in st1.globals ensures OkVal(st1.globals[s], wider) { Grow(st.globals[s], ShapeOf(st), wider); }
    forall i | 0 <= i < |st1.frames| ensures OkVals(st1.frames[i], wider) {
      if i < |st.frames| { assert OkVals(st.frames[i], ShapeOf(st)); }
      GrowAll(st1.frames[i], ShapeOf(st), wider);
    }
  }

  // ----- lists of forms -----

  lemma {:induction false} TargetForm(e: Obj, scopes: seq<Scope>)
    requires e.Cell? && e.car != QUOTE && e.car != LAMBDA
    ensures e.car != COND ==> Target(e, scopes) == TargetList(e, scopes)
    ensures e.car == COND ==> Target(e, scopes) == Cell(Target(e.car, scopes), TargetClauses(e.cdr, scopes))
  {
  }

  lemma TargetClause(l: Obj, scopes: seq<Scope>)
    requires l.Cell?
    ensures TargetClauses(l, scopes)
         == Cell(if l.car.Cell? then TargetList(l.car, scopes) else Target(l.car, scopes), TargetClauses(l.cdr, scopes))
  {
  }

  lemma TargetCell(l: Obj, scopes: seq<Scope>)
    requires l.Cell?
    ensures TargetList(l, scopes) == Cell(Target(l.car, scopes), TargetList(l.cdr, scopes))
  {
  }

  lemma ReadyParts(l: Obj, scopes: seq<Scope>)
    requires l.Cell? && ReadyList(l, scopes)
    ensures Ready(l.car, scopes) && ReadyList(l.cdr, scopes) && (l.cdr.Cell? || l.cdr.Nil?)
  {
  }

  lemma ReadyForm(e: Obj, scopes: seq<Scope>)
    requires e.Cell? && e.car != QUOTE && e.car != LAMBDA && Ready(e, scopes)
    ensures e.car != COND ==> ReadyList(e, scopes)
    ensures e.car == COND ==> ReadyClauses(e.cdr, scopes)
    ensures e.car != QUASIQUOTE && e.car != MACRO && e.car != TRY
  {
  }

  lemma ReadyClause(l: Obj, scopes: seq<Scope>)
    requires l.Cell? && ReadyClauses(l, scopes)
    ensures ReadyClauses(l.cdr, scopes) && (l.cdr.Cell? || l.cdr.Nil?)
    ensures if l.car.Cell? then ReadyList(l.car, scopes) else Plain(l.car)
  {
  }

  predicate ReadySeq(es: seq<Obj>, scopes: seq<Scope>) {
    forall i | 0 <= i < |es| :: Ready(es[i], scopes)
  }

  lemma {:induction false} FixedTarget(arg: Obj, n: nat, scopes: seq<Scope>)
    requires ReadyList(arg, scopes)
    ensures match TakeFixed(arg, n)
            case Err(e) => TakeFixed(TargetList(arg, scopes), n) == Err(e) && e == ArityNotMatched
            case Ok(s) =>
              && ReadySeq(s.fixed, scopes) && ReadyList(s.rest, scopes)
              && TakeFixed(TargetList(arg, scopes), n)
                 == Ok(Supplied(TargetSeq(s.fixed, scopes), TargetList(s.rest, scopes)))
  {
    if n > 0 && arg.Cell? {
      ReadyParts(arg, scopes);
      TargetCell(arg, scopes);
      FixedTarget(arg.cdr, n - 1, scopes);
      if TakeFixed(arg, n).Ok? {
        var s := TakeFixed(arg.cdr, n - 1).value;
        assert ([arg.car] + s.fixed)[1..] == s.fixed;
      }
    }
  }

  lemma {:induction false} ProperTarget(arg: Obj, scopes: seq<Scope>)
    requires ReadyList(arg, scopes)
    ensures Proper(arg) && Proper(TargetList(arg, scopes))
  {
    if arg.Cell? {
      ReadyParts(arg, scopes);
      TargetCell(arg, scopes);
      ProperTarget(arg.cdr, scopes);
    }
  }

  lemma {:induction false} RestTarget(rest: Obj, scopes: seq<Scope>)
    requires ReadyList(rest, scopes)
    ensures RestArgs(rest).Ok? && ReadySeq(RestArgs(rest).value, scopes)
    ensures RestArgs(TargetList(rest, scopes)) == Ok(TargetSeq(RestArgs(rest).value, scopes))
  {
    if rest.Cell? {
      ReadyParts(rest, scopes);
      TargetCell(rest, scopes);
      RestTarget(rest.cdr, scopes);
      var xs := RestArgs(rest.cdr).value;
      assert ([rest.car] + xs)[1..] == xs;
    }
  }

  lemma FrameTarget(fixed: seq<Obj>, rest: seq<Obj>, carity: int, shape: Shape)
    requires OkVals(fixed, shape) && OkVals(rest, shape)
    ensures TSeq(Frame(fixed, rest, carity)) == Frame(TSeq(fixed), TSeq(rest), carity)
    ensures OkVals(Frame(fixed, rest, carity), shape)
  {
    TToList(rest, shape);
  }

  // ----- the theorem, one part of the evaluator at a time -----

  /** Compiler correctness: for every core form under any scopes, every state and every step
      limit, the compiled form gives the reference's result with closures compiled. */
  lemma {:induction false} Correct(e: Obj, scopes: seq<Scope>, st: State, n: nat, prim: Prims)
    requires Ready(e, scopes) && OkState(st) && OkScopes(scopes, ShapeOf(st)) && Parametric(prim)
    ensures OkRes(Named.Eval(e, scopes, st, n, prim), ShapeOf(st))
    ensures Run.Eval(Target(e, scopes), Chain(scopes), TState(st), n, prim)
         == TRes(Named.Eval(e, scopes, st, n, prim))
    decreases n, 0
  {
    if Compound(e) && n > 0 { CorrectCell(e, scopes, st, n - 1, prim); } else { CorrectSimple(e, scopes, st, n, prim); }
  }

  /** A form that takes a step to evaluate. */
  predicate Compound(e: Obj) {
    e.Cell? && e.car != QUOTE && e.car != LAMBDA
  }

  lemma CorrectSimple(e: Obj, scopes: seq<Scope>, st: State, n: nat, prim: Prims)
    requires Ready(e, scopes) && OkState(st) && OkScopes(scopes, ShapeOf(st)) && (Compound(e) ==> n == 0)
    ensures OkRes(Named.Eval(e, scopes, st, n, prim), ShapeOf(st))
    ensures Run.Eval(Target(e, scopes), Chain(scopes), TState(st), n, prim)
         == TRes(Named.Eval(e, scopes, st, n, prim))
  {
    if !e.Cell? {
      CorrectAtom(e, scopes, st, n, prim);
    } else if e.car == QUOTE {
      CorrectQuote(e, scopes, st, n, prim);
    } else if e.car == LAMBDA {
      CorrectLambda(e, scopes, st, n, prim);
    } else {
      CorrectStop(e, scopes, st, prim);
    }
  }

  lemma CorrectQuote(e: Obj, scopes: seq<Scope>, st: State, n: nat, prim: Prims)
    requires e.Cell? && e.car == QUOTE && Ready(e, scopes) && OkState(st)
    ensures OkRes(Named.Eval(e, scopes, st, n, prim), ShapeOf(st))
    ensures Run.Eval(Target(e, scopes), Chain(scopes), TState(st), n, prim)
         == TRes(Named.Eval(e, scopes, st, n, prim))
  {
    PlainOk(e, ShapeOf(st));
  }

  lemma CorrectStop(e: Obj, scopes: seq<Scope>, st: State, prim: Prims)
    requires e.Cell? && e.car != QUOTE && e.car != LAMBDA && Ready(e, scopes) && OkScopes(scopes, ShapeOf(st))
    ensures OkRes(Named.Eval(e, scopes, st, 0, prim), ShapeOf(st))
    ensures Run.Eval(Target(e, scopes), Chain(scopes), TState(st), 0, prim)
         == TRes(Named.Eval(e, scopes, st, 0, prim))
  {
    CorrectHeadSymbol(e, scopes, ShapeOf(st));
  }

  lemma {:induction false} CorrectCell(e: Obj, scopes: seq<Scope>, st: State, n: nat, prim: Prims)
    requires Compound(e)
    requires Ready(e, scopes) && OkState(st) && OkScopes(scopes, ShapeOf(st)) && Parametric(prim)
    ensures OkRes(Named.Eval(e, scopes, st, n + 1, prim), ShapeOf(st))
    ensures Run.Eval(Target(e, scopes), Chain(scopes), TState(st), n + 1, prim)
         == TRes(Named.Eval(e, scopes, st, n + 1, prim))
    decreases n, 5
  {
    CorrectHeadSymbol(e, scopes, ShapeOf(st));
    HeadDecides(e, Target(e, scopes), scopes, st, TState(st), n, prim);
    if e.car.Sym? && e.car.name in SPECIAL {
      CorrectSpecial(e, scopes, st, n, prim);
    } else {
      CorrectApplication(e, scopes, st, n, prim);
    }
  }

  /** A step goes to the special forms or to application by the head of the form. */
  lemma HeadDecides(e: Obj, c: Obj, scopes: seq<Scope>, st: State, tst: State, n: nat, prim: Prims)
    requires Compound(e) && c.Cell?
    requires if e.car.Sym? && e.car.name in SPECIAL then c.car == e.car else !(c.car.Sym? && c.car.name in SPECIAL)
    ensures if e.car.Sym? && e.car.name in SPECIAL
            then && Named.Eval(e, scopes, st, n + 1, prim) == Named.EvalSpecial(e, scopes, st, n, prim)
                 && Run.Eval(c, Chain(scopes), tst, n + 1, prim) == Run.EvalSpecial(c, Chain(scopes), tst, n, prim)
            else && Named.Eval(e, scopes, st, n + 1, prim) == Named.EvalApplication(e, scopes, st, n, prim)
                 && Run.Eval(c, Chain(scopes), tst, n + 1, prim) == Run.EvalApplication(c, Chain(scopes), tst, n, prim)
  {
    assert "quote" in SPECIAL && "lambda" in SPECIAL;
  }

  lemma CorrectAtom(e: Obj, scopes: seq<Scope>, st: State, n: nat, prim: Prims)
    requires !e.Cell? && Ready(e, scopes) && OkState(st) && OkScopes(scopes, ShapeOf(st))
    ensures OkRes(Named.Eval(e, scopes, st, n, prim), ShapeOf(st))
    ensures Run.Eval(Target(e, scopes), Chain(scopes), TState(st), n, prim)
         == TRes(Named.Eval(e, scopes, st, n, prim))
  {
    if e.Sym? {
      ResolveLookup(e.name, scopes, ShapeOf(st));
      match Named.Lookup(e.name, scopes)
      case None => ReadGlobal(e.name, st);
      case Some((id, offset)) => Slots(id, offset, Nil, st);
    }
  }

  lemma CorrectLambda(e: Obj, scopes: seq<Scope>, st: State, n: nat, prim: Prims)
    requires e.Cell? && e.car == LAMBDA && Ready(e, scopes) && OkState(st) && OkScopes(scopes, ShapeOf(st))
    ensures OkRes(Named.Eval(e, scopes, st, n, prim), ShapeOf(st))
    ensures Run.Eval(Target(e, scopes), Chain(scopes), TState(st), n, prim)
         == TRes(Named.Eval(e, scopes, st, n, prim))
  {
    Apart();
    LambdaMade(e, scopes, st);
    LambdaRun(e, scopes, st, n, prim);
  }

  /** The closure of a lambda, whatever its scopes. */
  lemma LambdaMade(e: Obj, scopes: seq<Scope>, st: State)
    requires e.Cell? && e.car == LAMBDA && Core(e) && OkState(st) && OkScopes(scopes, ShapeOf(st))
    ensures Named.EvalLambda(e, scopes, st) == Done(Scoped(e.cdr.car, e.cdr.cdr, scopes), st)
    ensures OkRes(Named.EvalLambda(e, scopes, st), ShapeOf(st))
    ensures T(Scoped(e.cdr.car, e.cdr.cdr, scopes))
         == Closure(Carity(ArgTable(e.cdr.car).value), CodeList(e.cdr.cdr, [TableOf(e.cdr.car)] + Tables(scopes)),
                    ArgTable(e.cdr.car).value.keys, Chain(scopes))
  {
  }

  lemma LambdaRun(e: Obj, scopes: seq<Scope>, st: State, n: nat, prim: Prims)
    requires e.Cell? && e.car == LAMBDA && e.car != QUOTE && Ready(e, scopes)
    ensures Run.Eval(Target(e, scopes), Chain(scopes), TState(st), n, prim)
         == Done(T(Scoped(e.cdr.car, e.cdr.cdr, scopes)), TState(st))
  {
    var ps, body := e.cdr.car, e.cdr.cdr;
    ValidTable(ps);
    if scopes == [] {
      CompileTopLevel(ps, body);
      AddressListNone(body);
      assert [TableOf(ps)] + [] == [TableOf(ps)];
      assert e.cdr == Cell(ps, body);
    } else {
      assert Target(e, scopes)
          == Lambda(Carity(ArgTable(ps).value), CodeList(body, [TableOf(ps)] + Tables(scopes)),
                    ArgTable(ps).value.keys);
    }
  }

  /** Only a symbol becomes a symbol or an address. */
  lemma TargetSymbol(e: Obj, scopes: seq<Scope>)
    requires Plain(e)
    ensures !e.Sym? ==> !Target(e, scopes).Sym? && !Target(e, scopes).Arg?
    ensures e.Sym? ==> Target(e, scopes) == e || Target(e, scopes).Arg?
  {
    if e.Sym? {
      ResolveShape(e.name, Tables(scopes));
    } else if e.Cell? {
      assert CodeList(e, Tables(scopes)).Cell?;
    }
  }

  /** The head of a form is a special-form symbol after addressing exactly when it was one. */
  lemma CorrectHeadSymbol(e: Obj, scopes: seq<Scope>, shape: Shape)
    requires e.Cell? && e.car != LAMBDA && e.car != QUOTE && Ready(e, scopes) && OkScopes(scopes, shape)
    ensures Target(e, scopes).Cell?
    ensures e.car.Sym? && e.car.name in SPECIAL ==> Target(e, scopes).car == e.car
    ensures !(e.car.Sym? && e.car.name in SPECIAL) ==>
              Target(e, scopes) == TargetList(e, scopes)
              && !(Target(e, scopes).car.Sym? && Target(e, scopes).car.name in SPECIAL)
  {
    TablesFree(scopes, shape);
    TargetForm(e, scopes);
    TargetCell(e, scopes);
    CorePlain(e);
    TargetSymbol(e.car, scopes);
    if e.car.Sym? && e.car.name in SPECIAL { ResolveFree(e.car.name, Tables(scopes)); }
  }

  lemma {:induction false} CorrectSpecial(e: Obj, scopes: seq<Scope>, st: State, n: nat, prim: Prims)
    requires e.Cell? && e.car != LAMBDA && e.car != QUOTE && e.car.Sym? && e.car.name in SPECIAL
    requires Ready(e, scopes) && OkState(st) && OkScopes(scopes, ShapeOf(st)) && Parametric(prim)
    requires Target(e, scopes).Cell? && Target(e, scopes).car == e.car
    ensures OkRes(Named.EvalSpecial(e, scopes, st, n, prim), ShapeOf(st))
    ensures Run.EvalSpecial(Target(e, scopes), Chain(scopes), TState(st), n, prim)
         == TRes(Named.EvalSpecial(e, scopes, st, n, prim))
    decreases n, 4
  {
    TargetForm(e, scopes);
    ReadyForm(e, scopes);
    if e.car == COND {
      CondArg(e.cdr, scopes);
      CorrectCond(e.cdr, scopes, st, n, prim);
    } else {
      SpecialHead(e.car);
      TargetCell(e, scopes);
      ReadyParts(e, scopes);
      CorrectNamed(e.car.name, e, scopes, st, n, prim);
    }
  }

  /** The two special forms whose arguments are forms. */
  lemma {:induction false} CorrectNamed(name: string, e: Obj, scopes: seq<Scope>, st: State, n: nat, prim: Prims)
    requires e.Cell? && e.car == Sym(name) && (name == "progn" || name == "setq")
    requires ReadyList(e.cdr, scopes) && OkState(st) && OkScopes(scopes, ShapeOf(st)) && Parametric(prim)
    ensures OkRes(Named.EvalSpecial(e, scopes, st, n, prim), ShapeOf(st))
    ensures Run.EvalSpecial(Cell(e.car, TargetList(e.cdr, scopes)), Chain(scopes), TState(st), n, prim)
         == TRes(Named.EvalSpecial(e, scopes, st, n, prim))
    decreases n, 3
  {
    ListArg(e.cdr, scopes);
    if name == "progn" {
      CorrectBody(e.cdr, scopes, st, n, prim);
    } else {
      CorrectSetq(e.cdr, Nil, scopes, st, n, prim);
    }
  }

  lemma SpecialHead(head: Obj)
    requires head.Sym? && head.name in SPECIAL && NoForm(head) && head != COND
    ensures head.name == "progn" || head.name == "setq"
  {
  }

  lemma ListArg(l: Obj, scopes: seq<Scope>)
    requires ReadyList(l, scopes)
    ensures TargetList(l, scopes).Cell? || TargetList(l, scopes).Nil?
    ensures l.Cell? || l.Nil?
  {
    if l.Cell? { TargetCell(l, scopes); }
  }

  lemma CondArg(l: Obj, scopes: seq<Scope>)
    requires ReadyClauses(l, scopes)
    ensures TargetClauses(l, scopes).Cell? || TargetClauses(l, scopes).Nil?
    ensures l.Cell? || l.Nil?
  {
    if l.Cell? { TargetClause(l, scopes); }
  }

  lemma {:induction false} CorrectHead(head: Obj, scopes: seq<Scope>, st: State, n: nat, prim: Prims)
    requires Ready(head, scopes) && OkState(st) && OkScopes(scopes, ShapeOf(st)) && Parametric(prim)
    ensures OkRes(Named.EvalHead(head, scopes, st, n, prim), ShapeOf(st))
    ensures Run.EvalHead(Target(head, scopes), Chain(scopes), TState(st), n, prim)
         == TRes(Named.EvalHead(head, scopes, st, n, prim))
    decreases n, 1
  {
    if head.Sym? {
      ResolveLookup(head.name, scopes, ShapeOf(st));
      match Named.Lookup(head.name, scopes)
      case None =>
      case Some((id, offset)) => Slots(id, offset, Nil, st);
    } else {
      CorePlain(head);
      TargetSymbol(head, scopes);
      Correct(head, scopes, st, n, prim);
    }
  }

  lemma {:induction false} CorrectApplication(e: Obj, scopes: seq<Scope>, st: State, n: nat, prim: Prims)
    requires e.Cell? && ReadyList(e, scopes) && OkState(st) && OkScopes(scopes, ShapeOf(st)) && Parametric(prim)
    ensures OkRes(Named.EvalApplication(e, scopes, st, n, prim), ShapeOf(st))
    ensures Run.EvalApplication(TargetList(e, scopes), Chain(scopes), TState(st), n, prim)
         == TRes(Named.EvalApplication(e, scopes, st, n, prim))
    decreases n, 4
  {
    TargetCell(e, scopes);
    ReadyParts(e, scopes);
    ListArg(e.cdr, scopes);
    CorrectHead(e.car, scopes, st, n, prim);
    match Named.EvalHead(e.car, scopes, st, n, prim)
    case Done(fn, st1) =>
      GrowScopes(scopes, ShapeOf(st), ShapeOf(st1));
      CorrectApply(fn, e.cdr, scopes, st1, n, prim);
    case _ =>
  }

  lemma {:induction false} CorrectApply(fn: Obj, arg: Obj, scopes: seq<Scope>, st: State, n: nat, prim: Prims)
    requires ReadyList(arg, scopes) && OkState(st) && OkScopes(scopes, ShapeOf(st)) && OkVal(fn, ShapeOf(st))
    requires Parametric(prim)
    ensures OkRes(Named.Apply(fn, arg, scopes, st, n, prim), ShapeOf(st))
    ensures Run.Apply(T(fn), TargetList(arg, scopes), Chain(scopes), TState(st), n, prim)
         == TRes(Named.Apply(fn, arg, scopes, st, n, prim))
    decreases n, 3
  {
    match fn
    case Builtin(name, carity, keys) => CorrectBuiltin(name, carity, keys, arg, scopes, st, n, prim);
    case Scoped(ps, code, outer) => CorrectCall(ps, code, outer, arg, scopes, st, n, prim);
    case _ =>
  }

  lemma {:induction false} CorrectBuiltin(name: string, carity: int, keys: seq<string>, arg: Obj, scopes: seq<Scope>,
                                          st: State, n: nat, prim: Prims)
    requires |keys| <= FixedArgs(carity) && ReadyList(arg, scopes)
    requires OkState(st) && OkScopes(scopes, ShapeOf(st)) && Parametric(prim)
    ensures var fn := Builtin(name, carity, keys);
            var r := Named.Apply(fn, arg, scopes, st, n, prim);
            && OkRes(r, ShapeOf(st))
            && Run.Apply(fn, TargetList(arg, scopes), Chain(scopes), TState(st), n, prim) == TRes(r)
    decreases n, 2, 2
  {
    CorrectArgs(arg, carity, keys, scopes, st, n, prim);
    BuiltinCalled(Named.EvalArgs(arg, carity, keys, scopes, st, n, prim), name, carity, keys, ShapeOf(st), n, prim);
  }

  lemma BuiltinCalled(args: Res<seq<Obj>>, name: string, carity: int, keys: seq<string>, shape: Shape, n: nat,
                      prim: Prims)
    requires OkRess(args, shape) && Parametric(prim)
    ensures var r := Named.Call(args, name, prim);
            OkRes(r, shape) && Run.Enter(TRess(args), Builtin(name, carity, keys), n, prim) == TRes(r)
  {
    match args
    case Done(frame, st) => assert ParametricAt(prim, name, frame, ShapeOf(st));
    case _ =>
  }

  lemma {:induction false} CorrectCall(ps: Obj, code: Obj, outer: seq<Scope>, arg: Obj, scopes: seq<Scope>, st: State,
                                       n: nat, prim: Prims)
    requires ReadyList(arg, scopes) && OkState(st) && OkScopes(scopes, ShapeOf(st)) && Parametric(prim)
    requires OkVal(Scoped(ps, code, outer), ShapeOf(st))
    ensures var r := Named.Apply(Scoped(ps, code, outer), arg, scopes, st, n, prim);
            && OkRes(r, ShapeOf(st))
            && Run.Apply(T(Scoped(ps, code, outer)), TargetList(arg, scopes), Chain(scopes), TState(st), n, prim)
               == TRes(r)
    decreases n, 2, 2
  {
    var a := ArgTable(ps).value;
    OffsetsBound(ps);
    CorrectArgs(arg, Carity(a), a.keys, scopes, st, n, prim);
    CorrectCalled(Named.EvalArgs(arg, Carity(a), a.keys, scopes, st, n, prim), ps, code, outer, ShapeOf(st), n, prim);
  }

  lemma {:induction false} CorrectCalled(args: Res<seq<Obj>>, ps: Obj, code: Obj, outer: seq<Scope>, shape: Shape,
                                         n: nat, prim: Prims)
    requires OkRess(args, shape) && OkVal(Scoped(ps, code, outer), shape) && Parametric(prim)
    requires args.Done? ==> |args.v| == ArgTable(ps).value.arity
    ensures var r := Named.Enter(args, TableOf(ps), code, outer, n, prim);
            OkRes(r, shape) && Run.Enter(TRess(args), T(Scoped(ps, code, outer)), n, prim) == TRes(r)
    decreases n, 2, 1
  {
    match args
    case Done(frame, st) => CorrectEnter(ps, code, outer, frame, st, n, prim);
    case _ =>
  }

  /** Entering a lambda: one scope, one table and one frame more on each side. */
  lemma {:induction false} CorrectEnter(ps: Obj, code: Obj, outer: seq<Scope>, frame: seq<Obj>, st: State, n: nat,
                                        prim: Prims)
    requires ValidParams(ps) && CoreList(code) && Parametric(prim)
    requires OkState(st) && OkVals(frame, ShapeOf(st)) && |frame| == ArgTable(ps).value.arity
    requires exists shape :: shape <= ShapeOf(st) && OkScopes(outer, shape)
    ensures var inner := [Scope(TableOf(ps), |st.frames|)] + outer;
            var r := Named.EvalBody(code, inner, PushFrame(frame, st), n, prim);
            && OkRes(r, ShapeOf(st))
            && Run.EvalBody(CodeList(code, [TableOf(ps)] + Tables(outer)), [|st.frames|] + Chain(outer),
                            PushFrame(TSeq(frame), TState(st)), n, prim) == TRes(r)
    decreases n, 2, 0
  {
    var inner := [Scope(TableOf(ps), |st.frames|)] + outer;
    var st1 := PushFrame(frame, st);
    Push(frame, st);
    ValidTable(ps);
    OffsetsBound(ps);
    var shape :| shape <= ShapeOf(st) && OkScopes(outer, shape);
    GrowScopes(outer, shape, ShapeOf(st1));
    assert OkScope(inner[0], ShapeOf(st1));
    assert OkScopes(inner, ShapeOf(st1)) by {
      forall i | 0 <= i < |inner| ensures OkScope(inner[i], ShapeOf(st1)) {
        if i > 0 { assert OkScope(outer[i - 1], ShapeOf(st1)); }
      }
    }
    assert inner[1..] == outer;
    CorrectBody(code, inner, st1, n, prim);
  }

  lemma OffsetsBound(ps: Obj)
    requires ValidParams(ps)
    ensures var a := ArgTable(ps).value; forall s | s in a.table :: a.table[s] < a.arity
    ensures ArgTable(ps).value.hasRest ==> ArgTable(ps).value.arity > 0
    ensures |ArgTable(ps).value.keys| <= FixedArgs(Carity(ArgTable(ps).value))
  {
    if ps.Cell? { OffsetsFrom(ps, NO_ARGS); }
  }

  predicate Bounded(a: Args) {
    && (forall s | s in a.table :: a.table[s] < a.arity) && (a.hasRest ==> a.arity > 0 && !a.keyed)
    && |a.keys| <= a.arity && (!a.keyed ==> a.keys == [])
  }

  lemma {:induction false} OffsetsFrom(ps: Obj, a: Args)
    requires Bounded(a)
    ensures ScanParams(ps, a).Ok? ==> Bounded(ScanParams(ps, a).value)
  {
    if ps.Cell? {
      if ps.car == REST && ps.cdr.Cell? {
        forall b | Bounded(b) { OffsetsFrom(ps.cdr.cdr, b); }
      } else {
        forall b | Bounded(b) { OffsetsFrom(ps.cdr, b); }
      }
    }
  }

  lemma {:induction false} CorrectArgs(arg: Obj, carity: int, keys: seq<string>, scopes: seq<Scope>, st: State, n: nat,
                                       prim: Prims)
    requires |keys| <= FixedArgs(carity) && ReadyList(arg, scopes)
    requires OkState(st) && OkScopes(scopes, ShapeOf(st)) && Parametric(prim)
    ensures var r := Named.EvalArgs(arg, carity, keys, scopes, st, n, prim);
            && OkRess(r, ShapeOf(st))
            && (r.Done? ==> |r.v| == FixedArgs(carity) + (if HasRest(carity) then 1 else 0))
            && Run.EvalArgs(TargetList(arg, scopes), carity, keys, Chain(scopes), TState(st), n, prim) == TRess(r)
    decreases n, 2, 1
  {
    FrameMade(arg, carity, keys, scopes);
    if MakeFrame(arg, carity, keys).Ok? {
      var s := MakeFrame(arg, carity, keys).value;
      CorrectAll(s.fixed, scopes, st, n, prim);
      CorrectRest(Named.EvalAll(s.fixed, scopes, st, n, prim), s.rest, carity, scopes, ShapeOf(st), n, prim);
    }
  }

  /** The arguments are put in the slots of the frame before and after addressing alike. */
  lemma {:induction false} FrameMade(arg: Obj, carity: int, keys: seq<string>, scopes: seq<Scope>)
    requires |keys| <= FixedArgs(carity) && ReadyList(arg, scopes)
    ensures match MakeFrame(arg, carity, keys)
            case Err(e) => MakeFrame(TargetList(arg, scopes), carity, keys) == Err(e) && OfSource(e)
            case Ok(s) =>
              && ReadySeq(s.fixed, scopes) && ReadyList(s.rest, scopes) && |s.fixed| == FixedArgs(carity)
              && MakeFrame(TargetList(arg, scopes), carity, keys)
                 == Ok(Supplied(TargetSeq(s.fixed, scopes), TargetList(s.rest, scopes)))
  {
    ProperTarget(arg, scopes);
    if keys == [] {
      FixedTarget(arg, FixedArgs(carity), scopes);
      FixedLength(arg, FixedArgs(carity));
      var s := TakeFixed(arg, FixedArgs(carity));
      if s.Ok? { ListArg(s.value.rest, scopes); RestShape(s.value.rest, scopes); }
    } else {
      KeyedTarget(arg, FixedArgs(carity), keys, scopes);
    }
  }

  lemma RestShape(rest: Obj, scopes: seq<Scope>)
    requires ReadyList(rest, scopes)
    ensures TargetList(rest, scopes).Nil? <==> rest.Nil?
  {
    if rest.Cell? { TargetCell(rest, scopes); }
  }

  // ----- keywords -----

  /** Addressing makes no keyword and takes none away. */
  lemma TargetKey(e: Obj, scopes: seq<Scope>)
    requires Ready(e, scopes)
    ensures Target(e, scopes).Key? <==> e.Key?
    ensures e.Key? ==> Target(e, scopes) == e
  {
    CorePlain(e);
    TargetSymbol(e, scopes);
    if e.Cell? && scopes != [] { CodeNoKey(e, Tables(scopes)); }
  }

  lemma CodeNoKey(e: Obj, ts: seq<Table>)
    requires e.Cell?
    ensures !Code(e, ts).Key?
  {
    assert CodeList(e, ts).Cell?;
  }

  lemma {:induction false} TargetSeqSet(es: seq<Obj>, scopes: seq<Scope>, i: nat, e: Obj)
    requires i < |es|
    ensures TargetSeq(es[i := e], scopes) == TargetSeq(es, scopes)[i := Target(e, scopes)]
    decreases |es|
  {
    if i > 0 {
      TargetSeqSet(es[1..], scopes, i - 1, e);
      assert es[i := e][1..] == es[1..][i - 1 := e];
    } else {
      assert es[i := e][1..] == es[1..];
    }
  }

  lemma {:induction false} TargetPadded(es: seq<Obj>, n: nat, scopes: seq<Scope>)
    ensures TargetSeq(es + Nils(n), scopes) == TargetSeq(es, scopes) + Nils(n)
    decreases |es|, n
  {
    if es != [] {
      TargetPadded(es[1..], n, scopes);
      assert (es + Nils(n))[1..] == es[1..] + Nils(n);
    } else if n > 0 {
      TargetPadded([], n - 1, scopes);
      assert es + Nils(n) == Nils(n) && Nils(n)[1..] == [] + Nils(n - 1) && TargetSeq([], scopes) == [];
    }
  }

  /** The same slots, addressed, or the same refusal. */
  predicate SameSlots(r: Result<seq<Obj>>, q: Result<seq<Obj>>, scopes: seq<Scope>) {
    match r
    case Ok(slots) => ReadySeq(slots, scopes) && q == Ok(TargetSeq(slots, scopes))
    case Err(e) => q == Err(e) && OfSource(e)
  }

  lemma KeyedTarget(arg: Obj, total: nat, keys: seq<string>, scopes: seq<Scope>)
    requires ReadyList(arg, scopes) && |keys| <= total
    ensures SameSlots(KeyedFrame(arg, total, keys), KeyedFrame(TargetList(arg, scopes), total, keys), scopes)
  {
    ProperTarget(arg, scopes);
    UnkeyedTarget(arg, total, scopes);
    AfterTarget(TakeUnkeyed(arg, total).value, total, keys, scopes);
  }

  lemma AfterTarget(s: Supplied, total: nat, keys: seq<string>, scopes: seq<Scope>)
    requires ReadySeq(s.fixed, scopes) && ReadyList(s.rest, scopes) && |keys| <= total && |s.fixed| <= total
    ensures var t := Supplied(TargetSeq(s.fixed, scopes), TargetList(s.rest, scopes));
            SameSlots(KeyedAfter(s, true, total, keys), KeyedAfter(t, true, total, keys), scopes)
  {
    ShortTarget(s, total - |keys|, scopes);
    if !Short(s, total - |keys|) {
      var t := Supplied(TargetSeq(s.fixed, scopes), TargetList(s.rest, scopes));
      var required, padded, taken := total - |keys|, Padded(s.fixed, total), Below(|s.fixed|);
      PaddedTarget(s.fixed, total, scopes);
      assert KeyedAfter(s, true, total, keys) == FillKeyed(s.rest, required, keys, padded, taken);
      assert KeyedAfter(t, true, total, keys) == FillKeyed(t.rest, required, keys, TargetSeq(padded, scopes), taken);
      FilledTarget(s.rest, required, keys, padded, taken, scopes);
    }
  }

  lemma PaddedTarget(es: seq<Obj>, total: nat, scopes: seq<Scope>)
    requires |es| <= total && ReadySeq(es, scopes)
    ensures ReadySeq(Padded(es, total), scopes)
    ensures Padded(TargetSeq(es, scopes), total) == TargetSeq(Padded(es, total), scopes)
  {
    TargetPadded(es, total - |es|, scopes);
    assert Ready(Nil, scopes);
  }

  lemma ShortTarget(s: Supplied, required: nat, scopes: seq<Scope>)
    requires ReadyList(s.rest, scopes)
    ensures Short(Supplied(TargetSeq(s.fixed, scopes), TargetList(s.rest, scopes)), required) == Short(s, required)
  {
    RestShape(s.rest, scopes);
    if s.rest.Cell? {
      ReadyParts(s.rest, scopes);
      TargetCell(s.rest, scopes);
      TargetKey(s.rest.car, scopes);
    }
  }

  lemma {:induction false} UnkeyedTarget(arg: Obj, n: nat, scopes: seq<Scope>)
    requires ReadyList(arg, scopes)
    ensures TakeUnkeyed(arg, n).Ok?
    ensures var s := TakeUnkeyed(arg, n).value;
            && ReadySeq(s.fixed, scopes) && ReadyList(s.rest, scopes)
            && TakeUnkeyed(TargetList(arg, scopes), n)
               == Ok(Supplied(TargetSeq(s.fixed, scopes), TargetList(s.rest, scopes)))
  {
    RestShape(arg, scopes);
    if n > 0 && arg.Cell? {
      ReadyParts(arg, scopes);
      TargetCell(arg, scopes);
      TargetKey(arg.car, scopes);
      ListArg(arg.cdr, scopes);
      if !arg.car.Key? {
        UnkeyedTarget(arg.cdr, n - 1, scopes);
        var s := TakeUnkeyed(arg.cdr, n - 1).value;
        assert ([arg.car] + s.fixed)[1..] == s.fixed;
      }
    }
  }

  lemma {:induction false} FilledTarget(arg: Obj, required: nat, keys: seq<string>, frame: seq<Obj>, taken: set<nat>,
                                        scopes: seq<Scope>)
    requires ReadyList(arg, scopes) && |frame| == required + |keys| && ReadySeq(frame, scopes)
    ensures SameSlots(FillKeyed(arg, required, keys, frame, taken),
                      FillKeyed(TargetList(arg, scopes), required, keys, TargetSeq(frame, scopes), taken), scopes)
    decreases arg
  {
    RestShape(arg, scopes);
    if Gives(arg, required, keys, taken) {
      var key, value, rest := arg.car.k, arg.cdr.car, arg.cdr.cdr;
      var at := required + IndexOf(keys, key);
      GivenTarget(key, value, rest, scopes);
      ListArg(rest, scopes);
      GivenFilled(key, value, rest, required, keys, frame, taken);
      GivenFilled(key, Target(value, scopes), TargetList(rest, scopes), required, keys, TargetSeq(frame, scopes),
                  taken);
      TargetSeqSet(frame, scopes, at, value);
      FilledTarget(rest, required, keys, frame[at := value], taken + {at}, scopes);
    } else if arg.Cell? {
      SameRefusal(arg, required, keys, taken, scopes);
      NotGiven(arg, required, keys, frame, taken);
      NotGiven(TargetList(arg, scopes), required, keys, TargetSeq(frame, scopes), taken);
    }
  }

  lemma GivenTarget(key: string, value: Obj, rest: Obj, scopes: seq<Scope>)
    requires ReadyList(Given(key, value, rest), scopes)
    ensures Ready(value, scopes) && ReadyList(rest, scopes)
    ensures TargetList(Given(key, value, rest), scopes)
         == Given(key, Target(value, scopes), TargetList(rest, scopes))
  {
    var list := Given(key, value, rest);
    ReadyParts(list, scopes);
    ReadyParts(list.cdr, scopes);
    TargetCell(list, scopes);
    TargetCell(list.cdr, scopes);
    TargetKey(list.car, scopes);
  }

  /** What cannot be taken cannot be after addressing either, for the same reason. */
  lemma SameRefusal(arg: Obj, required: nat, keys: seq<string>, taken: set<nat>, scopes: seq<Scope>)
    requires ReadyList(arg, scopes) && arg.Cell?
    ensures (arg.cdr.Cell? || arg.cdr.Nil?) && TargetList(arg, scopes).Cell?
    ensures TargetList(arg, scopes).cdr.Cell? || TargetList(arg, scopes).cdr.Nil?
    ensures Gives(TargetList(arg, scopes), required, keys, taken) == Gives(arg, required, keys, taken)
    ensures WhyNot(TargetList(arg, scopes), keys) == WhyNot(arg, keys)
  {
    ReadyParts(arg, scopes);
    TargetCell(arg, scopes);
    TargetKey(arg.car, scopes);
    ListArg(arg.cdr, scopes);
    RestShape(arg.cdr, scopes);
  }

  lemma {:induction false} CorrectRest(args: Res<seq<Obj>>, rest: Obj, carity: int, scopes: seq<Scope>, shape: Shape,
                                       n: nat, prim: Prims)
    requires OkRess(args, shape) && ReadyList(rest, scopes) && OkScopes(scopes, shape) && Parametric(prim)
    requires args.Done? ==> |args.v| == FixedArgs(carity)
    ensures var r := Named.AfterFixed(args, rest, carity, scopes, n, prim);
            && OkRess(r, shape)
            && (r.Done? ==> |r.v| == FixedArgs(carity) + (if HasRest(carity) then 1 else 0))
            && Run.AfterFixed(TRess(args), TargetList(rest, scopes), carity, Chain(scopes), n, prim) == TRess(r)
    decreases n, 2, 0
  {
    match args
    case Done(fixed, st) =>
      RestTarget(rest, scopes);
      GrowScopes(scopes, shape, ShapeOf(st));
      var others := RestArgs(rest).value;
      CorrectAll(others, scopes, st, n, prim);
      match Named.EvalAll(others, scopes, st, n, prim) {
        case Done(more, st1) =>
          GrowAll(fixed, ShapeOf(st), ShapeOf(st1));
          FrameTarget(fixed, more, carity, ShapeOf(st1));
        case _ =>
      }
    case _ =>
  }

  lemma {:induction false} FixedLength(arg: Obj, n: nat)
    ensures TakeFixed(arg, n).Ok? ==> |TakeFixed(arg, n).value.fixed| == n
  {
    if n > 0 && arg.Cell? { FixedLength(arg.cdr, n - 1); }
  }

  lemma {:induction false} CorrectAll(es: seq<Obj>, scopes: seq<Scope>, st: State, n: nat, prim: Prims)
    requires ReadySeq(es, scopes) && OkState(st) && OkScopes(scopes, ShapeOf(st)) && Parametric(prim)
    ensures var r := Named.EvalAll(es, scopes, st, n, prim);
            && OkRess(r, ShapeOf(st))
            && (r.Done? ==> |r.v| == |es|)
            && Run.EvalAll(TargetSeq(es, scopes), Chain(scopes), TState(st), n, prim) == TRess(r)
    decreases n, 1, |es|
  {
    if es != [] {
      Correct(es[0], scopes, st, n, prim);
      match Named.Eval(es[0], scopes, st, n, prim)
      case Done(v, st1) =>
        GrowScopes(scopes, ShapeOf(st), ShapeOf(st1));
        assert ReadySeq(es[1..], scopes);
        CorrectAll(es[1..], scopes, st1, n, prim);
        ConsAll(es, scopes, v, st1, Named.EvalAll(es[1..], scopes, st1, n, prim));
      case _ =>
    } else {
      assert TSeq([]) == [];
    }
  }

  /** One more value in front of the others. */
  lemma ConsAll(es: seq<Obj>, scopes: seq<Scope>, v: Obj, st: State, rest: Res<seq<Obj>>)
    requires es != [] && OkVal(v, ShapeOf(st)) && OkRess(rest, ShapeOf(st))
    ensures rest.Done? ==> OkVals([v] + rest.v, ShapeOf(rest.st)) && TSeq([v] + rest.v) == [T(v)] + TSeq(rest.v)
    ensures TargetSeq(es, scopes)[0] == Target(es[0], scopes)
    ensures TargetSeq(es, scopes)[1..] == TargetSeq(es[1..], scopes)
  {
    if rest.Done? {
      Grow(v, ShapeOf(st), ShapeOf(rest.st));
      ConsVals(v, rest.v, ShapeOf(rest.st));
    }
  }

  lemma ConsVals(v: Obj, vs: seq<Obj>, shape: Shape)
    requires OkVal(v, shape) && OkVals(vs, shape)
    ensures OkVals([v] + vs, shape) && TSeq([v] + vs) == [T(v)] + TSeq(vs)
  {
  }

  lemma {:induction false} CorrectBody(j: Obj, scopes: seq<Scope>, st: State, n: nat, prim: Prims)
    requires ReadyList(j, scopes) && OkState(st) && OkScopes(scopes, ShapeOf(st)) && Parametric(prim)
    ensures OkRes(Named.EvalBody(j, scopes, st, n, prim), ShapeOf(st))
    ensures Run.EvalBody(TargetList(j, scopes), Chain(scopes), TState(st), n, prim)
         == TRes(Named.EvalBody(j, scopes, st, n, prim))
    decreases n, 1, j
  {
    if j.Cell? {
      TargetCell(j, scopes);
      ReadyParts(j, scopes);
      ListArg(j.cdr, scopes);
      Correct(j.car, scopes, st, n, prim);
      if j.cdr.Cell? && Named.Eval(j.car, scopes, st, n, prim).Done? {
        var st1 := Named.Eval(j.car, scopes, st, n, prim).st;
        GrowScopes(scopes, ShapeOf(st), ShapeOf(st1));
        CorrectBody(j.cdr, scopes, st1, n, prim);
      }
    }
  }

  lemma {:induction false} CorrectCond(j: Obj, scopes: seq<Scope>, st: State, n: nat, prim: Prims)
    requires ReadyClauses(j, scopes) && OkState(st) && OkScopes(scopes, ShapeOf(st)) && Parametric(prim)
    ensures OkRes(Named.EvalCond(j, scopes, st, n, prim), ShapeOf(st))
    ensures Run.EvalCond(TargetClauses(j, scopes), Chain(scopes), TState(st), n, prim)
         == TRes(Named.EvalCond(j, scopes, st, n, prim))
    decreases n, 2, j, 2
  {
    if j.Cell? {
      TargetClause(j, scopes);
      ReadyClause(j, scopes);
      CondArg(j.cdr, scopes);
      if j.car.Cell? {
        CorrectClause(j, scopes, st, n, prim);
      } else if j.car.Nil? {
        CorrectCond(j.cdr, scopes, st, n, prim);
      } else if j.car.Sym? {
        ResolveShape(j.car.name, Tables(scopes));
      }
    }
  }

  lemma {:induction false} CorrectClause(j: Obj, scopes: seq<Scope>, st: State, n: nat, prim: Prims)
    requires ReadyClauses(j, scopes) && j.Cell? && j.car.Cell? && OkState(st) && OkScopes(scopes, ShapeOf(st))
    requires Parametric(prim)
    ensures OkRes(Named.EvalCond(j, scopes, st, n, prim), ShapeOf(st))
    ensures Run.EvalCond(TargetClauses(j, scopes), Chain(scopes), TState(st), n, prim)
         == TRes(Named.EvalCond(j, scopes, st, n, prim))
    decreases n, 2, j, 1
  {
    TargetClause(j, scopes);
    ReadyClause(j, scopes);
    TargetCell(j.car, scopes);
    ReadyParts(j.car, scopes);
    Correct(j.car.car, scopes, st, n, prim);
    CorrectAfter(Named.Eval(j.car.car, scopes, st, n, prim), j, scopes, ShapeOf(st), n, prim);
  }

  lemma {:induction false} CorrectAfter(test: Res<Obj>, j: Obj, scopes: seq<Scope>, shape: Shape, n: nat, prim: Prims)
    requires OkRes(test, shape) && OkScopes(scopes, shape) && Parametric(prim)
    requires ReadyClauses(j, scopes) && j.Cell? && j.car.Cell? && TargetClauses(j, scopes).Cell?
    requires TargetClauses(j, scopes).car.Cell?
    ensures OkRes(Named.AfterTest(test, j, scopes, n, prim), shape)
    ensures Run.AfterTest(TRes(test), TargetClauses(j, scopes), Chain(scopes), n, prim)
         == TRes(Named.AfterTest(test, j, scopes, n, prim))
    decreases n, 2, j, 0
  {
    match test
    case Done(v, st) =>
      GrowScopes(scopes, shape, ShapeOf(st));
      TargetClause(j, scopes);
      ReadyClause(j, scopes);
      TargetCell(j.car, scopes);
      ReadyParts(j.car, scopes);
      if v.Nil? {
        CondArg(j.cdr, scopes);
        CorrectCond(j.cdr, scopes, st, n, prim);
      } else {
        ListArg(j.car.cdr, scopes);
        CorrectBody(j.car.cdr, scopes, st, n, prim);
      }
    case _ =>
  }

  lemma {:induction false} CorrectSetq(j: Obj, last: Obj, scopes: seq<Scope>, st: State, n: nat, prim: Prims)
    requires ReadyList(j, scopes) && OkState(st) && OkVal(last, ShapeOf(st)) && OkScopes(scopes, ShapeOf(st))
    requires Parametric(prim)
    ensures OkRes(Named.EvalSetq(j, last, scopes, st, n, prim), ShapeOf(st))
    ensures Run.EvalSetq(TargetList(j, scopes), T(last), Chain(scopes), TState(st), n, prim)
         == TRes(Named.EvalSetq(j, last, scopes, st, n, prim))
    decreases n, 2, j, 1
  {
    if j.Cell? {
      TargetCell(j, scopes);
      ReadyParts(j, scopes);
      ListArg(j.cdr, scopes);
      if j.cdr.Cell? {
        TargetCell(j.cdr, scopes);
        ReadyParts(j.cdr, scopes);
        CorrectSetOne(j.car, j.cdr.car, scopes, st, n, prim);
        CorrectSet(Named.SetOne(j.car, j.cdr.car, scopes, st, n, prim), j, scopes, ShapeOf(st), n, prim);
      }
    }
  }

  lemma {:induction false} CorrectSet(set_: Res<Obj>, j: Obj, scopes: seq<Scope>, shape: Shape, n: nat, prim: Prims)
    requires OkRes(set_, shape) && OkScopes(scopes, shape) && Parametric(prim)
    requires j.Cell? && j.cdr.Cell? && ReadyList(j, scopes) && TargetList(j, scopes).Cell?
    requires TargetList(j, scopes).cdr.Cell?
    ensures OkRes(Named.AfterSet(set_, j, scopes, n, prim), shape)
    ensures Run.AfterSet(TRes(set_), TargetList(j, scopes), Chain(scopes), n, prim)
         == TRes(Named.AfterSet(set_, j, scopes, n, prim))
    decreases n, 2, j, 0
  {
    match set_
    case Done(v, st) =>
      GrowScopes(scopes, shape, ShapeOf(st));
      TargetCell(j, scopes);
      ReadyParts(j, scopes);
      TargetCell(j.cdr, scopes);
      ReadyParts(j.cdr, scopes);
      ListArg(j.cdr.cdr, scopes);
      CorrectSetq(j.cdr.cdr, v, scopes, st, n, prim);
    case _ =>
  }

  lemma {:induction false} CorrectSetOne(lval: Obj, rval: Obj, scopes: seq<Scope>, st: State, n: nat, prim: Prims)
    requires Ready(lval, scopes) && Ready(rval, scopes) && OkState(st) && OkScopes(scopes, ShapeOf(st))
    requires Parametric(prim)
    ensures OkRes(Named.SetOne(lval, rval, scopes, st, n, prim), ShapeOf(st))
    ensures Run.SetOne(Target(lval, scopes), Target(rval, scopes), Chain(scopes), TState(st), n, prim)
         == TRes(Named.SetOne(lval, rval, scopes, st, n, prim))
    decreases n, 1
  {
    Correct(rval, scopes, st, n, prim);
    match Named.Eval(rval, scopes, st, n, prim)
    case Done(v, st1) =>
      GrowScopes(scopes, ShapeOf(st), ShapeOf(st1));
      CorrectAssign(lval, v, scopes, st1);
    case _ =>
  }

  lemma CorrectAssign(lval: Obj, v: Obj, scopes: seq<Scope>, st: State)
    requires Ready(lval, scopes) && OkState(st) && OkScopes(scopes, ShapeOf(st)) && OkVal(v, ShapeOf(st))
    ensures OkRes(Named.Assign(lval, v, scopes, st), ShapeOf(st))
    ensures Run.Assign(Target(lval, scopes), T(v), Chain(scopes), TState(st)) == TRes(Named.Assign(lval, v, scopes, st))
  {
    if lval.Sym? {
      ResolveLookup(lval.name, scopes, ShapeOf(st));
      match Named.Lookup(lval.name, scopes)
      case None => WriteGlobal(lval.name, v, st);
      case Some((id, offset)) => Slots(id, offset, v, st);
    } else {
      CorePlain(lval);
      TargetSymbol(lval, scopes);
    }
  }

  /** The whole theorem for a program: a core form read at the top level, run as the
      interpreter runs it, gives the reference's result, and no address in the code of any
      closure it makes or meets ever leaves the chain of frames. */
  lemma {:induction false} TopLevel(e: Obj, st: State, n: nat, prim: Prims)
    requires Core(e) && Fine(e, []) && OkState(st) && Parametric(prim)
    ensures Run.Eval(e, [], TState(st), n, prim) == TRes(Named.Eval(e, [], st, n, prim))
    ensures var r := Run.Eval(e, [], TState(st), n, prim); r.Threw? ==> OfSource(r.e)
  {
    Correct(e, [], st, n, prim);
  }

  // ----- the lambdas that do not compile to what they mean -----

  /** A lambda met at the top level gives the closure the reference gives, compiled, if and only
      if the passes get its body right. */
  lemma LambdaExactly(e: Obj, st: State, n: nat, prim: Prims)
    requires e.Cell? && e.car == LAMBDA && Core(e) && OkState(st)
    ensures Run.Eval(e, [], TState(st), n, prim) == TRes(Named.Eval(e, [], st, n, prim)) <==> Fine(e, [])
  {
    var ps, body := e.cdr.car, e.cdr.cdr;
    var carity, code := Carity(ArgTable(ps).value), CodeList(body, [TableOf(ps)]);
    assert Named.Eval(e, [], st, n, prim) == Done(Scoped(ps, body, []), st)
           && T(Scoped(ps, body, [])) == Closure(carity, code, ArgTable(ps).value.keys, []) by {
      Apart();
      LambdaMade(e, [], st);
      assert [TableOf(ps)] + Tables([]) == [TableOf(ps)];
    }
    LambdaCompiled(e, TState(st), n, prim);
    assert e.cdr == Cell(ps, body);
    LambdaFine(ps, body);
  }

  /** A lambda as read is compiled when it is evaluated. */
  lemma LambdaCompiled(e: Obj, st: State, n: nat, prim: Prims)
    requires e.Cell? && e.car == LAMBDA && e.cdr.Cell?
    ensures Run.Eval(e, [], st, n, prim)
         == match CompileFunc(e.cdr)
            case Ok(f) => Done(Closure(f.carity, f.body, f.keys, []), st)
            case Err(x) => Threw(x, st)
  {
    Apart();
  }

  /** The code `compileFunc` makes at the top level is the code of the closure meant, or not. */
  lemma LambdaFine(ps: Obj, body: Obj)
    requires ValidParams(ps) && CoreList(body)
    ensures CompileFunc(Cell(ps, body))
         == Ok(FuncCode(Carity(ArgTable(ps).value), CodeList(body, [TableOf(ps)]), ArgTable(ps).value.keys))
       <==> Fine(Cell(LAMBDA, Cell(ps, body)), [])
  {
    CompileTopLevel(ps, body);
    AddressListNone(body);
    assert [TableOf(ps)] + [] == [TableOf(ps)];
    Apart();
  }

  /** One that it does not: in `(lambda (s) lambda s)` the body is taken for a lambda without a
      parameter list, and an exception is thrown where the reference has a closure. */
  lemma LambdaHeadsBody(s: string, st: State, n: nat, prim: Prims)
    requires s !in RESERVED
    ensures var e := Cell(LAMBDA, Cell(Cell(Sym(s), Nil), Cell(LAMBDA, Cell(Sym(s), Nil))));
            && Core(e) && !Fine(e, [])
            && Run.Eval(e, [], st, n, prim) == Threw(ArglistExpected, st)
            && Named.Eval(e, [], st, n, prim).Done?
  {
    var ps, body := Cell(Sym(s), Nil), Cell(LAMBDA, Cell(Sym(s), Nil));
    var e := Cell(LAMBDA, Cell(ps, body));
    Apart();
    OneParam(s);
    var t := TableOf(ps);
    CoreTwo(LAMBDA, Sym(s));
    assert "lambda" in RESERVED && "lambda" !in t;
    var j := Cell(LAMBDA, Cell(Arg(0, 0, s), Nil));
    assert Scan(Sym(s), t) == Arg(0, 0, s) && Scan(LAMBDA, t) == LAMBDA;
    assert ScanList(Nil, t) == Nil && ScanList(body.cdr, t) == j.cdr;
    assert ScanList(body, t) == Cell(LAMBDA, j.cdr);
    assert body.car != QUOTE && body.car != QUASIQUOTE && Scan(body, t) == ScanList(body, t);
    LambdaRefused(j);
    assert CompileFunc(e.cdr) == Err(ArglistExpected);
  }

  /** A body headed by the bare symbol `quote` throws before anything else is evaluated, compiled
      or not, unless there is a global of that name. */
  lemma QuoteHeadThrows(rest: Obj, code: Obj, scopes: seq<Scope>, env: seq<nat>, st: State, n: nat, prim: Prims)
    requires OkScopes(scopes, ShapeOf(st)) && "quote" !in st.globals && (code.Cell? || code.Nil?)
    ensures Named.EvalBody(Cell(QUOTE, rest), scopes, st, n, prim) == Threw(VoidVariable, st)
    ensures Run.EvalBody(Cell(QUOTE, code), env, TState(st), n, prim) == Threw(VoidVariable, TState(st))
  {
    ResolveLookup("quote", scopes, ShapeOf(st));
    assert "quote" in RESERVED;
    assert Named.Lookup("quote", scopes) == None;
    assert Named.Eval(QUOTE, scopes, st, n, prim) == Threw(VoidVariable, st);
    assert Run.Eval(QUOTE, env, TState(st), n, prim) == Threw(VoidVariable, TState(st));
  }
}
