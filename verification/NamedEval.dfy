/** The reference: source forms evaluated directly, a name looked up in the nested scopes
    around it, innermost first, and then among the globals. No compilation, no addresses. */
module NamedEval {
  import opened Wrappers
  import opened LispObjects
  import opened Store
  import opened LexicalCompiler

  type Scopes = seq<Scope>

  function Lookup(s: string, scopes: Scopes): Option<(nat, nat)> {
    if scopes == [] then None
    else if s in scopes[0].table then Some((scopes[0].frame, scopes[0].table[s]))
    else Lookup(s, scopes[1..])
  }

  function EvalNow(x: Obj, scopes: Scopes, st: State): Res<Obj> {
    if x.Sym? then
      match Lookup(x.name, scopes)
      case Some((id, offset)) => ReadSlot(id, offset, st)
      case None => Global(x.name, st)
    else Done(x, st)
  }

  function Eval(x: Obj, scopes: Scopes, st: State, n: nat, prim: Prims): Res<Obj>
    decreases n, 0
  {
    if !x.Cell? then EvalNow(x, scopes, st)
    else if x.car == QUOTE then EvalQuote(x, st)
    else if x.car == LAMBDA then EvalLambda(x, scopes, st)
    else if n == 0 then OutOfFuel
    else if x.car.Sym? && x.car.name in SPECIAL then EvalSpecial(x, scopes, st, n - 1, prim)
    else EvalApplication(x, scopes, st, n - 1, prim)
  }

  function EvalQuote(x: Obj, st: State): Res<Obj>
    requires x.Cell?
  {
    match CdrCell(x)
    case Err(e) => Threw(e, st)
    case Ok(arg) => if arg.Cell? && arg.cdr.Nil? then Done(arg.car, st) else Threw(BadQuote, st)
  }

  function EvalLambda(x: Obj, scopes: Scopes, st: State): Res<Obj>
    requires x.Cell?
  {
    if x.cdr.Cell? && ValidParams(x.cdr.car) then Done(Scoped(x.cdr.car, x.cdr.cdr, scopes), st)
    else Threw(NotModelled, st)
  }

  function EvalSpecial(x: Obj, scopes: Scopes, st: State, n: nat, prim: Prims): Res<Obj>
    requires x.Cell? && x.car.Sym?
    decreases n, 4
  {
    match CdrCell(x)
    case Err(e) => Threw(e, st)
    case Ok(arg) =>
      match x.car.name
      case "progn" => EvalBody(arg, scopes, st, n, prim)
      case "cond" => EvalCond(arg, scopes, st, n, prim)
      case "setq" => EvalSetq(arg, Nil, scopes, st, n, prim)
      case _ => Threw(NotModelled, st)
  }

  function EvalHead(head: Obj, scopes: Scopes, st: State, n: nat, prim: Prims): Res<Obj>
    decreases n, 1
  {
    if head.Sym? then
      match Lookup(head.name, scopes)
      case Some((id, offset)) => ReadSlot(id, offset, st)
      case None =>
        if head.name in st.globals then Done(st.globals[head.name], st) else Threw(UndefinedHead, st)
    else Eval(head, scopes, st, n, prim)
  }

  function EvalApplication(x: Obj, scopes: Scopes, st: State, n: nat, prim: Prims): Res<Obj>
    requires x.Cell?
    decreases n, 4
  {
    match CdrCell(x)
    case Err(e) => Threw(e, st)
    case Ok(arg) =>
      match EvalHead(x.car, scopes, st, n, prim)
      case OutOfFuel => OutOfFuel
      case Threw(e, st1) => Threw(e, st1)
      case Done(fn, st1) => Apply(fn, arg, scopes, st1, n, prim)
  }

  function Apply(fn: Obj, arg: Obj, scopes: Scopes, st: State, n: nat, prim: Prims): Res<Obj>
    decreases n, 3
  {
    match fn
    case Builtin(name, carity, keys) =>
      Call(EvalArgs(arg, carity, keys, scopes, st, n, prim), name, prim)
    case Scoped(params, code, outer) =>
      (match ArgTable(params)
       case Err(e) => Threw(e, st)
       case Ok(a) =>
         Enter(EvalArgs(arg, Carity(a), a.keys, scopes, st, n, prim), a.table, code, outer, n, prim))
    case _ => Threw(NotApplicable, st)
  }

  function Call(args: Res<seq<Obj>>, name: string, prim: Prims): Res<Obj> {
    match args
    case OutOfFuel => OutOfFuel
    case Threw(e, st) => Threw(e, st)
    case Done(frame, st) => CallBuiltin(name, frame, st, prim)
  }

  function Enter(args: Res<seq<Obj>>, table: Table, code: Obj, outer: Scopes, n: nat, prim: Prims): Res<Obj>
    decreases n, 2
  {
    match args
    case OutOfFuel => OutOfFuel
    case Threw(e, st) => Threw(e, st)
    case Done(frame, st) => EvalBody(code, [Scope(table, |st.frames|)] + outer, PushFrame(frame, st), n, prim)
  }

  function EvalArgs(arg: Obj, carity: int, keys: seq<string>, scopes: Scopes, st: State, n: nat, prim: Prims)
      : Res<seq<Obj>>
    decreases n, 2, 1
  {
    match MakeFrame(arg, carity, keys)
    case Err(e) => Threw(e, st)
    case Ok(s) => AfterFixed(EvalAll(s.fixed, scopes, st, n, prim), s.rest, carity, scopes, n, prim)
  }

  /** The rest of a frame once its fixed arguments are evaluated. */
  function AfterFixed(args: Res<seq<Obj>>, rest: Obj, carity: int, scopes: Scopes, n: nat, prim: Prims): Res<seq<Obj>>
    decreases n, 2, 0
  {
    match args
    case OutOfFuel => OutOfFuel
    case Threw(e, st) => Threw(e, st)
    case Done(fixed, st) =>
      match RestArgs(rest)
      case Err(e) => Threw(e, st)
      case Ok(others) =>
        match EvalAll(others, scopes, st, n, prim)
        case OutOfFuel => OutOfFuel
        case Threw(e, st1) => Threw(e, st1)
        case Done(more, st1) => Done(Frame(fixed, more, carity), st1)
  }

  function EvalAll(xs: seq<Obj>, scopes: Scopes, st: State, n: nat, prim: Prims): Res<seq<Obj>>
    decreases n, 1, |xs|
  {
    if xs == [] then Done([], st)
    else match Eval(xs[0], scopes, st, n, prim)
      case OutOfFuel => OutOfFuel
      case Threw(e, st1) => Threw(e, st1)
      case Done(v, st1) =>
        match EvalAll(xs[1..], scopes, st1, n, prim)
        case OutOfFuel => OutOfFuel
        case Threw(e, st2) => Threw(e, st2)
        case Done(vs, st2) => Done([v] + vs, st2)
  }

  function EvalBody(j: Obj, scopes: Scopes, st: State, n: nat, prim: Prims): Res<Obj>
    decreases n, 1, j
  {
    if !j.Cell? then Done(Nil, st)
    else if j.cdr.Nil? then Eval(j.car, scopes, st, n, prim)
    else match Eval(j.car, scopes, st, n, prim)
      case OutOfFuel => OutOfFuel
      case Threw(e, st1) => Threw(e, st1)
      case Done(_, st1) => EvalBody(j.cdr, scopes, st1, n, prim)
  }

  function EvalCond(j: Obj, scopes: Scopes, st: State, n: nat, prim: Prims): Res<Obj>
    decreases n, 2, j, 1
  {
    if !j.Cell? then Done(Nil, st)
    else if j.car.Cell? then AfterTest(Eval(j.car.car, scopes, st, n, prim), j, scopes, n, prim)
    else if j.car.Nil? then EvalCond(j.cdr, scopes, st, n, prim)
    else Threw(CondTestExpected, st)
  }

  /** The rest of a `cond` once the test of its first clause is evaluated. */
  function AfterTest(test: Res<Obj>, j: Obj, scopes: Scopes, n: nat, prim: Prims): Res<Obj>
    requires j.Cell? && j.car.Cell?
    decreases n, 2, j, 0
  {
    match test
    case OutOfFuel => OutOfFuel
    case Threw(e, st1) => Threw(e, st1)
    case Done(v, st1) =>
      if v.Nil? then EvalCond(j.cdr, scopes, st1, n, prim)
      else if j.car.cdr.Nil? then Done(v, st1)
      else EvalBody(j.car.cdr, scopes, st1, n, prim)
  }

  function Assign(lval: Obj, v: Obj, scopes: Scopes, st: State): Res<Obj> {
    if !lval.Sym? then Threw(NotVariable, st)
    else match Lookup(lval.name, scopes)
      case Some((id, offset)) => WriteSlot(id, offset, v, st)
      case None => SetGlobal(lval.name, v, st)
  }

  function EvalSetq(j: Obj, last: Obj, scopes: Scopes, st: State, n: nat, prim: Prims): Res<Obj>
    decreases n, 2, j, 1
  {
    if !j.Cell? then Done(last, st)
    else if !j.cdr.Cell? then Threw(RightValueExpected, st)
    else AfterSet(SetOne(j.car, j.cdr.car, scopes, st, n, prim), j, scopes, n, prim)
  }

  /** The rest of a `setq` once its first pair is assigned. */
  function AfterSet(set_: Res<Obj>, j: Obj, scopes: Scopes, n: nat, prim: Prims): Res<Obj>
    requires j.Cell? && j.cdr.Cell?
    decreases n, 2, j, 0
  {
    match set_
    case OutOfFuel => OutOfFuel
    case Threw(e, st) => Threw(e, st)
    case Done(v, st) => EvalSetq(j.cdr.cdr, v, scopes, st, n, prim)
  }

  function SetOne(lval: Obj, rval: Obj, scopes: Scopes, st: State, n: nat, prim: Prims): Res<Obj>
    decreases n, 1
  {
    match Eval(rval, scopes, st, n, prim)
    case OutOfFuel => OutOfFuel
    case Threw(e, st1) => Threw(e, st1)
    case Done(v, st1) => Assign(lval, v, scopes, st1)
  }
}
