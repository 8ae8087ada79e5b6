/** Evaluation of compiled code by direct recursion: what `evalGen` means once its loop over
    tail calls is unfolded (`packages/interpreter/src/lisp.ts`). Variables are addresses
    into the chain of frames. `n` bounds the depth of nested evaluations; an atom, a
    quote and a lambda take none of it. */
module AddressedEval {
  import opened LispObjects
  import opened Store
  import opened LexicalCompiler
  import opened Wrappers
  import Quasiquote

  function EvalNow(x: Obj, env: seq<nat>, st: State): Res<Obj> {
    match x
    case Arg(level, offset, _) =>
      if level < |env| then ReadSlot(env[level], offset, st) else Threw(BadAddress, st)
    case Sym(s) => Global(s, st)
    case Lambda(carity, body, keys) => Done(Closure(carity, body, keys, env), st)
    case _ => Done(x, st)
  }

  function Eval(x: Obj, env: seq<nat>, st: State, n: nat, prim: Prims): Res<Obj>
    decreases n, 0
  {
    if !x.Cell? then EvalNow(x, env, st)
    else if x.car == QUOTE then EvalQuote(x, st)
    else if x.car == LAMBDA then EvalLambda(x, env, st)
    else if n == 0 then OutOfFuel
    else if x.car.Sym? && x.car.name in SPECIAL then EvalSpecial(x, env, st, n - 1, prim)
    else EvalApplication(x, env, st, n - 1, prim)
  }

  /** A clause without a body hands back its test's value in a quote, unless it is an atom
      other than a symbol, which is evaluated as it stands. */
  function EvalQuoted(v: Obj, env: seq<nat>, st: State): Res<Obj> {
    if v.Sym? || v.Cell? then Done(v, st) else EvalNow(v, env, st)
  }

  function EvalQuote(x: Obj, st: State): Res<Obj>
    requires x.Cell?
  {
    match CdrCell(x)
    case Err(e) => Threw(e, st)
    case Ok(arg) => if arg.Cell? && arg.cdr.Nil? then Done(arg.car, st) else Threw(BadQuote, st)
  }

  function EvalLambda(x: Obj, env: seq<nat>, st: State): Res<Obj>
    requires x.Cell?
  {
    match CdrCell(x)
    case Err(e) => Threw(e, st)
    case Ok(arg) =>
      match CompileFunc(arg)
      case Err(e) => Threw(e, st)
      case Ok(f) => Done(Closure(f.carity, f.body, f.keys, env), st)
  }

  function EvalSpecial(x: Obj, env: seq<nat>, st: State, n: nat, prim: Prims): Res<Obj>
    requires x.Cell? && x.car.Sym?
    decreases n, 4
  {
    match CdrCell(x)
    case Err(e) => Threw(e, st)
    case Ok(arg) =>
      match x.car.name
      case "progn" => EvalBody(arg, env, st, n, prim)
      case "cond" => EvalCond(arg, env, st, n, prim)
      case "setq" => EvalSetq(arg, Nil, env, st, n, prim)
      case "quasiquote" =>
        if !arg.Cell? || !arg.cdr.Nil? then Threw(BadQuasiquote, st)
        else (match Quasiquote.Expand(arg.car)
              case None => Threw(PartMissing, st)
              case Some(form) => Eval(form, env, st, n, prim))
      case _ => Threw(NotModelled, st)
  }

  function EvalHead(head: Obj, env: seq<nat>, st: State, n: nat, prim: Prims): Res<Obj>
    decreases n, 1
  {
    if head.Sym? then
      if head.name in st.globals then Done(st.globals[head.name], st) else Threw(UndefinedHead, st)
    else Eval(head, env, st, n, prim)
  }

  function EvalApplication(x: Obj, env: seq<nat>, st: State, n: nat, prim: Prims): Res<Obj>
    requires x.Cell?
    decreases n, 4
  {
    match CdrCell(x)
    case Err(e) => Threw(e, st)
    case Ok(arg) =>
      match EvalHead(x.car, env, st, n, prim)
      case OutOfFuel => OutOfFuel
      case Threw(e, st1) => Threw(e, st1)
      case Done(fn, st1) => Apply(fn, arg, env, st1, n, prim)
  }

  function Apply(fn: Obj, arg: Obj, env: seq<nat>, st: State, n: nat, prim: Prims): Res<Obj>
    decreases n, 3
  {
    if !fn.Closure? && !fn.Builtin? then Threw(NotApplicable, st)
    else Enter(EvalArgs(arg, fn.carity, fn.keys, env, st, n, prim), fn, n, prim)
  }

  function Enter(args: Res<seq<Obj>>, fn: Obj, n: nat, prim: Prims): Res<Obj>
    requires fn.Closure? || fn.Builtin?
    decreases n, 2
  {
    match args
    case OutOfFuel => OutOfFuel
    case Threw(e, st) => Threw(e, st)
    case Done(frame, st) =>
      if fn.Builtin? then CallBuiltin(fn.fname, frame, st, prim)
      else EvalBody(fn.body, [|st.frames|] + fn.env, PushFrame(frame, st), n, prim)
  }

  /** The frame: the arity is checked first, then the arguments are evaluated in order. */
  function EvalArgs(arg: Obj, carity: int, keys: seq<string>, env: seq<nat>, st: State, n: nat, prim: Prims)
      : Res<seq<Obj>>
    decreases n, 2, 1
  {
    match MakeFrame(arg, carity, keys)
    case Err(e) => Threw(e, st)
    case Ok(s) => AfterFixed(EvalAll(s.fixed, env, st, n, prim), s.rest, carity, env, n, prim)
  }

  /** The rest of a frame once its fixed arguments are evaluated. */
  function AfterFixed(args: Res<seq<Obj>>, rest: Obj, carity: int, env: seq<nat>, n: nat, prim: Prims): Res<seq<Obj>>
    decreases n, 2, 0
  {
    match args
    case OutOfFuel => OutOfFuel
    case Threw(e, st) => Threw(e, st)
    case Done(fixed, st) =>
      match RestArgs(rest)
      case Err(e) => Threw(e, st)
      case Ok(others) =>
        match EvalAll(others, env, st, n, prim)
        case OutOfFuel => OutOfFuel
        case Threw(e, st1) => Threw(e, st1)
        case Done(more, st1) => Done(Frame(fixed, more, carity), st1)
  }

  function EvalAll(xs: seq<Obj>, env: seq<nat>, st: State, n: nat, prim: Prims): Res<seq<Obj>>
    decreases n, 1, |xs|
  {
    if xs == [] then Done([], st)
    else match Eval(xs[0], env, st, n, prim)
      case OutOfFuel => OutOfFuel
      case Threw(e, st1) => Threw(e, st1)
      case Done(v, st1) =>
        match EvalAll(xs[1..], env, st1, n, prim)
        case OutOfFuel => OutOfFuel
        case Threw(e, st2) => Threw(e, st2)
        case Done(vs, st2) => Done([v] + vs, st2)
  }

  function EvalBody(j: Obj, env: seq<nat>, st: State, n: nat, prim: Prims): Res<Obj>
    decreases n, 1, j
  {
    if j.Nil? then Done(Nil, st)
    else if !j.Cell? then Threw(ProperListExpected, st)
    else match CdrCell(j)
      case Err(e) => Threw(e, st)
      case Ok(rest) =>
        if rest.Nil? then Eval(j.car, env, st, n, prim)
        else match Eval(j.car, env, st, n, prim)
          case OutOfFuel => OutOfFuel
          case Threw(e, st1) => Threw(e, st1)
          case Done(_, st1) => EvalBody(rest, env, st1, n, prim)
  }

  function EvalCond(j: Obj, env: seq<nat>, st: State, n: nat, prim: Prims): Res<Obj>
    decreases n, 2, j, 1
  {
    if !j.Cell? then Done(Nil, st)
    else if j.car.Cell? then AfterTest(Eval(j.car.car, env, st, n, prim), j, env, n, prim)
    else if j.car.Nil? then
      match CdrCell(j)
      case Err(e) => Threw(e, st)
      case Ok(rest) => EvalCond(rest, env, st, n, prim)
    else Threw(CondTestExpected, st)
  }

  /** The rest of a `cond` once the test of its first clause is evaluated. */
  function AfterTest(test: Res<Obj>, j: Obj, env: seq<nat>, n: nat, prim: Prims): Res<Obj>
    requires j.Cell? && j.car.Cell?
    decreases n, 2, j, 0
  {
    match test
    case OutOfFuel => OutOfFuel
    case Threw(e, st1) => Threw(e, st1)
    case Done(v, st1) =>
      if v.Nil? then
        match CdrCell(j)
        case Err(e) => Threw(e, st1)
        case Ok(rest) => EvalCond(rest, env, st1, n, prim)
      else
        match CdrCell(j.car)
        case Err(e) => Threw(e, st1)
        case Ok(body) => if body.Nil? then EvalQuoted(v, env, st1) else EvalBody(body, env, st1, n, prim)
  }

  function Assign(lval: Obj, v: Obj, env: seq<nat>, st: State): Res<Obj> {
    match lval
    case Arg(level, offset, _) =>
      if level < |env| then WriteSlot(env[level], offset, v, st) else Threw(BadAddress, st)
    case Sym(s) => SetGlobal(s, v, st)
    case _ => Threw(NotVariable, st)
  }

  function EvalSetq(j: Obj, last: Obj, env: seq<nat>, st: State, n: nat, prim: Prims): Res<Obj>
    decreases n, 2, j, 1
  {
    if !j.Cell? then Done(last, st)
    else match CdrCell(j)
      case Err(e) => Threw(e, st)
      case Ok(r) =>
        if !r.Cell? then Threw(RightValueExpected, st)
        else AfterSet(SetOne(j.car, r.car, env, st, n, prim), j, env, n, prim)
  }

  /** The rest of a `setq` once its first pair is assigned. */
  function AfterSet(set_: Res<Obj>, j: Obj, env: seq<nat>, n: nat, prim: Prims): Res<Obj>
    requires j.Cell? && j.cdr.Cell?
    decreases n, 2, j, 0
  {
    match set_
    case OutOfFuel => OutOfFuel
    case Threw(e, st) => Threw(e, st)
    case Done(v, st) =>
      match CdrCell(j.cdr)
      case Err(e) => Threw(e, st)
      case Ok(rest) => EvalSetq(rest, v, env, st, n, prim)
  }

  function SetOne(lval: Obj, rval: Obj, env: seq<nat>, st: State, n: nat, prim: Prims): Res<Obj>
    decreases n, 1
  {
    match Eval(rval, env, st, n, prim)
    case OutOfFuel => OutOfFuel
    case Threw(e, st1) => Threw(e, st1)
    case Done(v, st1) => Assign(lval, v, env, st1)
  }
}
