/** `compileFunc` and its passes (`packages/interpreter/src/compile.ts`). */
module LexicalCompiler {
  import opened LispObjects
  import opened FormExpander

  // ----- argument lists -----

  datatype Args = Args(table: Table, arity: nat, hasRest: bool, keyed: bool, keys: seq<string>)

  const NO_ARGS := Args(map[], 0, false, false, [])

  function VariableOf(j: Obj): Result<string> {
    match j
    case Sym(s) => Ok(s)
    case Arg(_, _, s) => Ok(s)
    case _ => Err(NotVariable)
  }

  function AddArg(a: Args, j: Obj): Result<Args> {
    match VariableOf(j)
    case Err(e) => Err(e)
    case Ok(s) =>
      if s in a.table then Err(DuplicatedArgument)
      else Ok(a.(table := a.table[s := a.arity],
                 arity := a.arity + 1,
                 keys := if a.keyed then a.keys + [s] else a.keys))
  }

  /** The walk along an argument list, from `ag` on. */
  function ScanParams(ag: Obj, a: Args): Result<Args>
    decreases ag
  {
    if ag.Nil? then Ok(a)
    else if !ag.Cell? then Err(ProperListExpected)
    else if a.hasRest then Err(SecondRest)
    else if ag.car == KEY then
      if a.keyed then Err(SecondKey) else ScanParams(ag.cdr, a.(keyed := true))
    else if ag.car == REST then
      if a.keyed then Err(RestAfterKey)
      else if ag.cdr.Nil? then Err(NotVariable)
      else if !ag.cdr.Cell? then Err(ProperListExpected)
      else if ag.cdr.car == REST then Err(NotVariable)
      else match AddArg(a, ag.cdr.car)
        case Err(e) => Err(e)
        case Ok(b) => ScanParams(ag.cdr.cdr, b.(hasRest := true))
    else match AddArg(a, ag.car)
      case Err(e) => Err(e)
      case Ok(b) => ScanParams(ag.cdr, b)
  }

  function ArgTable(arg: Obj): Result<Args> {
    if arg.Nil? then Ok(NO_ARGS)
    else if !arg.Cell? then Err(ArglistExpected)
    else match ScanParams(arg, NO_ARGS)
      case Err(e) => Err(e)
      case Ok(a) => if a.keyed && a.keys == [] then Err(KeyWithNothing) else Ok(a)
  }

  /** `makeArgTable`: one loop over the list, filling the table. */
  method MakeArgTable(arg: Obj) returns (r: Result<Args>)
    ensures r == ArgTable(arg)
  {
    if arg.Nil? { return Ok(NO_ARGS); }
    if !arg.Cell? { return Err(ArglistExpected); }
    var a := NO_ARGS;
    var ag := arg;
    while ag.Cell?
      invariant ScanParams(arg, NO_ARGS) == ScanParams(ag, a)
      decreases ag
    {
      if a.hasRest { return Err(SecondRest); }
      if ag.car == KEY {
        if a.keyed { return Err(SecondKey); }
        a := a.(keyed := true);
      } else {
        var rest := ag.car == REST;
        if rest {
          if a.keyed { return Err(RestAfterKey); }
          if ag.cdr.Nil? { return Err(NotVariable); }
          if !ag.cdr.Cell? { return Err(ProperListExpected); }
          ag := ag.cdr;
          if ag.car == REST { return Err(NotVariable); }
        }
        var v := VariableOf(ag.car);
        if v.Err? { return Err(v.error); }
        if v.value in a.table { return Err(DuplicatedArgument); }
        a := Args(a.table[v.value := a.arity], a.arity + 1, rest, a.keyed,
                  if a.keyed then a.keys + [v.value] else a.keys);
      }
      ag := ag.cdr;
    }
    if !ag.Nil? { return Err(ProperListExpected); }
    if a.keyed && a.keys == [] { return Err(KeyWithNothing); }
    return Ok(a);
  }

  function Carity(a: Args): int {
    if a.hasRest then 0 - a.arity else a.arity
  }

  // ----- scanning: names to addresses, one lambda at a time -----

  function Scan(j: Obj, table: Table): Obj
    decreases j, 1
  {
    match j
    case Sym(s) => if s in table then Arg(0, table[s], s) else j
    case Arg(l, o, s) => if s in table then Arg(0, table[s], s) else Arg(l + 1, o, s)
    case Cell(car, cdr) =>
      if car == QUOTE then j
      else if car == QUASIQUOTE then Cell(QUASIQUOTE, ScanQQ(cdr, table, 0))
      else ScanList(j, table)
    case _ => j
  }

  /** `mapcar`: the elements are scanned, an atom in the last cdr is left alone. */
  function ScanList(j: Obj, table: Table): (r: Obj)
    ensures j.Cell? <==> r.Cell?
    decreases j, 0
  {
    if j.Cell? then Cell(Scan(j.car, table), ScanList(j.cdr, table)) else j
  }

  function ScanQQ(j: Obj, table: Table, level: nat): Obj
    decreases j, 2
  {
    if !j.Cell? then j
    else if j.car == QUASIQUOTE then Cell(j.car, ScanQQ(j.cdr, table, level + 1))
    else if j.car == UNQUOTE || j.car == UNQUOTE_SPLICING then
      Cell(j.car, if level == 0 then Scan(j.cdr, table) else ScanQQ(j.cdr, table, level - 1))
    else ScanQQList(j, table, level)
  }

  function ScanQQList(j: Obj, table: Table, level: nat): Obj
    decreases j, 0
  {
    if j.Cell? then Cell(ScanQQ(j.car, table, level), ScanQQList(j.cdr, table, level)) else j
  }

  /** Scanning writes no symbol. */
  lemma {:induction false} ScanCount(s: string, j: Obj, table: Table)
    ensures Count(s, Scan(j, table)) <= Count(s, j)
    decreases j, 1
  {
    if j.Cell? && j.car != QUOTE {
      if j.car == QUASIQUOTE { ScanQQCount(s, j.cdr, table, 0); } else { ScanListCount(s, j, table); }
    }
  }

  lemma {:induction false} ScanListCount(s: string, j: Obj, table: Table)
    ensures Count(s, ScanList(j, table)) <= Count(s, j)
    decreases j, 0
  {
    if j.Cell? {
      ScanCount(s, j.car, table);
      ScanListCount(s, j.cdr, table);
    }
  }

  lemma {:induction false} ScanQQCount(s: string, j: Obj, table: Table, level: nat)
    ensures Count(s, ScanQQ(j, table, level)) <= Count(s, j)
    decreases j, 2
  {
    if j.Cell? {
      if j.car == QUASIQUOTE {
        ScanQQCount(s, j.cdr, table, level + 1);
      } else if j.car == UNQUOTE || j.car == UNQUOTE_SPLICING {
        if level == 0 { ScanCount(s, j.cdr, table); } else { ScanQQCount(s, j.cdr, table, level - 1); }
      } else {
        ScanQQListCount(s, j, table, level);
      }
    }
  }

  lemma {:induction false} ScanQQListCount(s: string, j: Obj, table: Table, level: nat)
    ensures Count(s, ScanQQList(j, table, level)) <= Count(s, j)
    decreases j, 0
  {
    if j.Cell? {
      ScanQQCount(s, j.car, table, level);
      ScanQQListCount(s, j.cdr, table, level);
    }
  }

  // ----- compiling -----

  datatype FuncCode = FuncCode(carity: int, body: Obj, keys: seq<string>)

  /** Of macro expansion, which runs between the two passes, this has what happens to code
      without macros. */
  function CompileFunc(arg: Obj): Result<FuncCode>
    decreases Count("lambda", arg), 1, arg, 0
  {
    if !arg.Cell? then Err(ArglistAndBodyExpected)
    else match ArgTable(arg.car)
      case Err(e) => Err(e)
      case Ok(a) =>
        if !arg.cdr.Cell? && !arg.cdr.Nil? then Err(ProperListExpected)
        else match Expand(Scan(arg.cdr, a.table))
          case Err(e) => Err(e)
          case Ok(expanded) =>
            FewerLambdas(arg.cdr, a.table);
            match CompileInners(expanded)
            case Err(e) => Err(e)
            case Ok(body) => Ok(FuncCode(Carity(a), body, a.keys))
  }

  lemma FewerLambdas(body: Obj, table: Table)
    ensures Expand(Scan(body, table)).Ok? ==> Count("lambda", Expand(Scan(body, table)).value) <= Count("lambda", body)
  {
    NotWritten();
    ScanCount("lambda", body, table);
    ExpandCount("lambda", Scan(body, table));
  }

  function CompileInners(j: Obj): Result<Obj>
    decreases Count("lambda", j), 0, j, 1
  {
    if !j.Cell? then Ok(j)
    else if j.car == QUOTE then Ok(j)
    else if j.car == LAMBDA then
      if !j.cdr.Cell? && !j.cdr.Nil? then Err(ProperListExpected)
      else
        assert Count("lambda", j.car) == 1;
        match CompileFunc(j.cdr)
        case Err(e) => Err(e)
        case Ok(f) => Ok(Lambda(f.carity, f.body, f.keys))
    else if j.car == MACRO then Err(NestedMacro)
    else CompileInnersList(j)
  }

  function CompileInnersList(j: Obj): Result<Obj>
    decreases Count("lambda", j), 0, j, 0
  {
    if !j.Cell? then Ok(j)
    else match CompileInners(j.car)
      case Err(e) => Err(e)
      case Ok(a) =>
        match CompileInnersList(j.cdr)
        case Err(e) => Err(e)
        case Ok(d) => Ok(Cell(a, d))
  }

  // ----- what the scans amount to -----

  /** The address of a name under nested scopes, innermost first; a free name stays. */
  function Resolve(s: string, ts: seq<Table>): Obj {
    if ts == [] then Sym(s)
    else if s in ts[0] then Arg(0, ts[0][s], s)
    else match Resolve(s, ts[1..])
      case Arg(l, o, n) => Arg(l + 1, o, n)
      case other => other
  }

  /** Every name of a form resolved at once; lambdas not yet compiled. */
  function Address(e: Obj, ts: seq<Table>): Obj
    decreases e, 1
  {
    if e.Sym? then Resolve(e.name, ts)
    else if !e.Cell? || e.car == QUOTE then e
    else if e.car == QUASIQUOTE then Cell(QUASIQUOTE, AddressQQ(e.cdr, ts, 0))
    else AddressList(e, ts)
  }

  function AddressList(e: Obj, ts: seq<Table>): Obj
    decreases e, 0
  {
    if e.Cell? then Cell(Address(e.car, ts), AddressList(e.cdr, ts)) else e
  }

  /** In a template, only what is unquoted. */
  function AddressQQ(e: Obj, ts: seq<Table>, level: nat): Obj
    decreases e, 2
  {
    if !e.Cell? then e
    else if e.car == QUASIQUOTE then Cell(e.car, AddressQQ(e.cdr, ts, level + 1))
    else if e.car == UNQUOTE || e.car == UNQUOTE_SPLICING then
      Cell(e.car, AddressUnquoted(e.cdr, ts, level))
    else AddressQQList(e, ts, level)
  }

  /** What stands after an unquote is code where it closes the outermost quasiquote. */
  function AddressUnquoted(e: Obj, ts: seq<Table>, level: nat): Obj
    decreases e, 3
  {
    if level == 0 then Address(e, ts) else AddressQQ(e, ts, level - 1)
  }

  function AddressQQList(e: Obj, ts: seq<Table>, level: nat): Obj
    decreases e, 0
  {
    if e.Cell? then Cell(AddressQQ(e.car, ts, level), AddressQQList(e.cdr, ts, level)) else e
  }

  // ----- the code a form should get -----

  const COND := Sym("cond")

  /** A form addressed and its lambdas compiled, each under one table more. */
  function Code(e: Obj, ts: seq<Table>): Obj
    decreases e, 1
  {
    if e.Sym? then Resolve(e.name, ts)
    else if !e.Cell? || e.car == QUOTE then e
    else if e.car == LAMBDA && e.cdr.Cell? && ArgTable(e.cdr.car).Ok? then
      var a := ArgTable(e.cdr.car).value;
      Lambda(Carity(a), CodeList(e.cdr.cdr, [a.table] + ts), a.keys)
    else if e.car == COND then Cell(Code(e.car, ts), CodeClauses(e.cdr, ts))
    else CodeList(e, ts)
  }

  function CodeList(e: Obj, ts: seq<Table>): Obj
    decreases e, 0
  {
    if e.Cell? then Cell(Code(e.car, ts), CodeList(e.cdr, ts)) else e
  }

  /** A clause is a list of forms, whatever stands first in it. */
  function CodeClauses(e: Obj, ts: seq<Table>): Obj
    decreases e, 0
  {
    if e.Cell? then Cell(if e.car.Cell? then CodeList(e.car, ts) else Code(e.car, ts), CodeClauses(e.cdr, ts)) else e
  }

  // ----- the core language -----

  /** Literal data: no address, no function object. */
  predicate Plain(e: Obj) {
    match e
    case Cell(a, d) => Plain(a) && Plain(d)
    case Arg(_, _, _) => false
    case Lambda(_, _, _) => false
    case Closure(_, _, _, _) => false
    case Scoped(_, _, _) => false
    case Builtin(_, _, _) => false
    case _ => true
  }

  /** A parameter list: names that head no special form, `&rest` before the last or `&key` before
      some if at all, and no name twice. A parameter after `&rest` is not called `&key`. */
  predicate ValidParams(ps: Obj) {
    && ParamNames(ps) && Ordinary(ps)
    && ArgTable(ps).Ok? && "&key" !in ArgTable(ps).value.table
  }

  predicate ParamNames(ps: Obj) {
    ps.Nil? || (ps.Cell? && ps.car.Sym? && ParamNames(ps.cdr))
  }

  predicate Ordinary(ps: Obj) {
    ps.Cell? ==> ps.car.Sym? && ps.car.name !in SPECIAL && Ordinary(ps.cdr)
  }

  /** Macro-free code: atoms, quote, lambda, progn, cond, setq, application. What stands first
      in a body or in a clause is any form, a bare symbol of a special form too. */
  predicate Core(e: Obj)
    decreases e, 1
  {
    if !e.Cell? then Plain(e)
    else if e.car == QUOTE then Plain(e)
    else if e.car == LAMBDA then e.cdr.Cell? && ValidParams(e.cdr.car) && CoreList(e.cdr.cdr)
    else if e.car == COND then CoreClauses(e.cdr)
    else if e.car == QUASIQUOTE || e.car == MACRO || e.car == TRY then false
    else CoreList(e) && (e.car == CATCH && e.cdr.Cell? ==> Inert(e.cdr.car))
  }

  predicate CoreList(l: Obj)
    decreases l, 0
  {
    l.Nil? || (l.Cell? && Core(l.car) && CoreList(l.cdr))
  }

  predicate CoreClauses(l: Obj)
    decreases l, 0
  {
    l.Nil? || (l.Cell? && (if l.car.Cell? then CoreList(l.car) else Plain(l.car)) && CoreClauses(l.cdr))
  }

  /** No list in it is headed by `quasiquote` or `try`: what a `catch` takes for parameters is
      not expanded, so it must hold nothing that expansion would change. */
  predicate Inert(e: Obj)
    decreases e, 1
  {
    e.Cell? ==> e.car != QUASIQUOTE && e.car != TRY && InertList(e)
  }

  predicate InertList(l: Obj)
    decreases l, 0
  {
    l.Cell? ==> Inert(l.car) && InertList(l.cdr)
  }

  const RESERVED: set<string> := SPECIAL + {"&rest", "&key"}

  predicate NoSpecial(ts: seq<Table>) {
    forall t | t in ts :: t.Keys !! RESERVED
  }

  // ----- which code the passes get right -----

  /** The passes look at the head of every list they meet, also of a body or a clause, which is
      a list of forms and no form. Whether that does no harm, for every such list of a form
      under its scopes; at the top level clauses are not compiled. */
  predicate Fine(e: Obj, ts: seq<Table>)
    decreases e, 1
  {
    if !e.Cell? || e.car == QUOTE then true
    else if e.car == LAMBDA && e.cdr.Cell? && ArgTable(e.cdr.car).Ok? then
      FineBody(e.cdr.cdr, AddressList(e.cdr.cdr, ts), [ArgTable(e.cdr.car).value.table] + ts)
    else if e.car == COND then FineClauses(e.cdr, ts)
    else FineList(e, ts)
  }

  predicate FineList(l: Obj, ts: seq<Table>)
    decreases l, 0
  {
    l.Cell? ==> Fine(l.car, ts) && FineList(l.cdr, ts)
  }

  predicate FineClauses(l: Obj, ts: seq<Table>)
    decreases l, 0
  {
    l.Cell? ==>
      && (l.car.Cell? ==> if ts == [] then FineList(l.car, ts) else FineBody(l.car, l.car, ts))
      && FineClauses(l.cdr, ts)
  }

  /** A list of forms that the passes meet as `met`: not headed by `lambda`, `macro` or
      `quasiquote`; by `quote` only if the code it should get is what is met; by `try` only in
      the one shape that a `try` may have. */
  predicate FineBody(l: Obj, met: Obj, ts: seq<Table>)
    decreases l, 1
  {
    if !l.Cell? then true
    else if l.car == QUOTE then met == CodeList(l, ts)
    else
      && l.car != LAMBDA && l.car != MACRO && l.car != QUASIQUOTE
      && (l.car == TRY ==> TryShape(l, ts))
      && FineList(l, ts)
  }

  predicate TryShape(l: Obj, ts: seq<Table>)
    requires l.Cell?
  {
    && l.cdr.Cell? && l.cdr.cdr.Cell? && l.cdr.cdr.cdr.Nil?
    && var clause := l.cdr.cdr.car;
    && clause.Cell? && clause.car == CATCH && clause.cdr.Cell? && Resolve("catch", ts) == CATCH
  }

  // ----- the proofs -----

  lemma {:induction false} ResolveFree(s: string, ts: seq<Table>)
    requires Absent(s, ts)
    ensures Resolve(s, ts) == Sym(s)
  {
    if ts != [] {
      assert ts[0] in ts;
      assert Absent(s, ts[1..]);
      ResolveFree(s, ts[1..]);
    }
  }

  predicate Absent(s: string, ts: seq<Table>) {
    forall t | t in ts :: s !in t
  }

  lemma {:induction false} ResolveShape(s: string, ts: seq<Table>)
    ensures Resolve(s, ts).Sym? || Resolve(s, ts).Arg?
    ensures Resolve(s, ts).Sym? ==> Resolve(s, ts) == Sym(s)
    ensures Resolve(s, ts).Arg? ==> Resolve(s, ts).sym == s
  {
    if ts != [] { ResolveShape(s, ts[1..]); }
  }

  /** A special-form symbol at the head of a list is still there once the list is addressed,
      and only then. */
  lemma AddressHead(e: Obj, ts: seq<Table>, s: string)
    requires s in RESERVED && NoSpecial(ts) && Plain(e)
    ensures Address(e, ts) == Sym(s) <==> e == Sym(s)
  {
    if e == Sym(s) { ResolveFree(s, ts); } else { AddressApart(e, ts, s); }
  }

  /** Only a symbol itself becomes the symbol. */
  lemma AddressApart(e: Obj, ts: seq<Table>, s: string)
    requires e != Sym(s)
    ensures Address(e, ts) != Sym(s)
  {
    if e.Sym? { ResolveShape(e.name, ts); }
  }

  lemma AddressHeads(e: Obj, ts: seq<Table>)
    requires NoSpecial(ts) && Plain(e)
    ensures Address(e, ts) == QUOTE <==> e == QUOTE
    ensures Address(e, ts) == LAMBDA <==> e == LAMBDA
    ensures Address(e, ts) == MACRO <==> e == MACRO
    ensures Address(e, ts) == QUASIQUOTE <==> e == QUASIQUOTE
    ensures Address(e, ts) == TRY <==> e == TRY
    ensures Address(e, ts).Cell? <==> e.Cell?
    ensures e.Cell? ==> (Address(e, ts).car == QUASIQUOTE <==> e.car == QUASIQUOTE)
  {
    if e.Sym? { ResolveShape(e.name, ts); }
    AddressHead(e, ts, "quote");
    AddressHead(e, ts, "lambda");
    AddressHead(e, ts, "macro");
    AddressHead(e, ts, "quasiquote");
    AddressHead(e, ts, "try");
    if e.Cell? { AddressHead(e.car, ts, "quasiquote"); }
  }

  /** The re-scan: scanning code already addressed under the outer scopes with the table of
      one more lambda gives what addressing the source under all the scopes gives. */
  lemma {:induction false} ScanAddressed(e: Obj, ts: seq<Table>, t: Table)
    requires Plain(e)
    ensures Scan(Address(e, ts), t) == Address(e, [t] + ts)
    decreases e, 1
  {
    assert ([t] + ts)[1..] == ts;
    if e.Sym? {
      ResolveShape(e.name, ts);
    } else if e.Cell? && e.car == QUASIQUOTE {
      ScanTemplate(e.cdr, ts, t, 0);
    } else if e.Cell? && e.car != QUOTE {
      AddressApart(e.car, ts, "quote");
      AddressApart(e.car, ts, "quasiquote");
      ScanAddressedList(e, ts, t);
    }
  }

  lemma {:induction false} ScanAddressedList(e: Obj, ts: seq<Table>, t: Table)
    requires Plain(e)
    ensures ScanList(AddressList(e, ts), t) == AddressList(e, [t] + ts)
    decreases e, 0
  {
    if e.Cell? {
      ScanAddressed(e.car, ts, t);
      ScanAddressedList(e.cdr, ts, t);
    }
  }

  lemma {:induction false} ScanTemplate(e: Obj, ts: seq<Table>, t: Table, level: nat)
    requires Plain(e)
    ensures ScanQQ(AddressQQ(e, ts, level), t, level) == AddressQQ(e, [t] + ts, level)
    decreases e, 2
  {
    if e.Cell? {
      if e.car == QUASIQUOTE {
        ScanTemplate(e.cdr, ts, t, level + 1);
      } else if e.car == UNQUOTE || e.car == UNQUOTE_SPLICING {
        if level == 0 { ScanAddressed(e.cdr, ts, t); } else { ScanTemplate(e.cdr, ts, t, level - 1); }
      } else {
        assert e.car.Cell? ==> AddressQQ(e.car, ts, level).Cell?;
        ScanTemplateList(e, ts, t, level);
      }
    }
  }

  lemma {:induction false} ScanTemplateList(e: Obj, ts: seq<Table>, t: Table, level: nat)
    requires Plain(e)
    ensures ScanQQList(AddressQQList(e, ts, level), t, level) == AddressQQList(e, [t] + ts, level)
    decreases e, 0
  {
    if e.Cell? {
      ScanTemplate(e.car, ts, t, level);
      ScanTemplateList(e.cdr, ts, t, level);
    }
  }

  lemma {:induction false} CorePlain(e: Obj)
    requires Core(e)
    ensures Plain(e) && (e.Cell? ==> e.car != QUASIQUOTE)
    decreases e, 1
  {
    if e.Cell? && e.car != QUOTE {
      if e.car == LAMBDA {
        ParamsPlain(e.cdr.car);
        CoreListPlain(e.cdr.cdr);
      } else if e.car == COND {
        CoreClausesPlain(e.cdr);
      } else {
        CoreListPlain(e);
      }
    }
  }

  lemma {:induction false} CoreListPlain(l: Obj)
    requires CoreList(l)
    ensures Plain(l)
    decreases l, 0
  {
    if l.Cell? {
      CorePlain(l.car);
      CoreListPlain(l.cdr);
    }
  }

  lemma {:induction false} CoreClausesPlain(l: Obj)
    requires CoreClauses(l)
    ensures Plain(l)
    decreases l, 0
  {
    if l.Cell? {
      if l.car.Cell? { CoreListPlain(l.car); }
      CoreClausesPlain(l.cdr);
    }
  }

  lemma {:induction false} ParamsPlain(ps: Obj)
    requires ParamNames(ps)
    ensures Plain(ps)
  {
    if ps.Cell? { ParamsPlain(ps.cdr); }
  }

  /** Scanning turns parameters of an inner lambda into addresses of the outer ones; the
      argument table only reads their names, so it comes out the same. */
  lemma {:induction false} ParamsAddressed(ps: Obj, ts: seq<Table>, a: Args)
    requires ParamNames(ps) && Absent("&rest", ts) && Absent("&key", ts)
    ensures ScanParams(AddressList(ps, ts), a) == ScanParams(ps, a)
  {
    if ps.Cell? {
      AddressParam(ps.car.name, ts);
      assert AddressList(ps, ts) == Cell(Resolve(ps.car.name, ts), AddressList(ps.cdr, ts));
      if ps.car == REST && ps.cdr.Cell? {
        AddressParam(ps.cdr.car.name, ts);
        assert AddressList(ps.cdr, ts) == Cell(Resolve(ps.cdr.car.name, ts), AddressList(ps.cdr.cdr, ts));
        forall b { ParamsAddressed(ps.cdr.cdr, ts, b); }
      }
      forall b { ParamsAddressed(ps.cdr, ts, b); }
    }
  }

  lemma AddressParam(s: string, ts: seq<Table>)
    requires Absent("&rest", ts) && Absent("&key", ts)
    ensures VariableOf(Resolve(s, ts)) == Ok(s)
    ensures Resolve(s, ts) == REST <==> s == "&rest"
    ensures Resolve(s, ts) == KEY <==> s == "&key"
  {
    ResolveShape(s, ts);
    if s == "&rest" || s == "&key" { ResolveFree(s, ts); }
  }

  lemma {:induction false} TableReserved(ps: Obj, a: Args)
    requires ParamNames(ps) && Ordinary(ps) && a.table.Keys !! SPECIAL + {"&rest"}
    ensures ScanParams(ps, a).Ok? ==> ScanParams(ps, a).value.table.Keys !! SPECIAL + {"&rest"}
  {
    if ps.Cell? {
      if ps.car == REST && ps.cdr.Cell? {
        forall b: Args | b.table.Keys !! SPECIAL + {"&rest"} { TableReserved(ps.cdr.cdr, b); }
      }
      forall b: Args | b.table.Keys !! SPECIAL + {"&rest"} { TableReserved(ps.cdr, b); }
    }
  }

  function TableOf(ps: Obj): Table
    requires ValidParams(ps)
  {
    ArgTable(ps).value.table
  }

  lemma ValidTable(ps: Obj)
    requires ValidParams(ps)
    ensures TableOf(ps).Keys !! RESERVED
  {
    if ps.Cell? { TableReserved(ps, NO_ARGS); }
  }

  // ----- what expanding and compiling do to addressed code -----

  /** The two passes after the scan. */
  function Passes(j: Obj): Result<Obj> {
    match Expand(j)
    case Err(e) => Err(e)
    case Ok(expanded) => CompileInners(expanded)
  }

  function PassesList(j: Obj): Result<Obj> {
    match ExpandList(j)
    case Err(e) => Err(e)
    case Ok(expanded) => CompileInnersList(expanded)
  }

  lemma PassesCons(a: Obj, d: Obj, c: Obj, e: Obj)
    ensures PassesList(Cell(a, d)) == Ok(Cell(c, e)) <==> Passes(a) == Ok(c) && PassesList(d) == Ok(e)
  {
    if Expand(a).Ok? && ExpandList(d).Ok? {
      assert ExpandList(Cell(a, d)) == Ok(Cell(Expand(a).value, ExpandList(d).value));
    }
  }

  /** Only a quasiquote becomes an atom. */
  lemma ExpandShape(j: Obj)
    requires Expand(j).Ok? && (j.Cell? ==> j.car != QUASIQUOTE)
    ensures !j.Cell? ==> Expand(j) == Ok(j)
    ensures j.Cell? ==> Expand(j).value.Cell?
  {
  }

  /** Not the head of what the passes treat in a way of its own. */
  predicate NoForm(head: Obj) {
    head != QUOTE && head != LAMBDA && head != MACRO && head != QUASIQUOTE && head != TRY
  }

  lemma Apart()
    ensures NoForm(COND) && NoForm(CATCH)
    ensures QUOTE != LAMBDA && QUOTE != QUASIQUOTE && LAMBDA != QUASIQUOTE && COND != CATCH
    ensures TRY != QUOTE && TRY != LAMBDA && TRY != MACRO && TRY != QUASIQUOTE
  {
    assert |QUOTE.name| == |MACRO.name| == |CATCH.name| == 5 && |QUASIQUOTE.name| == 10 && |LAMBDA.name| == 6;
    assert |TRY.name| == 3 && |COND.name| == 4;
    assert QUOTE.name[0] == 'q' && MACRO.name[0] == 'm' && CATCH.name[0] == 'c';
  }

  /** A list that is no special form to the passes goes through them element by element. */
  lemma PassesElements(j: Obj)
    requires j.Cell? && NoForm(j.car) && (j.car.Cell? ==> j.car.car != QUASIQUOTE)
    ensures Passes(j) == PassesList(j)
  {
    if Expand(j.car).Ok? { ExpandShape(j.car); }
  }

  /** Compiling makes no symbol `quasiquote` either. */
  lemma {:induction false} InnersCount(j: Obj)
    ensures CompileInners(j).Ok? ==> Count("quasiquote", CompileInners(j).value) <= Count("quasiquote", j)
    decreases Count("lambda", j), 0, j, 1
  {
    if j.Cell? && j.car != QUOTE && j.car != MACRO {
      if j.car == LAMBDA {
        if j.cdr.Cell? {
          assert Count("lambda", j.car) == 1;
          FuncCount(j.cdr);
        }
      } else {
        InnersListCount(j);
      }
    }
  }

  lemma {:induction false} InnersListCount(j: Obj)
    ensures CompileInnersList(j).Ok? ==> Count("quasiquote", CompileInnersList(j).value) <= Count("quasiquote", j)
    decreases Count("lambda", j), 0, j, 0
  {
    if j.Cell? {
      InnersCount(j.car);
      InnersListCount(j.cdr);
    }
  }

  lemma {:induction false} FuncCount(arg: Obj)
    ensures CompileFunc(arg).Ok? ==> Count("quasiquote", CompileFunc(arg).value.body) <= Count("quasiquote", arg)
    decreases Count("lambda", arg), 1, arg, 0
  {
    if CompileFunc(arg).Ok? {
      var scanned := Scan(arg.cdr, ArgTable(arg.car).value.table);
      FewerLambdas(arg.cdr, ArgTable(arg.car).value.table);
      NotWritten();
      ScanCount("quasiquote", arg.cdr, ArgTable(arg.car).value.table);
      ExpandCount("quasiquote", scanned);
      InnersCount(Expand(scanned).value);
    }
  }

  /** So a list headed by `quasiquote` never comes out of the passes with its head. */
  lemma QuasiquoteLost(j: Obj, code: Obj)
    requires j.Cell? && j.car == QUASIQUOTE && Count("quasiquote", j) <= Count("quasiquote", code)
    ensures Passes(j) != Ok(code)
  {
    if Expand(j).Ok? {
      QuasiquoteGoes(j);
      InnersCount(Expand(j).value);
    }
  }

  lemma {:induction false} AddressCount(e: Obj, ts: seq<Table>)
    ensures Count("quasiquote", Address(e, ts)) <= Count("quasiquote", e)
    decreases e, 1
  {
    if e.Sym? {
      ResolveShape(e.name, ts);
    } else if e.Cell? && e.car != QUOTE {
      if e.car == QUASIQUOTE { AddressQQCount(e.cdr, ts, 0); } else { AddressListCount(e, ts); }
    }
  }

  lemma {:induction false} AddressListCount(e: Obj, ts: seq<Table>)
    ensures Count("quasiquote", AddressList(e, ts)) <= Count("quasiquote", e)
    decreases e, 0
  {
    if e.Cell? {
      AddressCount(e.car, ts);
      AddressListCount(e.cdr, ts);
    }
  }

  lemma {:induction false} AddressQQCount(e: Obj, ts: seq<Table>, level: nat)
    ensures Count("quasiquote", AddressQQ(e, ts, level)) <= Count("quasiquote", e)
    decreases e, 2
  {
    if e.Cell? {
      if e.car == QUASIQUOTE {
        AddressQQCount(e.cdr, ts, level + 1);
        assert AddressQQ(e, ts, level) == Cell(e.car, AddressQQ(e.cdr, ts, level + 1));
      } else if e.car == UNQUOTE || e.car == UNQUOTE_SPLICING {
        UnquotedCount(e.cdr, ts, level);
        assert AddressQQ(e, ts, level) == Cell(e.car, AddressUnquoted(e.cdr, ts, level));
      } else {
        AddressQQListCount(e, ts, level);
      }
    }
  }

  lemma {:induction false} UnquotedCount(e: Obj, ts: seq<Table>, level: nat)
    ensures Count("quasiquote", AddressUnquoted(e, ts, level)) <= Count("quasiquote", e)
    decreases e, 3
  {
    if level == 0 { AddressCount(e, ts); } else { AddressQQCount(e, ts, level - 1); }
  }

  lemma {:induction false} AddressQQListCount(e: Obj, ts: seq<Table>, level: nat)
    ensures Count("quasiquote", AddressQQList(e, ts, level)) <= Count("quasiquote", e)
    decreases e, 0
  {
    if e.Cell? {
      AddressQQCount(e.car, ts, level);
      AddressQQListCount(e.cdr, ts, level);
    }
  }

  /** The code a form should get holds the symbol as often as the form does. */
  lemma {:induction false} CodeCount(e: Obj, ts: seq<Table>)
    requires Core(e) && NoSpecial(ts)
    ensures Count("quasiquote", Code(e, ts)) == Count("quasiquote", e)
    decreases e, 1
  {
    if e.Sym? {
      ResolveShape(e.name, ts);
      if e.name == "quasiquote" { ResolveFree("quasiquote", ts); }
    } else if e.Cell? && e.car != QUOTE {
      if e.car == LAMBDA {
        ValidTable(e.cdr.car);
        ParamsCount(e.cdr.car);
        CodeListCount(e.cdr.cdr, [TableOf(e.cdr.car)] + ts);
        assert Count("quasiquote", e.cdr) == Count("quasiquote", e.cdr.car) + Count("quasiquote", e.cdr.cdr);
      } else if e.car == COND {
        CodeCount(e.car, ts);
        CodeClausesCount(e.cdr, ts);
      } else {
        CodeListCount(e, ts);
      }
    }
  }

  lemma {:induction false} CodeListCount(l: Obj, ts: seq<Table>)
    requires CoreList(l) && NoSpecial(ts)
    ensures Count("quasiquote", CodeList(l, ts)) == Count("quasiquote", l)
    decreases l, 0
  {
    if l.Cell? {
      CodeCount(l.car, ts);
      CodeListCount(l.cdr, ts);
    }
  }

  lemma {:induction false} CodeClausesCount(l: Obj, ts: seq<Table>)
    requires CoreClauses(l) && NoSpecial(ts)
    ensures Count("quasiquote", CodeClauses(l, ts)) == Count("quasiquote", l)
    decreases l, 0
  {
    if l.Cell? {
      if l.car.Cell? { CodeListCount(l.car, ts); } else { CodeCount(l.car, ts); }
      CodeClausesCount(l.cdr, ts);
    }
  }

  lemma {:induction false} ParamsCount(ps: Obj)
    requires ParamNames(ps) && Ordinary(ps)
    ensures Count("quasiquote", ps) == 0
  {
    if ps.Cell? { ParamsCount(ps.cdr); }
  }

  /** What holds no list headed by `quasiquote` or `try` is left alone. */
  lemma {:induction false} InertExpand(e: Obj, ts: seq<Table>)
    requires Inert(e) && Plain(e) && NoSpecial(ts)
    ensures Expand(Address(e, ts)) == Ok(Address(e, ts))
    decreases e, 1
  {
    if e.Sym? {
      ResolveShape(e.name, ts);
    } else if e.Cell? && e.car != QUOTE {
      AddressHeads(e.car, ts);
      InertExpandList(e, ts);
    }
  }

  lemma {:induction false} InertExpandList(l: Obj, ts: seq<Table>)
    requires InertList(l) && Plain(l) && NoSpecial(ts)
    ensures ExpandList(AddressList(l, ts)) == Ok(AddressList(l, ts))
    decreases l, 0
  {
    if l.Cell? {
      InertExpand(l.car, ts);
      InertExpandList(l.cdr, ts);
    }
  }

  lemma AddressElements(e: Obj, ts: seq<Table>)
    requires e.Cell? && e.car != QUOTE && e.car != QUASIQUOTE
    ensures Address(e, ts) == AddressList(e, ts) == Cell(Address(e.car, ts), AddressList(e.cdr, ts))
  {
  }

  // ----- exactly which code compiles to what it should -----

  /** The passes over a form inside a function, after any number of outer scans: every name
      gets its address and every lambda its code if and only if the form is fine. */
  lemma {:induction false} CompileAddressed(e: Obj, ts: seq<Table>)
    requires Core(e) && NoSpecial(ts) && ts != []
    ensures Passes(Address(e, ts)) == Ok(Code(e, ts)) <==> Fine(e, ts)
    decreases e, 3
  {
    CorePlain(e);
    if e.Sym? {
      ResolveShape(e.name, ts);
    } else if e.Cell? && e.car != QUOTE {
      AddressHeads(e.car, ts);
      if e.car == LAMBDA {
        CompileLambda(e, ts);
      } else if e.car == COND {
        CompileCond(e, ts);
      } else {
        CorePlain(e.car);
        AddressHeads(e.car, ts);
        AddressElements(e, ts);
        PassesElements(Address(e, ts));
        CompileAddressedList(e, ts);
      }
    }
  }

  lemma {:induction false} CompileLambda(e: Obj, ts: seq<Table>)
    requires e.Cell? && e.car == LAMBDA && Core(e) && NoSpecial(ts)
    ensures Passes(Address(e, ts)) == Ok(Code(e, ts)) <==> Fine(e, ts)
    decreases e, 2
  {
    var ps, body := e.cdr.car, e.cdr.cdr;
    Apart();
    ResolveFree("lambda", ts);
    AddressElements(e, ts);
    assert AddressList(e.cdr, ts) == Cell(Address(ps, ts), AddressList(body, ts));
    ValidTable(ps);
    CompileFuncAddressed(ps, body, ts);
    assert Address(e, ts) == Cell(LAMBDA, Cell(Address(ps, ts), AddressList(body, ts)));
  }

  lemma {:induction false} CompileCond(e: Obj, ts: seq<Table>)
    requires e.Cell? && e.car == COND && Core(e) && NoSpecial(ts) && ts != []
    ensures Passes(Address(e, ts)) == Ok(Code(e, ts)) <==> Fine(e, ts)
    decreases e, 2
  {
    Apart();
    ResolveFree("cond", ts);
    AddressElements(e, ts);
    PassesElements(Address(e, ts));
    CompileClauses(e.cdr, ts);
    PassesCons(COND, AddressList(e.cdr, ts), COND, CodeClauses(e.cdr, ts));
  }

  lemma {:induction false} CompileAddressedList(l: Obj, ts: seq<Table>)
    requires CoreList(l) && NoSpecial(ts) && ts != []
    ensures PassesList(AddressList(l, ts)) == Ok(CodeList(l, ts)) <==> FineList(l, ts)
    decreases l, 2
  {
    if l.Cell? {
      CompileAddressed(l.car, ts);
      CompileAddressedList(l.cdr, ts);
      PassesCons(Address(l.car, ts), AddressList(l.cdr, ts), Code(l.car, ts), CodeList(l.cdr, ts));
    }
  }

  lemma {:induction false} CompileClauses(l: Obj, ts: seq<Table>)
    requires CoreClauses(l) && NoSpecial(ts) && ts != []
    ensures PassesList(AddressList(l, ts)) == Ok(CodeClauses(l, ts)) <==> FineClauses(l, ts)
    decreases l, 2
  {
    if l.Cell? {
      var code := if l.car.Cell? then CodeList(l.car, ts) else Code(l.car, ts);
      if l.car.Cell? {
        ClauseMet(l.car, ts);
        CompileForms(l.car, l.car, Address(l.car, ts), ts);
      } else if l.car.Sym? {
        ResolveShape(l.car.name, ts);
      }
      CompileClauses(l.cdr, ts);
      PassesCons(Address(l.car, ts), AddressList(l.cdr, ts), code, CodeClauses(l.cdr, ts));
    }
  }

  /** How the passes after the scan meet a list of forms. */
  predicate Met(l: Obj, met: Obj, j: Obj, ts: seq<Table>)
    requires l.Cell?
  {
    if l.car == QUOTE then j == met && j.Cell? && j.car == QUOTE
    else if l.car == QUASIQUOTE then j.Cell? && j.car == QUASIQUOTE && Count("quasiquote", j) <= Count("quasiquote", l)
    else j == AddressList(l, ts)
  }

  lemma ClauseMet(l: Obj, ts: seq<Table>)
    requires l.Cell?
    ensures Met(l, l, Address(l, ts), ts)
  {
    AddressCount(l, ts);
  }

  /** A body or a clause: a list of forms met by passes that expect a form. */
  lemma {:induction false} CompileForms(l: Obj, met: Obj, j: Obj, ts: seq<Table>)
    requires l.Cell? && CoreList(l) && NoSpecial(ts) && ts != [] && Met(l, met, j, ts)
    ensures Passes(j) == Ok(CodeList(l, ts)) <==> FineBody(l, met, ts)
    decreases l, 4
  {
    CoreListPlain(l);
    AddressHeads(l.car, ts);
    if l.car == QUOTE {
    } else if l.car == QUASIQUOTE {
      CodeListCount(l, ts);
      QuasiquoteLost(j, CodeList(l, ts));
    } else if l.car == TRY {
      CompileTry(l, ts);
    } else if l.car != LAMBDA && l.car != MACRO {
      CorePlain(l.car);
      AddressHeads(l.car, ts);
      PassesElements(j);
      CompileAddressedList(l, ts);
    }
  }

  /** A list headed by `try` is taken for a `try` form, and refused unless it has its shape. */
  lemma {:induction false} CompileTry(l: Obj, ts: seq<Table>)
    requires l.Cell? && l.car == TRY && CoreList(l) && NoSpecial(ts) && ts != []
    ensures Passes(AddressList(l, ts)) == Ok(CodeList(l, ts)) <==> TryShape(l, ts) && FineList(l, ts)
    decreases l, 3
  {
    ResolveFree("try", ts);
    TryMet(l, ts);
    if TryShape(l, ts) {
      TryExpands(l, ts);
      CompileAddressedList(l, ts);
    }
  }

  lemma TryMet(l: Obj, ts: seq<Table>)
    requires l.Cell? && l.car == TRY && CoreList(l) && NoSpecial(ts)
    ensures var j := AddressList(l, ts);
            TryShape(l, ts) <==> TryClause(j).Ok? && TryClause(j).value.cdr.Cell?
    ensures var j := AddressList(l, ts);
            TryShape(l, ts) ==> TryClause(j).value == AddressList(l.cdr.cdr.car, ts)
    ensures !TryShape(l, ts) ==> ExpandTry(AddressList(l, ts)).Err?
  {
    var j := AddressList(l, ts);
    assert CoreList(l.cdr) && j.cdr == AddressList(l.cdr, ts);
    if l.cdr.Cell? {
      assert CoreList(l.cdr.cdr) && j.cdr.cdr == AddressList(l.cdr.cdr, ts);
      if l.cdr.cdr.Cell? {
        ClauseHead(l.cdr.cdr.car, ts);
        assert j.cdr.cdr.cdr == AddressList(l.cdr.cdr.cdr, ts);
      }
    }
  }

  lemma ClauseHead(e: Obj, ts: seq<Table>)
    requires Core(e) && NoSpecial(ts)
    ensures Address(e, ts).Cell? <==> e.Cell?
    ensures e.Cell? ==> (Address(e, ts).car == CATCH <==> e.car == CATCH && Resolve("catch", ts) == CATCH)
    ensures e.Cell? && e.car == CATCH ==> Address(e, ts) == AddressList(e, ts)
  {
    Apart();
    CorePlain(e);
    if e.Sym? { ResolveShape(e.name, ts); }
    if e.Cell? && e.car != QUOTE {
      AddressElements(e, ts);
      CorePlain(e.car);
      AddressHeads(e.car, ts);
      if e.car.Sym? { ResolveShape(e.car.name, ts); }
    }
  }

  /** One that has its shape is expanded element by element like any other list. */
  lemma TryExpands(l: Obj, ts: seq<Table>)
    requires l.Cell? && l.car == TRY && CoreList(l) && NoSpecial(ts) && TryShape(l, ts)
    requires TryClause(AddressList(l, ts)).Ok? && TryClause(AddressList(l, ts)).value == AddressList(l.cdr.cdr.car, ts)
    ensures var j := AddressList(l, ts); SameCode(Passes(j), PassesList(j))
  {
    var j, clause := AddressList(l, ts), l.cdr.cdr.car;
    assert CoreList(l.cdr) && CoreList(l.cdr.cdr) && Core(clause);
    Apart();
    ResolveFree("try", ts);
    ClauseHead(clause, ts);
    CorePlain(clause);
    InertExpand(clause.cdr.car, ts);
    ClauseExpands(clause, ts);
    var params, handlers := Address(clause.cdr.car, ts), AddressList(clause.cdr.cdr, ts);
    assert AddressList(clause.cdr, ts) == Cell(params, handlers);
    assert AddressList(clause, ts) == Cell(CATCH, Cell(params, handlers));
    assert AddressList(l.cdr.cdr, ts) == Cell(AddressList(clause, ts), Nil);
    assert AddressList(l.cdr, ts) == Cell(Address(l.cdr.car, ts), AddressList(l.cdr.cdr, ts));
    assert j == Cell(TRY, Cell(Address(l.cdr.car, ts), Cell(Cell(CATCH, Cell(params, handlers)), Nil)));
    assert CoreList(clause) && CoreList(clause.cdr) && CoreList(clause.cdr.cdr);
    TryUnfolds(Address(l.cdr.car, ts), params, handlers);
  }

  predicate SameCode(a: Result<Obj>, b: Result<Obj>) {
    a == b || (a.Err? && b.Err?)
  }

  function ClauseOf(params: Obj, handlers: Result<Obj>): Result<Obj> {
    match handlers
    case Ok(h) => Ok(Cell(CATCH, Cell(params, h)))
    case Err(e) => Err(e)
  }

  /** Expanding a `try` form and expanding a list with the same elements, where the parameters
      and the clause expand as they should. */
  lemma TryUnfolds(a: Obj, params: Obj, handlers: Obj)
    requires handlers.Cell? || handlers.Nil?
    requires Expand(Cell(CATCH, Cell(params, handlers))) == ClauseOf(params, ExpandList(handlers))
    ensures var j := Cell(TRY, Cell(a, Cell(Cell(CATCH, Cell(params, handlers)), Nil)));
            SameCode(Passes(j), PassesList(j))
  {
    var clause := Cell(CATCH, Cell(params, handlers));
    var j := Cell(TRY, Cell(a, Cell(clause, Nil)));
    Apart();
    assert TryClause(j) == Ok(clause) && Expand(j) == ExpandTry(j);
    assert Expand(TRY) == Ok(TRY) && ExpandList(Nil) == Ok(Nil);
    var tried, rest := Expand(a), ExpandList(Cell(clause, Nil));
    if tried.Ok? && ExpandList(handlers).Ok? {
      var h := ExpandList(handlers).value;
      assert rest == Ok(Cell(Cell(CATCH, Cell(params, h)), Nil));
      assert ExpandList(Cell(a, Cell(clause, Nil))) == Ok(Cell(tried.value, rest.value));
      assert ExpandList(j) == Ok(Cell(TRY, Cell(tried.value, rest.value)));
      assert ExpandTry(j) == ExpandList(j);
    } else {
      assert ExpandTry(j).Err? && ExpandList(j.cdr).Err?;
    }
  }

  lemma ClauseExpands(clause: Obj, ts: seq<Table>)
    requires clause.Cell? && clause.car == CATCH && clause.cdr.Cell? && Resolve("catch", ts) == CATCH
    requires Address(clause, ts) == AddressList(clause, ts)
    requires Expand(Address(clause.cdr.car, ts)) == Ok(Address(clause.cdr.car, ts))
    ensures Expand(Address(clause, ts))
         == ClauseOf(Address(clause.cdr.car, ts), ExpandList(AddressList(clause.cdr.cdr, ts)))
  {
    var j := AddressList(clause, ts);
    Apart();
    var params, handlers := Address(clause.cdr.car, ts), AddressList(clause.cdr.cdr, ts);
    assert j == Cell(CATCH, Cell(params, handlers));
    assert ExpandList(j.cdr)
        == match ExpandList(handlers) case Ok(h) => Ok(Cell(params, h)) case Err(e) => Err(e);
    assert Expand(j) == ExpandList(j);
    assert Expand(CATCH) == Ok(CATCH);
  }

  /** `compileFunc` on a lambda whose parameters and body the outer scans have rewritten: the
      arity of the source's parameters, and the body's code under one table more, if and only
      if the body is fine. */
  lemma {:induction false} CompileFuncAddressed(ps: Obj, body: Obj, ts: seq<Table>)
    requires ValidParams(ps) && CoreList(body) && NoSpecial(ts)
    ensures CompileFunc(Cell(Address(ps, ts), AddressList(body, ts)))
         == Ok(FuncCode(Carity(ArgTable(ps).value), CodeList(body, [TableOf(ps)] + ts), ArgTable(ps).value.keys))
       <==> FineBody(body, AddressList(body, ts), [TableOf(ps)] + ts)
    decreases body, 5
  {
    var t := TableOf(ps);
    ValidTable(ps);
    ParamsTable(ps, ts);
    assert NoSpecial([t] + ts);
    var j := Scan(AddressList(body, ts), t);
    assert CompileFunc(Cell(Address(ps, ts), AddressList(body, ts))) == CodeOf(ps, Passes(j));
    if body.Cell? {
      BodyMet(body, ts, t);
      CompileForms(body, AddressList(body, ts), j, [t] + ts);
    }
  }

  function CodeOf(ps: Obj, body: Result<Obj>): Result<FuncCode>
    requires ValidParams(ps)
  {
    match body
    case Ok(b) => Ok(FuncCode(Carity(ArgTable(ps).value), b, ArgTable(ps).value.keys))
    case Err(e) => Err(e)
  }

  lemma ParamsTable(ps: Obj, ts: seq<Table>)
    requires ValidParams(ps) && NoSpecial(ts)
    ensures ArgTable(Address(ps, ts)) == ArgTable(ps)
  {
    ParamsPlain(ps);
    if ps.Cell? { AddressHeads(ps.car, ts); }
    assert Address(ps, ts) == AddressList(ps, ts);
    ParamsAddressed(ps, ts, NO_ARGS);
  }

  /** What the scan of the lambda itself makes of a body that the outer scans went through
      element by element. */
  lemma BodyMet(body: Obj, ts: seq<Table>, t: Table)
    requires body.Cell? && CoreList(body) && NoSpecial(ts) && t.Keys !! RESERVED
    ensures Met(body, AddressList(body, ts), Scan(AddressList(body, ts), t), [t] + ts)
  {
    CoreListPlain(body);
    AddressHeads(body.car, ts);
    ScanAddressedList(body, ts, t);
    AddressListCount(body, ts);
    ScanCount("quasiquote", AddressList(body, ts), t);
  }

  lemma {:induction false} AddressNone(e: Obj)
    ensures Address(e, []) == e
    decreases e, 1
  {
    if e.Cell? && e.car != QUOTE {
      if e.car == QUASIQUOTE { AddressQQNone(e.cdr, 0); } else { AddressListNone(e); }
    }
  }

  lemma {:induction false} AddressListNone(e: Obj)
    ensures AddressList(e, []) == e
    decreases e, 0
  {
    if e.Cell? {
      AddressNone(e.car);
      AddressListNone(e.cdr);
    }
  }

  lemma {:induction false} AddressQQNone(e: Obj, level: nat)
    ensures AddressQQ(e, [], level) == e
    decreases e, 2
  {
    if e.Cell? {
      if e.car == QUASIQUOTE {
        AddressQQNone(e.cdr, level + 1);
      } else if e.car == UNQUOTE || e.car == UNQUOTE_SPLICING {
        if level == 0 { AddressNone(e.cdr); } else { AddressQQNone(e.cdr, level - 1); }
      } else {
        AddressQQListNone(e, level);
      }
    }
  }

  lemma {:induction false} AddressQQListNone(e: Obj, level: nat)
    ensures AddressQQList(e, [], level) == e
    decreases e, 0
  {
    if e.Cell? {
      AddressQQNone(e.car, level);
      AddressQQListNone(e.cdr, level);
    }
  }

  /** A lambda read at the top level, of any nesting and shadowing: `compileFunc` replaces every
      name in it by the address its scopes give it if and only if its body is fine. */
  lemma CompileTopLevel(ps: Obj, body: Obj)
    requires ValidParams(ps) && CoreList(body)
    ensures CompileFunc(Cell(ps, body))
         == Ok(FuncCode(Carity(ArgTable(ps).value), CodeList(body, [TableOf(ps)]), ArgTable(ps).value.keys))
       <==> FineBody(body, body, [TableOf(ps)])
  {
    AddressNone(ps);
    AddressListNone(body);
    CompileFuncAddressed(ps, body, []);
    assert [TableOf(ps)] + [] == [TableOf(ps)];
  }

  lemma OneParam(s: string)
    requires s !in RESERVED
    ensures ValidParams(Cell(Sym(s), Nil))
    ensures ArgTable(Cell(Sym(s), Nil)) == Ok(Args(map[s := 0], 1, false, false, []))
  {
    assert Sym(s) != KEY && Sym(s) != REST by { assert s != "&key" && s != "&rest"; }
    var a := Args(map[s := 0], 1, false, false, []);
    assert AddArg(NO_ARGS, Sym(s)) == Ok(a);
    assert ScanParams(Cell(Sym(s), Nil), NO_ARGS) == ScanParams(Nil, a);
  }

  /** A body headed by `quote` keeps the addresses of the outer scans, and these may be right by
      chance: so it is in `(lambda (s) (lambda (s) quote s))`, although `s` is not free. */
  lemma QuoteRightByChance(s: string)
    requires s !in RESERVED
    ensures var ps := Cell(Sym(s), Nil);
            var inner := Cell(QUOTE, Cell(Sym(s), Nil));
            var e := Cell(LAMBDA, Cell(ps, inner));
            && Core(e) && Fine(e, [map[s := 0]])
            && CodeList(inner.cdr, [map[s := 0]] + [map[s := 0]]) != inner.cdr
  {
    var ps := Cell(Sym(s), Nil);
    var inner := Cell(QUOTE, Cell(Sym(s), Nil));
    var t: Table := map[s := 0];
    Apart();
    OneParam(s);
    assert ArgTable(ps).value.table == t;
    assert "quote" in RESERVED && "quote" !in t;
    ResolveQuote(t);
    assert Resolve(s, [t]) == Resolve(s, [t] + [t]) == Arg(0, 0, s);
    assert Address(Sym(s), [t]) == Code(Sym(s), [t] + [t]) == Arg(0, 0, s);
    assert AddressList(inner.cdr, [t]) == Cell(Arg(0, 0, s), Nil);
    assert CodeList(inner.cdr, [t] + [t]) == Cell(Arg(0, 0, s), Nil);
    assert AddressList(inner, [t]) == CodeList(inner, [t] + [t]);
    CoreTwo(QUOTE, Sym(s));
  }

  /** What is compiled of `(lambda (s) lambda (x) x)`: a parameter list and a body that is headed
      by `lambda` and has the parameter list of one after it. */
  function LambdaInBody(s: string, x: string): Obj {
    Cell(Cell(Sym(s), Nil), Cell(LAMBDA, Cell(Cell(Sym(x), Nil), Cell(Sym(x), Nil))))
  }

  /** It compiles, to a function whose code is no list but a function. */
  lemma LambdaInBodyCompiles(s: string, x: string)
    requires s !in RESERVED && x !in RESERVED && s != x
    ensures CompileFunc(LambdaInBody(s, x)) == Ok(FuncCode(1, Lambda(1, Cell(Arg(0, 0, x), Nil), []), []))
  {
    var ps, body, inner := Cell(Sym(x), Nil), Cell(Sym(x), Nil), Cell(Cell(Sym(x), Nil), Cell(Sym(x), Nil));
    var t: Table := map[s := 0];
    Apart();
    OneParam(s);
    assert "lambda" in RESERVED && "lambda" !in t;
    NameScanned(x, t);
    assert Scan(LAMBDA, t) == LAMBDA && ScanList(Nil, t) == Nil;
    assert ScanList(Cell(ps, Nil), t) == Cell(ps, Nil);
    assert ScanList(inner, t) == Cell(ps, ScanList(body, t));
    assert Scan(Cell(LAMBDA, inner), t) == Cell(LAMBDA, ScanList(inner, t));
    LastCompiles(x);
  }

  /** A name that a scan does not know stays, alone in a list too. */
  lemma NameScanned(x: string, t: Table)
    requires x !in RESERVED && x !in t
    ensures Scan(Cell(Sym(x), Nil), t) == ScanList(Cell(Sym(x), Nil), t) == Cell(Sym(x), Nil)
  {
    assert Sym(x) != QUOTE && Sym(x) != QUASIQUOTE by { assert "quote" in RESERVED && "quasiquote" in RESERVED; }
    assert ScanList(Nil, t) == Nil && Scan(Sym(x), t) == Sym(x);
  }

  /** `(lambda (x) x)` compiles to the address of its parameter. */
  lemma LastCompiles(x: string)
    requires x !in RESERVED
    ensures CompileFunc(Cell(Cell(Sym(x), Nil), Cell(Sym(x), Nil))) == Ok(FuncCode(1, Cell(Arg(0, 0, x), Nil), []))
  {
    var t: Table := map[x := 0];
    var code := Cell(Arg(0, 0, x), Nil);
    OneParam(x);
    assert Sym(x) != QUOTE && Sym(x) != QUASIQUOTE by { assert "quote" in RESERVED && "quasiquote" in RESERVED; }
    assert ScanList(Nil, t) == Nil && Scan(Sym(x), t) == Arg(0, 0, x);
    assert Scan(Cell(Sym(x), Nil), t) == code;
    assert ExpandList(Nil) == Ok(Nil) && ExpandList(code) == Ok(code) && Expand(code) == Ok(code);
    assert CompileInnersList(Nil) == Ok(Nil) && CompileInnersList(code) == Ok(code);
  }

  lemma CoreTwo(a: Obj, b: Obj)
    requires a.Sym? && b.Sym?
    ensures CoreList(Cell(a, Cell(b, Nil)))
  {
    assert Core(a) && Core(b) && CoreList(Nil) && CoreList(Cell(b, Nil));
  }

  /** A list headed by `lambda` with no parameter list after it is refused. */
  lemma LambdaRefused(j: Obj)
    requires j.Cell? && j.car == LAMBDA && j.cdr.Cell? && !j.cdr.car.Cell? && !j.cdr.car.Nil?
    ensures Passes(j) == Err(ArglistExpected)
  {
    Apart();
    assert CompileFunc(j.cdr) == Err(ArglistExpected);
  }

  lemma ResolveQuote(t: Table)
    requires "quote" !in t
    ensures Resolve("quote", [t]) == QUOTE && Resolve("quote", [t] + [t]) == QUOTE
  {
    assert ([t] + [t])[1..] == [t] && [t][1..] == [];
  }
}
