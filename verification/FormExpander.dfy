/** `expandMacros` on code without macros (`packages/interpreter/src/compile.ts`): what is left
    of it are quasiquotes, which it replaces by their expansion, and the `try` forms whose shape
    it checks. */
module FormExpander {
  import opened Wrappers
  import opened LispObjects
  import Quasiquote

  const CATCH := Sym("catch")

  // ----- how often a symbol stands in a form -----

  function Count(s: string, x: Obj): nat {
    match x
    case Sym(name) => if name == s then 1 else 0
    case Cell(car, cdr) => Count(s, car) + Count(s, cdr)
    case Lambda(_, body, _) => Count(s, body)
    case _ => 0
  }

  /** The symbols that expanding a template writes itself. */
  predicate Written(s: string) {
    s == "quote" || s == "list" || s == "cons" || s == "append"
  }

  lemma {:induction false} ConcatCount(s: string, x: Obj, y: Obj)
    ensures var z := Quasiquote.Concat(x, y); z.Some? ==> Count(s, z.value) == Count(s, x) + Count(s, y)
  {
    if x.Cell? { ConcatCount(s, x.cdr, y); }
  }

  lemma {:induction false} ConsConsCount(s: string, x: Obj, y: Obj)
    requires !Written(s)
    ensures var z := Quasiquote.ConsCons(x, y); z.Some? ==> Count(s, z.value) == Count(s, x) + Count(s, y)
  {
    if x.Cell? {
      ConsConsCount(s, x.cdr, y);
      var z := Quasiquote.ConsCons(x.cdr, y);
      if z.Some? { ThreeCount(s, Quasiquote.CONS, x.car, z.value); }
    }
  }

  lemma ThreeCount(s: string, head: Obj, a: Obj, b: Obj)
    requires head.Sym? && head.name != s
    ensures Count(s, Cell(head, Cell(a, Cell(b, Nil)))) == Count(s, a) + Count(s, b)
  {
    assert Count(s, Cell(b, Nil)) == Count(s, b);
    assert Count(s, Cell(a, Cell(b, Nil))) == Count(s, a) + Count(s, b);
  }

  lemma TwoCount(s: string, head: Obj, a: Obj)
    requires head.Sym? && head.name != s
    ensures Count(s, Cell(head, Cell(a, Nil))) == Count(s, a)
  {
    assert Count(s, Cell(a, Nil)) == Count(s, a);
  }

  lemma MergeCount(s: string, h: Obj, tcar: Obj)
    requires !Written(s) && Quasiquote.Mergeable(h, tcar)
    ensures var z := Quasiquote.Merge(h, tcar); z.Some? ==> Count(s, z.value) <= Count(s, h) + Count(s, tcar)
  {
    if tcar.Cell? && tcar.car == Quasiquote.LIST {
      ConcatCount(s, h, tcar.cdr);
    } else {
      ConsConsCount(s, h.cdr, tcar);
    }
  }

  lemma PutCount(s: string, h: Obj, t: Obj)
    requires !Written(s)
    ensures var z := Quasiquote.Put(h, t); z.Some? ==> Count(s, z.value) <= Count(s, h) + Count(s, t)
  {
    if t.Cell? && Quasiquote.Mergeable(h, t.car) { MergeCount(s, h, t.car); }
  }

  lemma {:induction false} Expand0Count(s: string, x: Obj, level: nat)
    requires !Written(s)
    ensures var z := Quasiquote.Expand0(x, level); z.Some? ==> Count(s, z.value) <= Count(s, x)
    decreases x, 1
  {
    if !x.Cell? {
      if x.Sym? { TwoCount(s, QUOTE, x); }
    } else if !(x.car == UNQUOTE && level == 0) {
      Expand1Count(s, x, level);
    }
  }

  lemma {:induction false} Expand1Count(s: string, x: Obj, level: nat)
    requires !Written(s)
    ensures var z := Quasiquote.Expand1(x, level); z.Some? ==> Count(s, z.value) <= Count(s, x)
    decreases x, 0
  {
    if !x.Cell? {
      if x.Sym? { TwoCount(s, QUOTE, x); }
      assert Count(s, Cell(Quasiquote.Quoted(x), Nil)) == Count(s, Quasiquote.Quoted(x));
    } else if !(x.car == UNQUOTE && level == 0) {
      var inner := if x.car == UNQUOTE then level - 1 else if x.car == QUASIQUOTE then level + 1 else level;
      Expand2Count(s, x.car, inner);
      Expand1Count(s, x.cdr, inner);
      var h, t := Quasiquote.Expand2(x.car, inner), Quasiquote.Expand1(x.cdr, inner);
      if h.Some? && t.Some? { PutCount(s, h.value, t.value); }
    }
  }

  lemma {:induction false} Expand2Count(s: string, y: Obj, level: nat)
    requires !Written(s)
    ensures var z := Quasiquote.Expand2(y, level); z.Some? ==> Count(s, z.value) <= Count(s, y)
    decreases y, 2
  {
    if y.Cell? && y.car == UNQUOTE && level == 0 {
    } else if y.Cell? && y.car == UNQUOTE_SPLICING && level == 0 {
    } else {
      var inner := if y.Cell? && (y.car == UNQUOTE || y.car == UNQUOTE_SPLICING) then level - 1
                   else if y.Cell? && y.car == QUASIQUOTE then level + 1 else level;
      Expand0Count(s, y, inner);
      var form := Quasiquote.Expand0(y, inner);
      if form.Some? { TwoCount(s, Quasiquote.LIST, form.value); }
    }
  }

  /** Expanding a template writes none of its symbols twice. */
  lemma TemplateCount(s: string, x: Obj)
    requires !Written(s)
    ensures var z := Quasiquote.Expand(x); z.Some? ==> Count(s, z.value) <= Count(s, x)
  {
    Expand0Count(s, x, 0);
  }

  lemma NotWritten()
    ensures !Written("quasiquote") && !Written("lambda")
  {
    assert |"quasiquote"| == 10 && |"lambda"| == 6 && |"quote"| == 5 && |"list"| == 4 && |"cons"| == 4;
    assert "lambda"[0] == 'l' && "append"[0] == 'a';
  }

  // ----- the expander -----

  function Expand(j: Obj): Result<Obj>
    decreases Count("quasiquote", j), j, 1
  {
    if !j.Cell? || j.car == QUOTE || j.car == LAMBDA || j.car == MACRO then Ok(j)
    else if j.car == QUASIQUOTE then
      match CdrCell(j)
      case Err(e) => Err(e)
      case Ok(d) =>
        if !d.Cell? || !d.cdr.Nil? then Err(BadQuasiquote)
        else match Quasiquote.Expand(d.car)
          case None => Err(PartMissing)
          case Some(z) =>
            TemplateSmaller(j);
            Expand(z)
    else if j.car == TRY then ExpandTry(j)
    else ExpandList(j)
  }

  lemma TemplateSmaller(j: Obj)
    requires j.Cell? && j.car == QUASIQUOTE && j.cdr.Cell? && j.cdr.cdr.Nil?
    ensures var z := Quasiquote.Expand(j.cdr.car); z.Some? ==> Count("quasiquote", z.value) < Count("quasiquote", j)
  {
    NotWritten();
    TemplateCount("quasiquote", j.cdr.car);
    assert Count("quasiquote", j) == 1 + Count("quasiquote", j.cdr);
  }

  lemma TryCount(s: string, j: Obj)
    requires j.Cell? && TryClause(j).Ok?
    ensures var clause := TryClause(j).value;
            Count(s, j) == Count(s, j.car) + Count(s, j.cdr.car) + Count(s, CATCH) + Count(s, clause.cdr)
  {
    assert Count(s, j.cdr) == Count(s, j.cdr.car) + Count(s, j.cdr.cdr);
  }

  /** `mapcar`: an atom in the last cdr is left alone. */
  function ExpandList(j: Obj): Result<Obj>
    decreases Count("quasiquote", j), j, 0
  {
    if !j.Cell? then Ok(j)
    else match Expand(j.car)
      case Err(e) => Err(e)
      case Ok(a) =>
        match ExpandList(j.cdr)
        case Err(e) => Err(e)
        case Ok(d) => Ok(Cell(a, d))
  }

  /** The form that is tried and the handlers are expanded, the parameters are not. */
  function ExpandTry(j: Obj): Result<Obj>
    requires j.Cell?
    decreases Count("quasiquote", j), j, 0
  {
    match TryClause(j)
    case Err(e) => Err(e)
    case Ok(clause) =>
      TryCount("quasiquote", j);
      match Expand(j.cdr.car)
      case Err(e) => Err(e)
      case Ok(tried) =>
        if clause.cdr.Nil? then Err(BadTry)
        else if !clause.cdr.Cell? then Err(ProperListExpected)
        else match CdrCell(clause.cdr)
          case Err(e) => Err(e)
          case Ok(handlers) =>
            match ExpandList(handlers)
            case Err(e) => Err(e)
            case Ok(expanded) =>
              Ok(Cell(TRY, Cell(tried, Cell(Cell(CATCH, Cell(clause.cdr.car, expanded)), Nil))))
  }

  /** The catch clause of a `try` of the one shape it may have. */
  function TryClause(j: Obj): (r: Result<Obj>)
    requires j.Cell?
    ensures r.Ok? ==> j.cdr.Cell? && j.cdr.cdr == Cell(r.value, Nil) && r.value.Cell? && r.value.car == CATCH
  {
    match CdrCell(j)
    case Err(e) => Err(e)
    case Ok(arg) =>
      if arg.Nil? then Err(BadTry)
      else match CdrCell(arg)
        case Err(e) => Err(e)
        case Ok(rest) =>
          if !rest.Cell? || !rest.cdr.Nil? || !rest.car.Cell? || rest.car.car != CATCH then Err(BadTry)
          else Ok(rest.car)
  }

  /** Expanding writes no symbol twice either, and takes the head off a quasiquote. */
  lemma {:induction false} ExpandCount(s: string, j: Obj)
    requires !Written(s)
    ensures Expand(j).Ok? ==> Count(s, Expand(j).value) <= Count(s, j)
    decreases Count("quasiquote", j), j, 1
  {
    if j.Cell? && j.car == QUASIQUOTE {
      if j.cdr.Cell? && j.cdr.cdr.Nil? { ExpandQuasiCount(s, j); }
    } else if j.Cell? && j.car == TRY {
      ExpandTryCount(s, j);
    } else if j.Cell? && j.car != QUOTE && j.car != LAMBDA && j.car != MACRO {
      ExpandListCount(s, j);
    }
  }

  lemma {:induction false} ExpandQuasiCount(s: string, j: Obj)
    requires !Written(s) && j.Cell? && j.car == QUASIQUOTE && j.cdr.Cell? && j.cdr.cdr.Nil?
    ensures Expand(j).Ok? ==> Count(s, Expand(j).value) <= Count(s, j.cdr)
    decreases Count("quasiquote", j), j, 0
  {
    var z := Quasiquote.Expand(j.cdr.car);
    if z.Some? {
      TemplateSmaller(j);
      TemplateCount(s, j.cdr.car);
      ExpandCount(s, z.value);
    }
  }

  lemma {:induction false} ExpandListCount(s: string, j: Obj)
    requires !Written(s)
    ensures ExpandList(j).Ok? ==> Count(s, ExpandList(j).value) <= Count(s, j)
    decreases Count("quasiquote", j), j, 0
  {
    if j.Cell? {
      ExpandCount(s, j.car);
      ExpandListCount(s, j.cdr);
    }
  }

  lemma {:induction false} ExpandTryCount(s: string, j: Obj)
    requires !Written(s) && j.Cell? && j.car == TRY
    ensures ExpandTry(j).Ok? ==> Count(s, ExpandTry(j).value) <= Count(s, j)
    decreases Count("quasiquote", j), j, 0
  {
    if ExpandTry(j).Ok? {
      var clause := TryClause(j).value;
      TryCount("quasiquote", j);
      TryCount(s, j);
      ExpandCount(s, j.cdr.car);
      ExpandListCount(s, clause.cdr.cdr);
      TryCount(s, ExpandTry(j).value);
    }
  }

  /** A quasiquote is replaced by code that holds one symbol `quasiquote` less. */
  lemma QuasiquoteGoes(j: Obj)
    requires j.Cell? && j.car == QUASIQUOTE && Expand(j).Ok?
    ensures Count("quasiquote", Expand(j).value) < Count("quasiquote", j)
  {
    NotWritten();
    ExpandQuasiCount("quasiquote", j);
  }
}
