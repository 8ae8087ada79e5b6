/** Expanding a quasiquoted template (`packages/interpreter/src/quasiquote.ts`), and what the
    expansion evaluates to. */
module Quasiquote {
  import opened LispObjects
  import opened Wrappers

  const LIST := Sym("list")
  const CONS := Sym("cons")
  const APPEND := Sym("append")

  // ----- the expander; None is where the source reads a part that is not there and throws -----

  function Expand(x: Obj): Option<Obj> {
    Expand0(x, 0)
  }

  function Quoted(x: Obj): Obj {
    if x.Sym? || x.Cell? then Cell(QUOTE, Cell(x, Nil)) else x
  }

  function Expand0(x: Obj, level: nat): Option<Obj>
    decreases x, 1
  {
    if !x.Cell? then Some(Quoted(x))
    else if x.car == UNQUOTE && level == 0 then if x.cdr.Cell? then Some(x.cdr.car) else None
    else
      match Expand1(x, level)
      case None => None
      case Some(t) =>
        if !t.Cell? then None
        else if t.car.Cell? && t.cdr.Nil? && (t.car.car == LIST || t.car.car == CONS) then Some(t.car)
        else Some(Cell(APPEND, t))
  }

  /** The arguments for `append`. */
  function Expand1(x: Obj, level: nat): Option<Obj>
    decreases x, 0
  {
    if !x.Cell? then Some(Cell(Quoted(x), Nil))
    else if x.car == UNQUOTE && level == 0 then Some(x.cdr)
    else
      var level := if x.car == UNQUOTE then level - 1 else if x.car == QUASIQUOTE then level + 1 else level;
      match (Expand2(x.car, level), Expand1(x.cdr, level))
      case (Some(h), Some(t)) => Put(h, t)
      case _ => None
  }

  /** One more argument in front of those there are, in place of an empty last one or as a part
      of the next where they merge. */
  function Put(h: Obj, t: Obj): Option<Obj> {
    if !t.Cell? then None
    else if t.car.Nil? && t.cdr.Nil? then Some(Cell(h, Nil))
    else if Mergeable(h, t.car) then
      match Merge(h, t.car)
      case None => None
      case Some(merged) => Some(Cell(merged, t.cdr))
    else Some(Cell(h, t))
  }

  predicate Mergeable(h: Obj, tcar: Obj) {
    h.Cell? && h.car == LIST && ((tcar.Cell? && tcar.car == LIST) || h.cdr.Cell?)
  }

  function Merge(h: Obj, tcar: Obj): Option<Obj>
    requires Mergeable(h, tcar)
  {
    if tcar.Cell? && tcar.car == LIST then Concat(h, tcar.cdr) else ConsCons(h.cdr, tcar)
  }

  function Concat(x: Obj, y: Obj): Option<Obj> {
    match x
    case Nil => Some(y)
    case Cell(car, cdr) => (match Concat(cdr, y) case None => None case Some(z) => Some(Cell(car, z)))
    case _ => None
  }

  function ConsCons(x: Obj, y: Obj): Option<Obj> {
    match x
    case Nil => Some(y)
    case Cell(car, cdr) =>
      (match ConsCons(cdr, y) case None => None case Some(z) => Some(Cell(CONS, Cell(car, Cell(z, Nil)))))
    case _ => None
  }

  /** One element, as a form that evaluates to the list it contributes. */
  function Expand2(y: Obj, level: nat): Option<Obj>
    decreases y, 2
  {
    if y.Cell? && y.car == UNQUOTE && level == 0 then Some(Cell(LIST, y.cdr))
    else if y.Cell? && y.car == UNQUOTE_SPLICING && level == 0 then if y.cdr.Cell? then Some(y.cdr.car) else None
    else
      var level := if y.Cell? && (y.car == UNQUOTE || y.car == UNQUOTE_SPLICING) then level - 1
                   else if y.Cell? && y.car == QUASIQUOTE then level + 1 else level;
      match Expand0(y, level)
      case None => None
      case Some(form) => Some(Cell(LIST, Cell(form, Nil)))
  }

  // ----- evaluation: these four heads, and any other form by whatever `base` does -----

  datatype Out<S> = Out(r: Result<Obj>, s: S)

  type Base<!S> = (Obj, S) -> Out<S>

  const NOT_A_LIST := BuiltinFailed("append: not a list")

  /** `_append`: it copies `x` and fails where `x` ends in an atom. */
  function Append(x: Obj, y: Obj): Result<Obj> {
    match x
    case Nil => Ok(y)
    case Cell(car, cdr) => (match Append(cdr, y) case Ok(z) => Ok(Cell(car, z)) case Err(e) => Err(e))
    case _ => Err(NOT_A_LIST)
  }

  function Eval<S>(x: Obj, s: S, base: Base<S>): Out<S>
    decreases x, 1
  {
    if !x.Cell? then if Literal(x) && !x.Sym? then Out(Ok(x), s) else base(x, s)
    else if x.car == LIST then
      var vals := EvalArgs(x.cdr, s, base);
      (match vals.0 case Ok(vs) => Out(Ok(ToList(vs)), vals.1) case Err(e) => Out(Err(e), vals.1))
    else if x.car == CONS && x.cdr.Cell? && x.cdr.cdr.Cell? && x.cdr.cdr.cdr.Nil? then
      var first := Eval(x.cdr.car, s, base);
      if first.r.Err? then first else
        var second := Eval(x.cdr.cdr.car, first.s, base);
        if second.r.Err? then second else Out(Ok(Cell(first.r.value, second.r.value)), second.s)
    else if x.car == APPEND then EvalAppend(x.cdr, s, base)
    else if x.car == QUOTE && x.cdr.Cell? && x.cdr.cdr.Nil? then Out(Ok(x.cdr.car), s)
    else base(x, s)
  }

  function EvalArgs<S>(args: Obj, s: S, base: Base<S>): (Result<seq<Obj>>, S)
    decreases args, 0
  {
    if args.Nil? then (Ok([]), s)
    else if !args.Cell? then (Err(ProperListExpected), s)
    else
      var first := Eval(args.car, s, base);
      if first.r.Err? then (Err(first.r.error), first.s) else
        var rest := EvalArgs(args.cdr, first.s, base);
        (match rest.0 case Ok(vs) => (Ok([first.r.value] + vs), rest.1) case Err(e) => (Err(e), rest.1))
  }

  /** `(append x)` is `x`, and `(append x . y)` appends `x` to `(append . y)`. */
  function EvalAppend<S>(args: Obj, s: S, base: Base<S>): Out<S>
    decreases args, 0
  {
    if !args.Cell? then Out(Err(ArityNotMatched), s)
    else
      var first := Eval(args.car, s, base);
      if args.cdr.Nil? || first.r.Err? then first else
        var rest := EvalAppend(args.cdr, first.s, base);
        if rest.r.Err? then rest else Out(Append(first.r.value, rest.r.value), rest.s)
  }

  // ----- the meaning of a template: its holes filled -----

  predicate Literal(x: Obj) {
    x.Nil? || x.True? || x.Num? || x.Str? || x.Key? || x.Sym? || x.Closure? || x.Builtin?
  }

  /** A form that the expander may take apart: a call of `list` must be a proper list. */
  predicate Spliceable(form: Obj) {
    form.Cell? && form.car == LIST ==> Proper(form.cdr)
  }

  /** Templates with no quasiquote inside: atoms, lists of elements, and holes. A hole in
      element position may hold any number of forms; one in tail position at least one. */
  predicate Template(x: Obj)
    decreases x, 1
  {
    if x.Cell? && x.car == UNQUOTE then x.cdr.Cell? else Spine(x)
  }

  predicate Spine(x: Obj)
    decreases x, 0
  {
    if !x.Cell? then Literal(x)
    else if x.car == UNQUOTE then x.cdr.Cell? && Proper(x.cdr)
    else x.car != QUASIQUOTE && Element(x.car) && Spine(x.cdr)
  }

  predicate Element(y: Obj)
    decreases y, 2
  {
    if y.Cell? && y.car == UNQUOTE then Proper(y.cdr)
    else if y.Cell? && y.car == UNQUOTE_SPLICING then y.cdr.Cell? && Spliceable(y.cdr.car)
    else Template(y)
  }

  /** The template with its holes filled, from left to right. */
  function Fill<S>(x: Obj, s: S, base: Base<S>): Out<S>
    requires Template(x)
    decreases x, 1
  {
    if x.Cell? && x.car == UNQUOTE then Eval(x.cdr.car, s, base) else FillSpine(x, s, base)
  }

  /** Nothing is left to come, as the source sees it: the last splice is then not copied. */
  predicate Ends(x: Obj) {
    || x.Nil?
    || (x.Cell? && x.car == UNQUOTE && x.cdr == Cell(Nil, Nil))
    || (x.Cell? && x.car.Cell? && x.car.car == UNQUOTE_SPLICING && x.car.cdr.Cell? && x.car.cdr.car.Nil? && Ends(x.cdr))
  }

  function FillSpine<S>(x: Obj, s: S, base: Base<S>): Out<S>
    requires Spine(x)
    decreases x, 0
  {
    if !x.Cell? then Out(Ok(x), s)
    else if x.car == UNQUOTE then EvalAppend(x.cdr, s, base)
    else
      var piece := FillElement(x.car, s, base);
      if piece.r.Err? || Ends(x.cdr) then piece else
        var rest := FillSpine(x.cdr, piece.s, base);
        if rest.r.Err? then rest else Out(Append(piece.r.value, rest.r.value), rest.s)
  }

  /** The list of what an element contributes: the values of its hole, what it splices, or the
      one datum it is. */
  function FillElement<S>(y: Obj, s: S, base: Base<S>): Out<S>
    requires Element(y)
    decreases y, 2
  {
    if y.Cell? && y.car == UNQUOTE then
      var vals := EvalArgs(y.cdr, s, base);
      (match vals.0 case Ok(vs) => Out(Ok(ToList(vs)), vals.1) case Err(e) => Out(Err(e), vals.1))
    else if y.Cell? && y.car == UNQUOTE_SPLICING then Eval(y.cdr.car, s, base)
    else
      var one := Fill(y, s, base);
      if one.r.Err? then one else Out(Ok(Cell(one.r.value, Nil)), one.s)
  }

  // ----- the expansion means the template -----

  lemma {:induction false} AppendList(vs: seq<Obj>, ws: seq<Obj>, y: Obj)
    ensures Append(ToList(vs + ws), y)
         == (match Append(ToList(ws), y) case Ok(z) => Append(ToList(vs), z) case Err(e) => Err(e))
    ensures Append(ToList(vs), ToList(ws)) == Ok(ToList(vs + ws))
    ensures Append(ToList(ws), y).Ok?
  {
    ListAppends(ws, y);
    if vs == [] {
      assert vs + ws == ws;
    } else {
      assert (vs + ws)[0] == vs[0] && (vs + ws)[1..] == vs[1..] + ws;
      AppendList(vs[1..], ws, y);
      ListAppends(vs[1..], Append(ToList(ws), y).value);
    }
  }

  lemma {:induction false} ListAppends(vs: seq<Obj>, y: Obj)
    ensures Append(ToList(vs), y).Ok?
  {
    if vs != [] { ListAppends(vs[1..], y); }
  }

  lemma Joined(x: Obj, ys: seq<Obj>, zs: seq<Obj>)
    ensures [x] + (ys + zs) == [x] + ys + zs
  {
  }

  lemma {:induction false} ConcatArgs<S>(x: Obj, y: Obj, s: S, base: Base<S>)
    requires Proper(x)
    ensures Concat(x, y).Some?
    ensures var first := EvalArgs(x, s, base);
            var both := EvalArgs(Concat(x, y).value, s, base);
            match first.0
            case Err(e) => both == first
            case Ok(vs) =>
              var second := EvalArgs(y, first.1, base);
              both == match second.0 case Ok(ws) => (Ok(vs + ws), second.1) case Err(e) => second
  {
    if x.Cell? {
      var first := Eval(x.car, s, base);
      ConcatArgs(x.cdr, y, first.s, base);
      if first.r.Ok? {
        var rest := EvalArgs(x.cdr, first.s, base);
        if rest.0.Ok? {
          var second := EvalArgs(y, rest.1, base);
          if second.0.Ok? {
            Joined(first.r.value, rest.0.value, second.0.value);
          }
        }
      }
    } else {
      var second := EvalArgs(y, s, base);
      if second.0.Ok? { assert [] + second.0.value == second.0.value; }
    }
  }

  lemma EvalCons<S>(a: Obj, b: Obj, s: S, base: Base<S>)
    ensures Eval(Cell(CONS, Cell(a, Cell(b, Nil))), s, base) ==
            var first := Eval(a, s, base);
            if first.r.Err? then first else
              var second := Eval(b, first.s, base);
              if second.r.Err? then second else Out(Ok(Cell(first.r.value, second.r.value)), second.s)
  {
    assert CONS != LIST by { assert CONS.name[0] != LIST.name[0]; }
  }

  /** Nested conses evaluate their elements in order and then the tail. */
  lemma {:induction false} ConsConsEval<S>(x: Obj, y: Obj, s: S, base: Base<S>)
    requires Proper(x)
    ensures ConsCons(x, y).Some?
    ensures var first := EvalArgs(x, s, base);
            var both := Eval(ConsCons(x, y).value, s, base);
            match first.0
            case Err(e) => both == Out(Err(e), first.1)
            case Ok(vs) =>
              var second := Eval(y, first.1, base);
              both == if second.r.Err? then second else Out(Append(ToList(vs), second.r.value), second.s)
  {
    if x.Cell? {
      var first := Eval(x.car, s, base);
      ConsConsEval(x.cdr, y, first.s, base);
      EvalCons(x.car, ConsCons(x.cdr, y).value, s, base);
      if first.r.Ok? { PrependArg(first.r.value, x.cdr, y, first.s, base); }
    }
  }

  lemma PrependArg<S>(v: Obj, rest: Obj, y: Obj, s: S, base: Base<S>)
    ensures EvalArgs(rest, s, base).0.Ok? ==>
              var vs := EvalArgs(rest, s, base).0.value;
              var second := Eval(y, EvalArgs(rest, s, base).1, base);
              && (second.r.Ok? ==>
                    var longer, shorter := Append(ToList([v] + vs), second.r.value), Append(ToList(vs), second.r.value);
                    longer.Ok? && shorter.Ok? && longer.value == Cell(v, shorter.value))
  {
    var vals := EvalArgs(rest, s, base);
    if vals.0.Ok? {
      var second := Eval(y, vals.1, base);
      assert ([v] + vals.0.value)[1..] == vals.0.value;
      if second.r.Ok? {
        ListAppends(vals.0.value, second.r.value);
      }
    }
  }

  lemma EvalQuoted<S>(x: Obj, s: S, base: Base<S>)
    requires Literal(x)
    ensures Eval(Quoted(x), s, base) == Out(Ok(x), s)
  {
    assert QUOTE.name[0] != LIST.name[0] && QUOTE.name[0] != CONS.name[0] && QUOTE.name[0] != APPEND.name[0];
  }

  lemma EvalAppendForm<S>(args: Obj, s: S, base: Base<S>)
    ensures Eval(Cell(APPEND, args), s, base) == EvalAppend(args, s, base)
  {
    assert APPEND.name[0] != LIST.name[0] && APPEND.name[0] != CONS.name[0];
  }

  /** `append` of two values and more: it fails exactly where the nested calls fail. */
  lemma {:induction false} AppendTwice(vs: seq<Obj>, v: Obj, r: Obj)
    ensures Append(ToList(vs), v).Ok?
    ensures Append(Append(ToList(vs), v).value, r) ==
            match Append(v, r) case Ok(z) => Append(ToList(vs), z) case Err(e) => Err(e)
  {
    ListAppends(vs, v);
    if vs != [] {
      AppendTwice(vs[1..], v, r);
      ListAppends(vs[1..], v);
      if Append(v, r).Ok? { ListAppends(vs[1..], Append(v, r).value); }
    }
  }

  /** Merging an argument into the one after it changes neither what `append` gives nor what is
      evaluated when. */
  lemma MergeMeans<S>(h: Obj, t: Obj, s: S, base: Base<S>)
    requires h.Cell? && Proper(h.cdr) && t.Cell? && Mergeable(h, t.car)
    ensures Merge(h, t.car).Some?
    ensures EvalAppend(Cell(Merge(h, t.car).value, t.cdr), s, base) == EvalAppend(Cell(h, t), s, base)
  {
    if t.car.Cell? && t.car.car == LIST { ConcatMeans(h, t, s, base); } else { ConsConsMeans(h, t, s, base); }
  }

  lemma ConcatMeans<S>(h: Obj, t: Obj, s: S, base: Base<S>)
    requires h.Cell? && h.car == LIST && Proper(h.cdr) && t.Cell? && t.car.Cell? && t.car.car == LIST
    ensures Concat(h, t.car.cdr).Some?
    ensures EvalAppend(Cell(Concat(h, t.car.cdr).value, t.cdr), s, base) == EvalAppend(Cell(h, t), s, base)
  {
    ConcatEval(h, t.car, s, base);
    var first := EvalArgs(h.cdr, s, base);
    if first.0.Ok? && EvalArgs(t.car.cdr, first.1, base).0.Ok? { ConcatJoined(h, t, s, base); }
  }

  lemma ConcatJoined<S>(h: Obj, t: Obj, s: S, base: Base<S>)
    requires h.Cell? && h.car == LIST && Proper(h.cdr) && t.Cell? && t.car.Cell? && t.car.car == LIST
    requires EvalArgs(h.cdr, s, base).0.Ok? && EvalArgs(t.car.cdr, EvalArgs(h.cdr, s, base).1, base).0.Ok?
    ensures Concat(h, t.car.cdr).Some?
    ensures EvalAppend(Cell(Concat(h, t.car.cdr).value, t.cdr), s, base) == EvalAppend(Cell(h, t), s, base)
  {
    ConcatEval(h, t.car, s, base);
    var first := EvalArgs(h.cdr, s, base);
    var second := EvalArgs(t.car.cdr, first.1, base);
    var rest := EvalAppend(t.cdr, second.1, base);
    AppendList(first.0.value, second.0.value, if rest.r.Ok? then rest.r.value else Nil);
    AppendedTwice(h, t, s, base);
  }

  lemma ConcatEval<S>(h: Obj, g: Obj, s: S, base: Base<S>)
    requires h.Cell? && h.car == LIST && Proper(h.cdr) && g.Cell? && g.car == LIST
    ensures Concat(h, g.cdr).Some?
    ensures var first := EvalArgs(h.cdr, s, base);
            Eval(Concat(h, g.cdr).value, s, base) ==
              if first.0.Err? then Eval(h, s, base) else
                var second := EvalArgs(g.cdr, first.1, base);
                if second.0.Err? then Eval(g, first.1, base)
                else Out(Ok(ToList(first.0.value + second.0.value)), second.1)
  {
    ConcatArgs(h.cdr, g.cdr, s, base);
  }

  lemma AppendedTwice<S>(h: Obj, t: Obj, s: S, base: Base<S>)
    requires h.Cell? && h.car == LIST && t.Cell? && t.car.Cell? && t.car.car == LIST
    requires EvalArgs(h.cdr, s, base).0.Ok?
    requires EvalArgs(t.car.cdr, EvalArgs(h.cdr, s, base).1, base).0.Ok?
    ensures var first := EvalArgs(h.cdr, s, base);
            var second := EvalArgs(t.car.cdr, first.1, base);
            var rest := EvalAppend(t.cdr, second.1, base);
            EvalAppend(Cell(h, t), s, base) ==
              if t.cdr.Nil? then Out(Append(ToList(first.0.value), ToList(second.0.value)), second.1)
              else if rest.r.Err? then rest
              else match Append(ToList(second.0.value), rest.r.value)
                   case Ok(z) => Out(Append(ToList(first.0.value), z), rest.s)
                   case Err(e) => Out(Err(e), rest.s)
  {
    EvalList(h.cdr, s, base);
    var first := EvalArgs(h.cdr, s, base);
    EvalList(t.car.cdr, first.1, base);
    var second := EvalArgs(t.car.cdr, first.1, base);
    assert EvalAppend(t, first.1, base) ==
      if t.cdr.Nil? then Out(Ok(ToList(second.0.value)), second.1)
      else var rest := EvalAppend(t.cdr, second.1, base);
           if rest.r.Err? then rest else Out(Append(ToList(second.0.value), rest.r.value), rest.s);
  }

  lemma EvalList<S>(args: Obj, s: S, base: Base<S>)
    ensures Eval(Cell(LIST, args), s, base) ==
            var vals := EvalArgs(args, s, base);
            match vals.0 case Ok(vs) => Out(Ok(ToList(vs)), vals.1) case Err(e) => Out(Err(e), vals.1)
  {
  }

  lemma ConsConsMeans<S>(h: Obj, t: Obj, s: S, base: Base<S>)
    requires h.Cell? && h.car == LIST && Proper(h.cdr) && t.Cell?
    ensures ConsCons(h.cdr, t.car).Some?
    ensures EvalAppend(Cell(ConsCons(h.cdr, t.car).value, t.cdr), s, base) == EvalAppend(Cell(h, t), s, base)
  {
    var first := EvalArgs(h.cdr, s, base);
    if first.0.Ok? && Eval(t.car, first.1, base).r.Ok? {
      ConsConsJoined(h, t, s, base);
    } else {
      ConsConsFails(h, t, s, base);
    }
  }

  lemma ConsConsFails<S>(h: Obj, t: Obj, s: S, base: Base<S>)
    requires h.Cell? && h.car == LIST && Proper(h.cdr) && t.Cell?
    requires EvalArgs(h.cdr, s, base).0.Ok? ==> Eval(t.car, EvalArgs(h.cdr, s, base).1, base).r.Err?
    ensures ConsCons(h.cdr, t.car).Some?
    ensures EvalAppend(Cell(ConsCons(h.cdr, t.car).value, t.cdr), s, base) == EvalAppend(Cell(h, t), s, base)
  {
    ConsConsEval(h.cdr, t.car, s, base);
    EvalList(h.cdr, s, base);
  }

  lemma ConsConsJoined<S>(h: Obj, t: Obj, s: S, base: Base<S>)
    requires h.Cell? && h.car == LIST && Proper(h.cdr) && t.Cell? && EvalArgs(h.cdr, s, base).0.Ok?
    requires Eval(t.car, EvalArgs(h.cdr, s, base).1, base).r.Ok?
    ensures ConsCons(h.cdr, t.car).Some?
    ensures EvalAppend(Cell(ConsCons(h.cdr, t.car).value, t.cdr), s, base) == EvalAppend(Cell(h, t), s, base)
  {
    var first := EvalArgs(h.cdr, s, base);
    var second := Eval(t.car, first.1, base);
    var rest := EvalAppend(t.cdr, second.s, base);
    AppendTwice(first.0.value, second.r.value, if rest.r.Ok? then rest.r.value else Nil);
    ConsedList(h, t, s, base);
    AppendedList(h, t, s, base);
  }

  lemma ConsedList<S>(h: Obj, t: Obj, s: S, base: Base<S>)
    requires h.Cell? && h.car == LIST && Proper(h.cdr) && t.Cell? && EvalArgs(h.cdr, s, base).0.Ok?
    requires Eval(t.car, EvalArgs(h.cdr, s, base).1, base).r.Ok?
    ensures ConsCons(h.cdr, t.car).Some?
    ensures var first := EvalArgs(h.cdr, s, base);
            var second := Eval(t.car, first.1, base);
            var both := Append(ToList(first.0.value), second.r.value);
            var rest := EvalAppend(t.cdr, second.s, base);
            EvalAppend(Cell(ConsCons(h.cdr, t.car).value, t.cdr), s, base) ==
              if t.cdr.Nil? || both.Err? then Out(both, second.s)
              else if rest.r.Err? then rest
              else Out(Append(both.value, rest.r.value), rest.s)
  {
    ConsConsEval(h.cdr, t.car, s, base);
  }

  lemma AppendedList<S>(h: Obj, t: Obj, s: S, base: Base<S>)
    requires h.Cell? && h.car == LIST && t.Cell? && EvalArgs(h.cdr, s, base).0.Ok?
    requires Eval(t.car, EvalArgs(h.cdr, s, base).1, base).r.Ok?
    ensures var first := EvalArgs(h.cdr, s, base);
            var second := Eval(t.car, first.1, base);
            var rest := EvalAppend(t.cdr, second.s, base);
            EvalAppend(Cell(h, t), s, base) ==
              if t.cdr.Nil? then Out(Append(ToList(first.0.value), second.r.value), second.s)
              else if rest.r.Err? then rest
              else match Append(second.r.value, rest.r.value)
                   case Ok(z) => Out(Append(ToList(first.0.value), z), rest.s)
                   case Err(e) => Out(Err(e), rest.s)
  {
    EvalList(h.cdr, s, base);
    var first := EvalArgs(h.cdr, s, base);
    var second := Eval(t.car, first.1, base);
    assert EvalAppend(t, first.1, base) ==
      if t.cdr.Nil? then second
      else var rest := EvalAppend(t.cdr, second.s, base);
           if rest.r.Err? then rest else Out(Append(second.r.value, rest.r.value), rest.s);
  }

  lemma EvalOne<S>(form: Obj, s: S, base: Base<S>)
    ensures var one := Eval(form, s, base);
            Eval(Cell(LIST, Cell(form, Nil)), s, base)
            == if one.r.Err? then one else Out(Ok(Cell(one.r.value, Nil)), one.s)
  {
    var one := Eval(form, s, base);
    assert EvalArgs(Nil, one.s, base) == (Ok([]), one.s);
    if one.r.Ok? {
      assert [one.r.value] + [] == [one.r.value] && [one.r.value][1..] == [];
      assert ToList([one.r.value]) == Cell(one.r.value, Nil);
    }
  }

  lemma {:induction false} SpineMeans<S>(x: Obj, s: S, base: Base<S>)
    requires Spine(x)
    ensures var t := Expand1(x, 0);
            && t.Some? && t.value.Cell? && (t.value == Cell(Nil, Nil) <==> Ends(x))
            && EvalAppend(t.value, s, base) == FillSpine(x, s, base)
    decreases x, 0
  {
    if !x.Cell? {
      EvalQuoted(x, s, base);
    } else if x.car != UNQUOTE {
      var piece := FillElement(x.car, s, base);
      ElementMeans(x.car, s, base);
      SpineMeans(x.cdr, piece.s, base);
      SpineCons(x, Expand2(x.car, 0).value, Expand1(x.cdr, 0).value, s, base);
    }
  }

  /** One element in front of a list whose arguments are there. */
  lemma SpineCons<S>(x: Obj, h: Obj, t: Obj, s: S, base: Base<S>)
    requires x.Cell? && x.car != UNQUOTE && Spine(x) && Expand2(x.car, 0) == Some(h) && Expand1(x.cdr, 0) == Some(t)
    requires Spliceable(h) && (h.Nil? <==> x.car.Cell? && x.car.car == UNQUOTE_SPLICING && x.car.cdr.car.Nil?)
    requires t.Cell? && (t == Cell(Nil, Nil) <==> Ends(x.cdr))
    requires Eval(h, s, base) == FillElement(x.car, s, base)
    requires EvalAppend(t, Eval(h, s, base).s, base) == FillSpine(x.cdr, Eval(h, s, base).s, base)
    ensures var u := Expand1(x, 0);
            && u.Some? && u.value.Cell? && (u.value == Cell(Nil, Nil) <==> Ends(x))
            && EvalAppend(u.value, s, base) == FillSpine(x, s, base)
  {
    assert Expand1(x, 0) == Put(h, t);
    if !Ends(x.cdr) { PutMeans(h, t, s, base); }
  }

  lemma PutMeans<S>(h: Obj, t: Obj, s: S, base: Base<S>)
    requires Spliceable(h) && t.Cell? && t != Cell(Nil, Nil)
    ensures var u := Put(h, t);
            u.Some? && u.value.Cell? && u.value != Cell(Nil, Nil)
            && EvalAppend(u.value, s, base) == EvalAppend(Cell(h, t), s, base)
  {
    if Mergeable(h, t.car) {
      MergeMeans(h, t, s, base);
      MergedThere(h, t.car);
    }
  }

  lemma MergedThere(h: Obj, tcar: Obj)
    requires Mergeable(h, tcar)
    ensures Merge(h, tcar).Some? ==> !Merge(h, tcar).value.Nil?
  {
  }

  lemma {:induction false} ElementMeans<S>(y: Obj, s: S, base: Base<S>)
    requires Element(y)
    ensures var h := Expand2(y, 0);
            && h.Some? && Spliceable(h.value)
            && (h.value.Nil? <==> y.Cell? && y.car == UNQUOTE_SPLICING && y.cdr.car.Nil?)
            && Eval(h.value, s, base) == FillElement(y, s, base)
    decreases y, 2
  {
    if !(y.Cell? && (y.car == UNQUOTE || y.car == UNQUOTE_SPLICING)) {
      assert y.Cell? ==> Spine(y);
      FormMeans(y, s, base);
      var form := Expand0(y, 0).value;
      EvalOne(form, s, base);
    }
  }

  /** What `Expand0` makes of a template at the outermost level evaluates to the template with its
      holes filled. */
  lemma {:induction false} FormMeans<S>(x: Obj, s: S, base: Base<S>)
    requires Template(x)
    ensures Expand0(x, 0).Some? && Eval(Expand0(x, 0).value, s, base) == Fill(x, s, base)
    decreases x, 1
  {
    if !x.Cell? {
      EvalQuoted(x, s, base);
    } else if x.car != UNQUOTE {
      SpineMeans(x, s, base);
      EvalAppendForm(Expand1(x, 0).value, s, base);
    }
  }

  /** The expansion of a template succeeds and evaluates, in every state and whatever its holes
      do, to the template with its holes filled. */
  lemma TemplateMeans<S>(x: Obj, s: S, base: Base<S>)
    requires Template(x)
    ensures Expand(x).Some? && Eval(Expand(x).value, s, base) == Fill(x, s, base)
  {
    FormMeans(x, s, base);
  }

  // ----- what filling comes to -----

  /** No hole and no quasiquote in it. */
  predicate Plain(x: Obj) {
    if x.Cell? then
      && x.car != UNQUOTE && x.car != UNQUOTE_SPLICING && x.car != QUASIQUOTE
      && Plain(x.car) && Plain(x.cdr)
    else Literal(x)
  }

  /** A template without holes is the datum it is, and evaluating its expansion changes nothing. */
  lemma PlainMeans<S>(x: Obj, s: S, base: Base<S>)
    requires Plain(x)
    ensures Template(x) && Expand(x).Some? && Eval(Expand(x).value, s, base) == Out(Ok(x), s)
  {
    PlainFills(x, s, base);
    TemplateMeans(x, s, base);
  }

  lemma {:induction false} PlainFills<S>(x: Obj, s: S, base: Base<S>)
    requires Plain(x)
    ensures Template(x) && Spine(x) && Fill(x, s, base) == FillSpine(x, s, base) == Out(Ok(x), s)
    ensures Ends(x) <==> x.Nil?
    decreases x
  {
    if x.Cell? {
      PlainFills(x.car, s, base);
      PlainFills(x.cdr, s, base);
      assert Element(x.car) && FillElement(x.car, s, base) == Out(Ok(Cell(x.car, Nil)), s);
      assert Append(Nil, x.cdr) == Ok(x.cdr) && Append(Cell(x.car, Nil), x.cdr) == Ok(x);
    }
  }

  /** The items of `x`, then `y`. */
  predicate Joins(z: Obj, x: Obj, y: Obj) {
    if x.Cell? then z.Cell? && z.car == x.car && Joins(z.cdr, x.cdr, y) else z == y
  }

  /** Appending succeeds exactly on a proper list, and puts the other value after its items. */
  lemma {:induction false} AppendIs(x: Obj, y: Obj)
    ensures Append(x, y).Ok? <==> Proper(x)
    ensures Append(x, y).Ok? ==> Joins(Append(x, y).value, x, y)
  {
    if x.Cell? { AppendIs(x.cdr, y); }
  }

  /** Not copying the last splice makes no difference exactly when it is a proper list. */
  lemma {:induction false} LastSplice(v: Obj)
    ensures Append(v, Nil) == Ok(v) <==> Proper(v)
  {
    if v.Cell? { LastSplice(v.cdr); }
  }
}
