/** The values of the interpreter: what `packages/interpreter/src/objects.ts` and
    `func.ts` build, as one immutable datatype. A frame is mutable in the source, so a
    closure holds frame numbers and the frames themselves live in the evaluator's store. */
module LispObjects {

  datatype Result<+T> = Ok(value: T) | Err(error: Fail)

  /** Why an evaluation or a compilation throws. The source has no word for two
      of them: `BadAddress` is an address that leaves the chain of frames, `NotModelled` what the
      model leaves out. */
  datatype Fail =
    | ProperListExpected
    | ArglistAndBodyExpected
    | ArglistExpected
    | NotVariable
    | DuplicatedArgument
    | SecondRest
    | SecondKey
    | RestAfterKey
    | KeyWithNothing
    | NestedMacro
    | BadQuote
    | BadQuasiquote
    | BadTry
    | PartMissing
    | VoidVariable
    | UndefinedHead
    | NotApplicable
    | ArityNotMatched
    | KeywordExpected
    | NoSuchKeyword
    | KeywordWithoutValue
    | ArgumentTwice
    | CondTestExpected
    | RightValueExpected
    | ReadOnlyGlobal
    | BadAddress
    | NotModelled
    | BuiltinFailed(why: string)

  /** Where one lambda's parameters are: their offsets in the frame it makes. */
  type Table = map<string, nat>

  /** A scope of the named reference semantics: a table and the frame it describes. */
  datatype Scope = Scope(table: Table, frame: nat)

  datatype Obj =
    | Nil
    | True
    | Num(n: int)
    | Str(s: string)
    | Key(k: string)
    | Sym(name: string)
    | Cell(car: Obj, cdr: Obj)
    | Arg(level: nat, offset: nat, sym: string)
    | Lambda(carity: int, body: Obj, keys: seq<string>)
    | Closure(carity: int, body: Obj, keys: seq<string>, env: seq<nat>)
    | Builtin(fname: string, carity: int, keys: seq<string>)
    | Scoped(params: Obj, code: Obj, scopes: seq<Scope>)

  const QUOTE := Sym("quote")
  const QUASIQUOTE := Sym("quasiquote")
  const LAMBDA := Sym("lambda")
  const MACRO := Sym("macro")
  const TRY := Sym("try")
  const REST := Sym("&rest")
  const KEY := Sym("&key")
  const UNQUOTE := Sym("unquote")
  const UNQUOTE_SPLICING := Sym("unquote-splicing")

  /** The names `newKeyword` interns: the heads of special forms. */
  const SPECIAL: set<string> :=
    {"cond", "lambda", "macro", "progn", "quasiquote", "quote", "setq", "try"}

  function CdrCell(x: Obj): Result<Obj>
    requires x.Cell?
  {
    if x.cdr.Cell? || x.cdr.Nil? then Ok(x.cdr) else Err(ProperListExpected)
  }

  predicate Proper(x: Obj) {
    x.Nil? || (x.Cell? && Proper(x.cdr))
  }

  /** The cells of a form, its termination measure. */
  function Size(x: Obj): nat {
    if x.Cell? then 1 + Size(x.car) + Size(x.cdr) else 0
  }

  function ToList(xs: seq<Obj>): Obj {
    if xs == [] then Nil else Cell(xs[0], ToList(xs[1..]))
  }
}
