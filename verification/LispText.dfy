/** Printing and reading Lisp data as text: `packages/interpreter/src/print.ts`,
    `packages/interpreter/src/reader.ts` and the token pattern of
    `packages/shared/src/lisp-tokens.ts`. */
module LispText {
  import opened LispObjects
  import opened Wrappers

  /** How numbers are shown and recognised. */
  datatype Numerals = Numerals(show: int -> string, number: string -> Option<int>)

  datatype ReadError = EndOfFile | Unexpected(token: Obj) | RightParenExpected | BadString | PrintedHandle

  const LPAREN := Sym("(")
  const RPAREN := Sym(")")
  const TICK := Sym("'")
  const BACKQUOTE := Sym("`")
  const COMMA := Sym(",")
  const COMMA_AT := Sym(",@")
  const DOT := Sym(".")

  // ----- characters -----

  /** What `.` does not match in a pattern: the line terminators. */
  predicate Terminator(c: char) {
    c == '\n' || c == '\r' || c == '\U{2028}' || c == '\U{2029}'
  }

  /** What `\s` matches. */
  predicate Space(c: char) {
    c == ' ' || '\U{0009}' <= c <= '\U{000D}' || c == '\U{00A0}' || c == '\U{1680}' || '\U{2000}' <= c <= '\U{200A}'
    || c == '\U{2028}' || c == '\U{2029}' || c == '\U{202F}' || c == '\U{205F}' || c == '\U{3000}' || c == '\U{FEFF}'
  }

  predicate WordChar(c: char) {
    c != '(' && c != ')' && c != '\'' && c != '`' && c != '~' && c != '"' && c != ' ' && c != '\t'
  }

  function EscapeOf(c: char): Option<char> {
    if c == '\U{0008}' then Some('b') else if c == '\t' then Some('t') else if c == '\n' then Some('n')
    else if c == '\U{000B}' then Some('v') else if c == '\U{000C}' then Some('f') else if c == '\r' then Some('r')
    else if c == '"' then Some('"') else if c == '\\' then Some('\\') else None
  }

  function Unescaped(c: char): Option<char> {
    if c == 'b' then Some('\U{0008}') else if c == 't' then Some('\t') else if c == 'n' then Some('\n')
    else if c == 'v' then Some('\U{000B}') else if c == 'f' then Some('\U{000C}') else if c == 'r' then Some('\r')
    else if c == '"' then Some('"') else if c == '\\' then Some('\\') else None
  }

  // ----- strings -----

  function Escaped(s: string): string {
    if s == "" then ""
    else (if EscapeOf(s[0]).Some? then ['\\', EscapeOf(s[0]).value] else [s[0]]) + Escaped(s[1..])
  }

  function Quoted(s: string): string {
    "\"" + Escaped(s) + "\""
  }

  /** The replacement of each escape, left to right; an unknown one stays as it is. */
  function Unescape(s: string): string {
    if s == "" then ""
    else if s[0] == '\\' && |s| > 1 && !Terminator(s[1]) then
      (if Unescaped(s[1]).Some? then [Unescaped(s[1]).value] else s[..2]) + Unescape(s[2..])
    else [s[0]] + Unescape(s[1..])
  }

  function Unquoted(t: string): Option<string> {
    var n := |t| - 1;
    if n < 1 || t[n] != '"' then None else Some(Unescape(t[1..n]))
  }

  lemma {:induction false} UnescapeEscaped(s: string)
    ensures Unescape(Escaped(s)) == s
  {
    if s != "" {
      var e := EscapeOf(s[0]);
      if e.Some? {
        assert Escaped(s)[2..] == Escaped(s[1..]);
        assert Unescaped(e.value) == Some(s[0]);
      } else {
        assert Escaped(s)[1..] == Escaped(s[1..]);
      }
      UnescapeEscaped(s[1..]);
    }
  }

  /** Unquoting a quoted string gives it back. */
  lemma UnquotedQuoted(s: string)
    ensures Unquoted(Quoted(s)) == Some(s)
  {
    assert Quoted(s)[1..|Quoted(s)| - 1] == Escaped(s);
    UnescapeEscaped(s);
  }

  // ----- tokens -----

  /** How many characters a string token still takes after its opening quote, if it closes:
      the pattern tries to close first, then an escape with its character, then less. */
  function ToClose(s: string): (n: Option<nat>)
    ensures n.Some? ==> 0 < n.value <= |s|
    decreases |s|
  {
    if s == "" then None
    else if s[0] == '"' then Some(1)
    else if Terminator(s[0]) then None
    else
      var escape := if s[0] == '\\' && |s| > 1 && !Terminator(s[1]) then ToClose(s[2..]) else None;
      if escape.Some? then Some(escape.value + 2)
      else
        var rest := ToClose(s[1..]);
        if rest.Some? then Some(rest.value + 1) else None
  }

  function WordLength(s: string): (n: nat)
    ensures n <= |s| && forall i | 0 <= i < n :: WordChar(s[i])
    ensures n < |s| ==> !WordChar(s[n])
  {
    if s == "" || !WordChar(s[0]) then 0 else 1 + WordLength(s[1..])
  }

  /** The length of the token at the start of a line, or `None` for a space to skip. */
  function TokenLength(line: string): (n: Option<nat>)
    requires line != ""
    ensures n.Some? ==> 0 < n.value <= |line|
  {
    if Space(line[0]) then None
    else if line[0] == '"' && ToClose(line[1..]).Some? then Some(1 + ToClose(line[1..]).value)
    else if line[0] == ',' then Some(if |line| > 1 && line[1] == '@' then 2 else 1)
    else if WordChar(line[0]) then Some(WordLength(line))
    else Some(1)
  }

  function Lex(line: string): seq<string>
    decreases |line|
  {
    if line == "" then []
    else
      match TokenLength(line)
      case None => Lex(line[1..])
      case Some(n) => [line[..n]] + Lex(line[n..])
  }

  /** What a token stands for. */
  function TokenValue(numerals: Numerals, t: string): (Option<Obj>, ReadError) {
    if t == "+" || t == "-" then (Some(Sym(t)), EndOfFile)
    else if t != "" && t[0] == '"' then
      (match Unquoted(t) case Some(s) => (Some(Str(s)), EndOfFile) case None => (None, BadString))
    else if numerals.number(t).Some? then (Some(Num(numerals.number(t).value)), EndOfFile)
    else if t == "nil" then (Some(Nil), EndOfFile)
    else if t == "t" then (Some(True), EndOfFile)
    else if |t| > 1 && t[0] == ':' then (Some(Key(t[1..])), EndOfFile)
    else if |t| > 1 && t[0] == '#' && t[1] == '<' then (None, PrintedHandle)
    else (Some(Sym(t)), EndOfFile)
  }

  // ----- the reader -----

  /** A value read and the tokens after it. */
  datatype Parsed = Parsed(x: Obj, rest: seq<string>) | Failed(error: ReadError)

  function NextToken(numerals: Numerals, ts: seq<string>): (p: Parsed)
    ensures p.Parsed? ==> |p.rest| < |ts|
  {
    if ts == [] then Failed(EndOfFile)
    else if ts[0] == "\n" then NextToken(numerals, ts[1..])
    else
      match TokenValue(numerals, ts[0])
      case (Some(x), _) => Parsed(x, ts[1..])
      case (None, e) => Failed(e)
  }

  /** The symbol a quote token abbreviates. */
  function Abbreviates(token: Obj): Option<Obj> {
    if token == TICK then Some(QUOTE) else if token == BACKQUOTE then Some(QUASIQUOTE)
    else if token == COMMA then Some(UNQUOTE) else if token == COMMA_AT then Some(UNQUOTE_SPLICING) else None
  }

  function ParseExpression(numerals: Numerals, token: Obj, ts: seq<string>): (p: Parsed)
    ensures p.Parsed? ==> |p.rest| <= |ts|
    decreases |ts|, 0
  {
    if token == LPAREN then
      (match NextToken(numerals, ts)
       case Failed(e) => Failed(e)
       case Parsed(next, rest) => ParseListBody(numerals, next, rest))
    else if Abbreviates(token).Some? then
      (match NextToken(numerals, ts)
       case Failed(e) => Failed(e)
       case Parsed(next, rest) =>
         (match ParseExpression(numerals, next, rest)
          case Failed(e) => Failed(e)
          case Parsed(x, after) => Parsed(Cell(Abbreviates(token).value, Cell(x, Nil)), after)))
    else if token == DOT || token == RPAREN then Failed(Unexpected(token))
    else Parsed(token, ts)
  }

  function ParseListBody(numerals: Numerals, token: Obj, ts: seq<string>): (p: Parsed)
    ensures p.Parsed? ==> |p.rest| <= |ts|
    decreases |ts|, 1
  {
    if token == RPAREN then Parsed(Nil, ts)
    else
      match ParseExpression(numerals, token, ts)
      case Failed(e) => Failed(e)
      case Parsed(e1, rest) =>
        match NextToken(numerals, rest)
        case Failed(e) => Failed(e)
        case Parsed(next, after) =>
          if next == DOT then ParseTail(numerals, e1, after)
          else
            match ParseListBody(numerals, next, after)
            case Failed(e) => Failed(e)
            case Parsed(e2, end) => Parsed(Cell(e1, e2), end)
  }

  /** After the dot: one datum and the closing parenthesis. */
  function ParseTail(numerals: Numerals, e1: Obj, ts: seq<string>): (p: Parsed)
    ensures p.Parsed? ==> |p.rest| <= |ts|
    decreases |ts|, 2
  {
    match NextToken(numerals, ts)
    case Failed(e) => Failed(e)
    case Parsed(token, rest) =>
      match ParseExpression(numerals, token, rest)
      case Failed(e) => Failed(e)
      case Parsed(e2, after) =>
        match NextToken(numerals, after)
        case Failed(e) => Failed(e)
        case Parsed(close, end) => if close != RPAREN then Failed(RightParenExpected) else Parsed(Cell(e1, e2), end)
  }

  function Read(numerals: Numerals, ts: seq<string>): Parsed {
    match NextToken(numerals, ts)
    case Failed(e) => Failed(e)
    case Parsed(token, rest) => ParseExpression(numerals, token, rest)
  }

  // ----- the printer -----

  /** The mark that stands for a symbol before its one argument. */
  function MarkOf(head: Obj): Option<string> {
    if head == QUOTE then Some("'") else if head == QUASIQUOTE then Some("`")
    else if head == UNQUOTE then Some(",") else if head == UNQUOTE_SPLICING then Some(",@") else None
  }

  predicate Sugar(x: Obj) {
    x.Cell? && MarkOf(x.car).Some? && x.cdr.Cell? && x.cdr.cdr.Nil?
  }

  function AtomText(numerals: Numerals, x: Obj): string {
    match x
    case Nil => "nil"
    case True => "t"
    case Num(n) => numerals.show(n)
    case Str(s) => Quoted(s)
    case Key(k) => ":" + k
    case Sym(name) => name
    case _ => "#<object>"
  }

  function Text(numerals: Numerals, x: Obj): string
    decreases x, 1
  {
    if !x.Cell? then AtomText(numerals, x)
    else if Sugar(x) then MarkOf(x.car).value + Text(numerals, x.cdr.car)
    else "(" + BodyText(numerals, x) + ")"
  }

  /** The elements of a list, and after a dot what it ends in. */
  function BodyText(numerals: Numerals, x: Obj): string
    requires x.Cell?
    decreases x, 0
  {
    var first := Text(numerals, x.car);
    match x.cdr
    case Nil => first
    case Cell(_, _) => first + " " + BodyText(numerals, x.cdr)
    case _ => first + " . " + Text(numerals, x.cdr)
  }
}
