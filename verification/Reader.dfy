/** `Reader`, which shifts its tokens as it reads (`packages/interpreter/src/reader.ts`). */
module ReaderObject {
  import opened LispObjects
  import opened Wrappers
  import opened LispText
  import opened PrintRead

  datatype Outcome = Value(x: Obj) | Thrown(error: ReadError)

  /** The newlines before the next token, and what is left once it is shifted. */
  function Skipped(ts: seq<string>): nat {
    if ts == [] || ts[0] != "\n" then 0 else 1 + Skipped(ts[1..])
  }

  function Shifted(ts: seq<string>): (rest: seq<string>)
    ensures |rest| <= |ts|
  {
    if ts == [] then [] else if ts[0] == "\n" then Shifted(ts[1..]) else ts[1..]
  }

  /** What a line break separates. */
  function Lines(text: string): (lines: seq<string>)
    ensures lines != []
  {
    if text == "" then [""]
    else if text[0] == '\n' then [""] + Lines(text[1..])
    else
      var rest := Lines(text[1..]);
      [[text[0]] + rest[0]] + rest[1..]
  }

  function LexLines(lines: seq<string>): seq<string>
    decreases |lines|
  {
    if lines == [] then [] else LexLines(lines[..|lines| - 1]) + Lex(lines[|lines| - 1]) + ["\n"]
  }

  lemma LexNext(lines: seq<string>, k: nat, before: seq<string>)
    requires k < |lines|
    ensures before + LexLines(lines[..k + 1]) == ((before + LexLines(lines[..k])) + Lex(lines[k])) + ["\n"]
  {
    assert lines[..k + 1][..k] == lines[..k];
  }

  lemma {:induction false} OneLine(text: string)
    requires '\n' !in text
    ensures Lines(text) == [text]
  {
    if text != "" {
      assert text[0] in text && text == [text[0]] + text[1..];
      OneLine(text[1..]);
    }
  }

  lemma {:induction false} NoNewline(numerals: Numerals, x: Obj)
    requires Printable(numerals, x)
    ensures '\n' !in Text(numerals, x)
    decreases x, 1
  {
    if x.Str? {
      NoneEscaped(x.s);
    } else if x.Cell? {
      if Sugar(x) { NoNewline(numerals, x.cdr.car); } else { NoNewlineInBody(numerals, x); }
    }
  }

  lemma {:induction false} NoNewlineInBody(numerals: Numerals, x: Obj)
    requires x.Cell? && PrintableBody(numerals, x)
    ensures '\n' !in BodyText(numerals, x)
    decreases x, 0
  {
    NoNewline(numerals, x.car);
    if x.cdr.Cell? { NoNewlineInBody(numerals, x.cdr); } else if !x.cdr.Nil? { NoNewline(numerals, x.cdr); }
  }

  lemma {:induction false} NoneEscaped(s: string)
    ensures '\n' !in Escaped(s)
  {
    if s != "" { NoneEscaped(s[1..]); }
  }

  /** What a reader that was pushed the printed text of a datum then reads. */
  lemma PushedReads(numerals: Numerals, x: Obj)
    requires Printable(numerals, x) && MarksRead(numerals)
    ensures Read(numerals, LexLines(Lines(Text(numerals, x)))) == Parsed(x, ["\n"])
  {
    NoNewline(numerals, x);
    OneLine(Text(numerals, x));
    LexSingle(Text(numerals, x));
    ReadsBack(numerals, x);
  }

  lemma LexSingle(line: string)
    ensures LexLines([line]) == Lex(line) + ["\n"]
  {
    assert [line][..0] == [] && LexLines([]) == [];
  }

  class Reader {
    const numerals: Numerals
    var token: Obj
    var tokens: seq<string>
    var lineNo: nat

    constructor (numerals: Numerals)
      ensures this.numerals == numerals && tokens == [] && lineNo == 1
    {
      this.numerals := numerals;
      token, tokens, lineNo := Nil, [], 1;
    }

    method Push(text: string)
      modifies this`tokens
      ensures tokens == old(tokens) + LexLines(Lines(text))
    {
      var lines := Lines(text);
      assert lines[..0] == [];
      for k := 0 to |lines|
        invariant tokens == old(tokens) + LexLines(lines[..k])
      {
        PushLine(lines[k]);
        tokens := tokens + ["\n"];
        LexNext(lines, k, old(tokens));
      }
      assert lines[..|lines|] == lines;
    }

    /** The matches of the token pattern along a line. */
    method PushLine(line: string)
      modifies this`tokens
      ensures tokens == old(tokens) + Lex(line)
    {
      var rest := line;
      while rest != ""
        invariant tokens + Lex(rest) == old(tokens) + Lex(line)
        decreases |rest|
      {
        var n := TokenLength(rest);
        if n.Some? {
          tokens := tokens + [rest[..n.value]];
          rest := rest[n.value..];
        } else {
          rest := rest[1..];
        }
      }
    }

    method ReadToken() returns (error: Option<ReadError>)
      modifies this
      ensures tokens == Shifted(old(tokens)) && lineNo == old(lineNo) + Skipped(old(tokens))
      ensures match NextToken(numerals, old(tokens))
              case Parsed(x, rest) => error == None && token == x && tokens == rest
              case Failed(e) => error == Some(e)
    {
      while true
        invariant NextToken(numerals, tokens) == NextToken(numerals, old(tokens))
        invariant Shifted(tokens) == Shifted(old(tokens))
        invariant lineNo + Skipped(tokens) == old(lineNo) + Skipped(old(tokens))
        decreases |tokens|
      {
        if tokens == [] { return Some(EndOfFile); }
        var t := tokens[0];
        tokens := tokens[1..];
        if t == "\n" {
          lineNo := lineNo + 1;
        } else {
          var (value, e) := TokenValue(numerals, t);
          if value.None? { return Some(e); }
          token := value.value;
          return None;
        }
      }
    }

    method ParseToken() returns (r: Outcome)
      modifies this
      ensures |tokens| <= |old(tokens)|
      ensures match ParseExpression(numerals, old(token), old(tokens))
              case Parsed(x, rest) => r == Value(x) && tokens == rest
              case Failed(e) => r == Thrown(e)
      decreases |tokens|, 0
    {
      if token == LPAREN {
        var error := ReadToken();
        if error.Some? { return Thrown(error.value); }
        r := ParseBody();
      } else if Abbreviates(token).Some? {
        var head := Abbreviates(token).value;
        var error := ReadToken();
        if error.Some? { return Thrown(error.value); }
        r := ParseToken();
        if r.Value? { r := Value(Cell(head, Cell(r.x, Nil))); }
      } else if token == DOT || token == RPAREN {
        return Thrown(Unexpected(token));
      } else {
        return Value(token);
      }
    }

    method ParseBody() returns (r: Outcome)
      modifies this
      ensures |tokens| <= |old(tokens)|
      ensures match ParseListBody(numerals, old(token), old(tokens))
              case Parsed(x, rest) => r == Value(x) && tokens == rest
              case Failed(e) => r == Thrown(e)
      decreases |tokens|, 1
    {
      if token == RPAREN { return Value(Nil); }
      var e1 := ParseToken();
      if e1.Thrown? { return e1; }
      var error := ReadToken();
      if error.Some? { return Thrown(error.value); }
      var e2;
      if token == DOT {
        e2 := ParseAfterDot();
      } else {
        e2 := ParseBody();
      }
      if e2.Thrown? { return e2; }
      return Value(Cell(e1.x, e2.x));
    }

    /** One datum and the closing parenthesis. */
    method ParseAfterDot() returns (r: Outcome)
      modifies this
      ensures |tokens| <= |old(tokens)|
      ensures forall e1: Obj {:trigger ParseTail(numerals, e1, old(tokens))} ::
                match ParseTail(numerals, e1, old(tokens))
                case Parsed(x, rest) => r.Value? && x == Cell(e1, r.x) && tokens == rest
                case Failed(e) => r == Thrown(e)
      decreases |tokens|, 2
    {
      var error := ReadToken();
      if error.Some? { return Thrown(error.value); }
      r := ParseToken();
      if r.Thrown? { return; }
      error := ReadToken();
      if error.Some? { return Thrown(error.value); }
      if token != RPAREN { return Thrown(RightParenExpected); }
    }

    method ReadOne() returns (r: Outcome)
      modifies this
      ensures match Read(numerals, old(tokens))
              case Parsed(x, rest) => r == Value(x) && tokens == rest
              case Failed(e) => r == Thrown(e)
    {
      var error := ReadToken();
      if error.Some? { return Thrown(error.value); }
      r := ParseToken();
    }
  }
}
