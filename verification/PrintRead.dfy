/** What is printed reads back as what it was. */
module PrintRead {
  import opened LispObjects
  import opened Wrappers
  import opened LispText

  /** An atom whose text is one word that stands for it. */
  predicate PlainWord(numerals: Numerals, x: Obj) {
    var t := AtomText(numerals, x);
    && t != "" && t[0] != ',' && (forall i | 0 <= i < |t| :: WordChar(t[i]) && !Space(t[i]))
    && x != DOT && TokenValue(numerals, t).0 == Some(x)
  }

  predicate NoSeparators(s: string) {
    forall i | 0 <= i < |s| :: s[i] != '\U{2028}' && s[i] != '\U{2029}'
  }

  predicate StartsWithAt(numerals: Numerals, x: Obj) {
    Text(numerals, x) != "" && Text(numerals, x)[0] == '@'
  }

  /** Data of atoms that read back on their own, of strings without the separators that the
      string pattern stops at, and of lists in which no comma comes to stand before an `@`. */
  predicate Printable(numerals: Numerals, x: Obj)
    decreases x, 1
  {
    match x
    case Cell(car, cdr) =>
      if Sugar(x) then Printable(numerals, cdr.car) && (car == UNQUOTE ==> !StartsWithAt(numerals, cdr.car))
      else PrintableBody(numerals, x)
    case Str(s) => NoSeparators(s)
    case _ => (x.Nil? || x.True? || x.Num? || x.Key? || x.Sym?) && PlainWord(numerals, x)
  }

  predicate PrintableBody(numerals: Numerals, x: Obj)
    requires x.Cell?
    decreases x, 0
  {
    && Printable(numerals, x.car)
    && if x.cdr.Cell? then PrintableBody(numerals, x.cdr) else x.cdr.Nil? || Printable(numerals, x.cdr)
  }

  // ----- the tokens of the printed text -----

  function Tokens(numerals: Numerals, x: Obj): seq<string>
    decreases x, 1
  {
    if !x.Cell? then [AtomText(numerals, x)]
    else if Sugar(x) then [MarkOf(x.car).value] + Tokens(numerals, x.cdr.car)
    else ["("] + BodyTokens(numerals, x)
  }

  /** With the closing parenthesis. */
  function BodyTokens(numerals: Numerals, x: Obj): seq<string>
    requires x.Cell?
    decreases x, 0
  {
    var first := Tokens(numerals, x.car);
    match x.cdr
    case Nil => first + [")"]
    case Cell(_, _) => first + BodyTokens(numerals, x.cdr)
    case _ => first + ["."] + Tokens(numerals, x.cdr) + [")"]
  }

  /** What may follow a printed datum on its line. */
  predicate Delimited(rest: string) {
    rest == "" || rest[0] == ' ' || rest[0] == ')'
  }

  lemma {:induction false} EscapedCloses(s: string, rest: string)
    requires NoSeparators(s)
    ensures ToClose(Escaped(s) + "\"" + rest) == Some(|Escaped(s)| + 1)
  {
    if s == "" {
      assert (Escaped(s) + "\"" + rest)[0] == '"';
    } else {
      EscapedCloses(s[1..], rest);
      OneCloses(s, rest);
    }
  }

  /** One character more, escaped or as it is. */
  lemma OneCloses(s: string, rest: string)
    requires NoSeparators(s) && s != "" && ToClose(Escaped(s[1..]) + "\"" + rest) == Some(|Escaped(s[1..])| + 1)
    ensures ToClose(Escaped(s) + "\"" + rest) == Some(|Escaped(s)| + 1)
  {
    var e, inner := EscapeOf(s[0]), Escaped(s[1..]);
    var first := if e.Some? then ['\\', e.value] else [s[0]];
    if e.Some? { EscapeCloses(s[0], inner + "\"" + rest); } else { PlainCloses(s[0], inner + "\"" + rest); }
    Shift(first, inner, "\"");
    Shift(first, inner + "\"", rest);
  }

  lemma EscapeCloses(c: char, tail: string)
    requires EscapeOf(c).Some? && ToClose(tail).Some?
    ensures ToClose(['\\', EscapeOf(c).value] + tail) == Some(ToClose(tail).value + 2)
  {
    var text := ['\\', EscapeOf(c).value] + tail;
    assert text[2..] == tail && text[0] == '\\' && !Terminator(text[1]);
  }

  lemma PlainCloses(c: char, tail: string)
    requires EscapeOf(c).None? && !Terminator(c) && ToClose(tail).Some?
    ensures ToClose([c] + tail) == Some(ToClose(tail).value + 1)
  {
    var text := [c] + tail;
    assert text[1..] == tail && text[0] == c && c != '"' && c != '\\';
  }

  lemma {:induction false} WordEnds(word: string, rest: string)
    requires Delimited(rest) && forall i | 0 <= i < |word| :: WordChar(word[i])
    ensures WordLength(word + rest) == |word|
  {
    if word == "" {
      assert word + rest == rest;
    } else {
      assert (word + rest)[1..] == word[1..] + rest;
      WordEnds(word[1..], rest);
    }
  }

  lemma LexOne(token: string, rest: string)
    requires token != "" && TokenLength(token + rest) == Some(|token|)
    ensures Lex(token + rest) == [token] + Lex(rest)
  {
    assert (token + rest)[..|token|] == token && (token + rest)[|token|..] == rest;
  }

  lemma LexAtom(numerals: Numerals, x: Obj, rest: string)
    requires !x.Cell? && Printable(numerals, x) && Delimited(rest)
    ensures Lex(Text(numerals, x) + rest) == [AtomText(numerals, x)] + Lex(rest)
  {
    var t := AtomText(numerals, x);
    if x.Str? { LexString(x.s, rest); } else { LexWord(t, rest); }
    LexOne(t, rest);
  }

  lemma LexString(s: string, rest: string)
    requires NoSeparators(s)
    ensures TokenLength(Quoted(s) + rest) == Some(|Quoted(s)|)
  {
    assert (Quoted(s) + rest)[1..] == Escaped(s) + "\"" + rest;
    EscapedCloses(s, rest);
  }

  lemma LexWord(word: string, rest: string)
    requires word != "" && Delimited(rest) && word[0] != ',' && !Space(word[0])
    requires forall i | 0 <= i < |word| :: WordChar(word[i])
    ensures TokenLength(word + rest) == Some(|word|)
  {
    WordEnds(word, rest);
    assert (word + rest)[0] == word[0];
  }

  lemma LexMark(mark: string, rest: string)
    requires mark == "'" || mark == "`" || mark == "," || mark == ",@" || mark == "(" || mark == ")"
    requires mark == "," ==> rest != "" && rest[0] != '@'
    ensures Lex(mark + rest) == [mark] + Lex(rest)
  {
    assert (mark + rest)[0] == mark[0];
    if mark == "," { assert (mark + rest)[1] == rest[0]; }
    if mark == ",@" { assert (mark + rest)[1] == '@'; }
    LexOne(mark, rest);
  }

  lemma TextThere(numerals: Numerals, x: Obj)
    requires Printable(numerals, x)
    ensures Text(numerals, x) != ""
  {
  }

  lemma Shift<T>(a: seq<T>, b: seq<T>, c: seq<T>)
    ensures (a + b) + c == a + (b + c)
  {
  }

  // How the tokens of a text follow from those of its parts, whatever the parts are.

  lemma JoinMark(mark: string, text: string, toks: seq<string>, rest: string)
    requires Lex(mark + (text + rest)) == [mark] + Lex(text + rest) && Lex(text + rest) == toks + Lex(rest)
    ensures Lex((mark + text) + rest) == ([mark] + toks) + Lex(rest)
  {
    Shift(mark, text, rest);
    Shift([mark], toks, Lex(rest));
  }

  lemma JoinLast(first: string, toks: seq<string>, rest: string)
    requires Lex(first + (")" + rest)) == toks + Lex(")" + rest)
    ensures Lex(first + ")" + rest) == (toks + [")"]) + Lex(rest)
  {
    LexMark(")", rest);
    Shift(first, ")", rest);
    Shift(toks, [")"], Lex(rest));
  }

  lemma JoinMore(first: string, toks: seq<string>, more: string, moreToks: seq<string>, rest: string)
    requires Lex(first + (" " + (more + ")" + rest))) == toks + Lex(" " + (more + ")" + rest))
    requires Lex(more + ")" + rest) == moreToks + Lex(rest)
    ensures Lex((first + " " + more) + ")" + rest) == (toks + moreToks) + Lex(rest)
  {
    var end := ")" + rest;
    LexSpace(more + ")" + rest);
    Shift(toks, moreToks, Lex(rest));
    Shift(more, ")", rest);
    Shift(" ", more, end);
    Shift(first, " ", more);
    Shift(first, " " + more, end);
    Shift(first + " " + more, ")", rest);
  }

  lemma JoinDot(first: string, toks: seq<string>, last: string, lastToks: seq<string>, rest: string)
    requires Lex(first + (" " + (". " + last + ")" + rest))) == toks + Lex(" " + (". " + last + ")" + rest))
    requires Lex(last + (")" + rest)) == lastToks + Lex(")" + rest)
    ensures Lex((first + " . " + last) + ")" + rest) == (toks + ["."] + lastToks + [")"]) + Lex(rest)
  {
    DotText(last, lastToks, rest);
    JoinMore(first, toks, ". " + last, ["."] + lastToks + [")"], rest);
    assert first + " " + (". " + last) == first + " . " + last;
    assert toks + (["."] + lastToks + [")"]) == toks + ["."] + lastToks + [")"];
  }

  lemma DotText(last: string, lastToks: seq<string>, rest: string)
    requires Lex(last + (")" + rest)) == lastToks + Lex(")" + rest)
    ensures Lex(". " + last + ")" + rest) == (["."] + lastToks + [")"]) + Lex(rest)
  {
    var end := last + (")" + rest);
    LexDot(" " + end);
    LexSpace(end);
    LexMark(")", rest);
    assert ". " == "." + " ";
    Shift(". " + last, ")", rest);
    Shift(". ", last, ")" + rest);
    Shift(".", " ", end);
    Shift(lastToks, [")"], Lex(rest));
    Shift(["."], lastToks + [")"], Lex(rest));
    Shift(["."], lastToks, [")"]);
  }

  lemma {:induction false} LexText(numerals: Numerals, x: Obj, rest: string)
    requires Printable(numerals, x) && Delimited(rest)
    ensures Lex(Text(numerals, x) + rest) == Tokens(numerals, x) + Lex(rest)
    decreases x, 1
  {
    if !x.Cell? {
      LexAtom(numerals, x, rest);
    } else if Sugar(x) {
      LexSugar(numerals, x, rest);
    } else {
      LexBody(numerals, x, rest);
      LexParens(BodyText(numerals, x), BodyTokens(numerals, x), rest);
    }
  }

  lemma LexParens(body: string, toks: seq<string>, rest: string)
    requires Lex(body + ")" + rest) == toks + Lex(rest)
    ensures Lex(("(" + body + ")") + rest) == (["("] + toks) + Lex(rest)
  {
    LexMark("(", body + ")" + rest);
    Shift(body, ")", rest);
    Shift("(", body, ")");
    Shift("(", body + ")", rest);
    Shift(["("], toks, Lex(rest));
  }

  lemma {:induction false} LexSugar(numerals: Numerals, x: Obj, rest: string)
    requires x.Cell? && Sugar(x) && Printable(numerals, x) && Delimited(rest)
    ensures Lex(Text(numerals, x) + rest) == Tokens(numerals, x) + Lex(rest)
    decreases x, 0, 0
  {
    var mark, inner := MarkOf(x.car).value, Text(numerals, x.cdr.car);
    TextThere(numerals, x.cdr.car);
    LexText(numerals, x.cdr.car, rest);
    LexMark(mark, inner + rest);
    JoinMark(mark, inner, Tokens(numerals, x.cdr.car), rest);
  }

  lemma LexSpace(rest: string)
    ensures Lex(" " + rest) == Lex(rest)
  {
    assert (" " + rest)[1..] == rest;
  }

  lemma LexDot(rest: string)
    requires Delimited(rest)
    ensures Lex("." + rest) == ["."] + Lex(rest)
  {
    WordEnds(".", rest);
    LexOne(".", rest);
  }

  lemma {:induction false} LexBody(numerals: Numerals, x: Obj, rest: string)
    requires x.Cell? && PrintableBody(numerals, x)
    ensures Lex(BodyText(numerals, x) + ")" + rest) == BodyTokens(numerals, x) + Lex(rest)
    decreases x, 0, 1
  {
    var first, toks := Text(numerals, x.car), Tokens(numerals, x.car);
    if x.cdr.Nil? {
      LexText(numerals, x.car, ")" + rest);
      JoinLast(first, toks, rest);
    } else if x.cdr.Cell? {
      var more := BodyText(numerals, x.cdr);
      LexText(numerals, x.car, " " + (more + ")" + rest));
      LexBody(numerals, x.cdr, rest);
      JoinMore(first, toks, more, BodyTokens(numerals, x.cdr), rest);
    } else {
      var last := Text(numerals, x.cdr);
      LexText(numerals, x.car, " " + (". " + last + ")" + rest));
      LexText(numerals, x.cdr, ")" + rest);
      JoinDot(first, toks, last, Tokens(numerals, x.cdr), rest);
    }
  }

  // ----- parsing the tokens -----

  /** The first token of a datum is neither a dot nor a closing parenthesis, and parsing from it
      takes the datum's tokens and no more. */
  ghost predicate ParsesTo(numerals: Numerals, ts: seq<string>, x: Obj, more: seq<string>) {
    var next := NextToken(numerals, ts);
    && next.Parsed? && next.x != DOT && next.x != RPAREN
    && ParseExpression(numerals, next.x, next.rest) == Parsed(x, more)
  }

  ghost predicate ParsesBodyTo(numerals: Numerals, ts: seq<string>, x: Obj, more: seq<string>) {
    var next := NextToken(numerals, ts);
    && next.Parsed? && next.x != DOT && next.x != RPAREN
    && ParseListBody(numerals, next.x, next.rest) == Parsed(x, more)
  }

  /** The tokens of marks stand for the symbols of the same name. */
  predicate MarksRead(numerals: Numerals) {
    forall mark | mark in ["(", ")", "'", "`", ",", ",@", "."] :: TokenValue(numerals, mark).0 == Some(Sym(mark))
  }

  lemma NextMark(numerals: Numerals, mark: string, ts: seq<string>)
    requires MarksRead(numerals) && mark in ["(", ")", "'", "`", ",", ",@", "."]
    ensures NextToken(numerals, [mark] + ts) == Parsed(Sym(mark), ts)
  {
    assert ([mark] + ts)[1..] == ts;
    assert mark[0] != '\n';
  }

  lemma AtomParses(numerals: Numerals, x: Obj, more: seq<string>)
    requires !x.Cell? && Printable(numerals, x)
    ensures ParsesTo(numerals, [AtomText(numerals, x)] + more, x, more)
  {
    var t := AtomText(numerals, x);
    assert ([t] + more)[1..] == more;
    if x.Str? {
      UnquotedQuoted(x.s);
    } else if x.Sym? {
      assert WordChar(t[0]) && t[0] != ',';
      assert x != LPAREN && x != RPAREN && x != TICK && x != BACKQUOTE && x != COMMA && x != COMMA_AT;
    }
    assert t[0] != '\n';
  }

  lemma MarksDiffer()
    ensures LPAREN != DOT && LPAREN != RPAREN
    ensures forall head | MarkOf(head).Some? ::
              var token := Sym(MarkOf(head).value);
              token != LPAREN && token != RPAREN && token != DOT && Abbreviates(token) == Some(head)
  {
    assert LPAREN.name[0] == '(' && RPAREN.name[0] == ')' && DOT.name[0] == '.';
    assert TICK.name[0] == '\'' && BACKQUOTE.name[0] == '`';
    assert COMMA.name[0] == ',' && COMMA_AT.name[0] == ',' && |COMMA.name| == 1 && |COMMA_AT.name| == 2;
  }

  // How parsing a whole follows from parsing its parts, whatever the parts are.

  lemma SugarParses(numerals: Numerals, head: Obj, inner: seq<string>, y: Obj, more: seq<string>)
    requires MarksRead(numerals) && MarkOf(head).Some? && ParsesTo(numerals, inner + more, y, more)
    ensures ParsesTo(numerals, ([MarkOf(head).value] + inner) + more, Cell(head, Cell(y, Nil)), more)
  {
    var mark := MarkOf(head).value;
    MarkFacts(head);
    NextMark(numerals, mark, inner + more);
    Shift([mark], inner, more);
    QuoteParses(numerals, Sym(mark), head, inner + more, y, more);
  }

  lemma MarkFacts(head: Obj)
    requires MarkOf(head).Some?
    ensures var mark := MarkOf(head).value;
            && mark in ["(", ")", "'", "`", ",", ",@", "."]
            && Sym(mark) != LPAREN && Sym(mark) != RPAREN && Sym(mark) != DOT && Abbreviates(Sym(mark)) == Some(head)
  {
    MarksDiffer();
  }

  lemma QuoteParses(numerals: Numerals, token: Obj, head: Obj, ts: seq<string>, y: Obj, more: seq<string>)
    requires token != LPAREN && Abbreviates(token) == Some(head) && ParsesTo(numerals, ts, y, more)
    ensures ParseExpression(numerals, token, ts) == Parsed(Cell(head, Cell(y, Nil)), more)
  {
  }

  lemma ListParses(numerals: Numerals, body: seq<string>, x: Obj, more: seq<string>)
    requires MarksRead(numerals) && ParsesBodyTo(numerals, body + more, x, more)
    ensures ParsesTo(numerals, (["("] + body) + more, x, more)
  {
    MarksDiffer();
    NextMark(numerals, "(", body + more);
    Shift(["("], body, more);
  }

  lemma LastParses(numerals: Numerals, first: seq<string>, x: Obj, more: seq<string>)
    requires MarksRead(numerals) && ParsesTo(numerals, first + ([")"] + more), x, [")"] + more)
    ensures ParsesBodyTo(numerals, (first + [")"]) + more, Cell(x, Nil), more)
  {
    MarksDiffer();
    NextMark(numerals, ")", more);
    Shift(first, [")"], more);
  }

  lemma MoreParses(numerals: Numerals, first: seq<string>, x: Obj, body: seq<string>, y: Obj, more: seq<string>)
    requires ParsesTo(numerals, first + (body + more), x, body + more) && ParsesBodyTo(numerals, body + more, y, more)
    ensures ParsesBodyTo(numerals, (first + body) + more, Cell(x, y), more)
  {
    Shift(first, body, more);
  }

  lemma DotParses(numerals: Numerals, first: seq<string>, x: Obj, last: seq<string>, y: Obj, more: seq<string>)
    requires MarksRead(numerals)
    requires ParsesTo(numerals, first + (["."] + (last + ([")"] + more))), x, ["."] + (last + ([")"] + more)))
    requires ParsesTo(numerals, last + ([")"] + more), y, [")"] + more)
    ensures ParsesBodyTo(numerals, (first + ["."] + last + [")"]) + more, Cell(x, y), more)
  {
    var tail := last + ([")"] + more);
    NextMark(numerals, ".", tail);
    TailParses(numerals, x, last, y, more);
    DottedParses(numerals, first, x, tail, Cell(x, y), more);
    Shift(first + ["."] + last, [")"], more);
    Shift(first + ["."], last, [")"] + more);
    Shift(first, ["."], tail);
  }

  lemma TailParses(numerals: Numerals, x: Obj, last: seq<string>, y: Obj, more: seq<string>)
    requires MarksRead(numerals) && ParsesTo(numerals, last + ([")"] + more), y, [")"] + more)
    ensures ParseTail(numerals, x, last + ([")"] + more)) == Parsed(Cell(x, y), more)
  {
    NextMark(numerals, ")", more);
  }

  lemma DottedParses(numerals: Numerals, first: seq<string>, x: Obj, tail: seq<string>, z: Obj, more: seq<string>)
    requires ParsesTo(numerals, first + (["."] + tail), x, ["."] + tail)
    requires NextToken(numerals, ["."] + tail) == Parsed(DOT, tail) && ParseTail(numerals, x, tail) == Parsed(z, more)
    ensures ParsesBodyTo(numerals, first + (["."] + tail), z, more)
  {
  }

  lemma {:induction false} TokensParse(numerals: Numerals, x: Obj, more: seq<string>)
    requires Printable(numerals, x) && MarksRead(numerals)
    ensures ParsesTo(numerals, Tokens(numerals, x) + more, x, more)
    decreases x, 1
  {
    if !x.Cell? {
      AtomParses(numerals, x, more);
    } else if Sugar(x) {
      TokensParse(numerals, x.cdr.car, more);
      SugarParses(numerals, x.car, Tokens(numerals, x.cdr.car), x.cdr.car, more);
    } else {
      BodyParses(numerals, x, more);
      ListParses(numerals, BodyTokens(numerals, x), x, more);
    }
  }

  lemma {:induction false} BodyParses(numerals: Numerals, x: Obj, more: seq<string>)
    requires x.Cell? && PrintableBody(numerals, x) && MarksRead(numerals)
    ensures ParsesBodyTo(numerals, BodyTokens(numerals, x) + more, x, more)
    decreases x, 0
  {
    var first := Tokens(numerals, x.car);
    if x.cdr.Nil? {
      TokensParse(numerals, x.car, [")"] + more);
      LastParses(numerals, first, x.car, more);
    } else if x.cdr.Cell? {
      var body := BodyTokens(numerals, x.cdr);
      TokensParse(numerals, x.car, body + more);
      BodyParses(numerals, x.cdr, more);
      MoreParses(numerals, first, x.car, body, x.cdr, more);
    } else {
      var last := Tokens(numerals, x.cdr);
      TokensParse(numerals, x.car, ["."] + (last + ([")"] + more)));
      TokensParse(numerals, x.cdr, [")"] + more);
      DotParses(numerals, first, x.car, last, x.cdr, more);
    }
  }

  // ----- the theorem -----

  /** Reading the printed text of a datum gives the datum and leaves nothing but the end of the
      line. */
  lemma ReadsBack(numerals: Numerals, x: Obj)
    requires Printable(numerals, x) && MarksRead(numerals)
    ensures Read(numerals, Lex(Text(numerals, x)) + ["\n"]) == Parsed(x, ["\n"])
  {
    assert Text(numerals, x) + "" == Text(numerals, x);
    LexText(numerals, x, "");
    assert Lex("") == [] && Tokens(numerals, x) + [] == Tokens(numerals, x);
    TokensParse(numerals, x, ["\n"]);
  }

  /** Different data never print the same. */
  lemma PrintsApart(numerals: Numerals, x: Obj, y: Obj)
    requires Printable(numerals, x) && Printable(numerals, y) && MarksRead(numerals)
    requires Text(numerals, x) == Text(numerals, y)
    ensures x == y
  {
    ReadsBack(numerals, x);
    ReadsBack(numerals, y);
  }

  /** Why a comma must not come before an `@`: then two different data print the same. */
  lemma CommaBeforeAt(numerals: Numerals, name: string)
    ensures var comma := Cell(UNQUOTE, Cell(Sym("@" + name), Nil));
            var splice := Cell(UNQUOTE_SPLICING, Cell(Sym(name), Nil));
            comma != splice && Text(numerals, comma) == Text(numerals, splice)
  {
    assert "," + ("@" + name) == ",@" + name;
    assert UNQUOTE.name != UNQUOTE_SPLICING.name by { assert |UNQUOTE.name| != |UNQUOTE_SPLICING.name|; }
  }

  /** Why a string must hold no line separator: its text then falls apart and cannot be read. */
  lemma SeparatorBreaks(numerals: Numerals)
    ensures Read(numerals, Lex(Quoted("\U{2028}"))).Failed?
  {
    var text := Quoted("\U{2028}");
    assert Escaped("\U{2028}") == "\U{2028}" by { assert Escaped("") == ""; }
    assert text == "\"\U{2028}\"";
    assert text[1..] == "\U{2028}\"" && ToClose(text[1..]).None?;
    assert TokenLength(text) == Some(1) && text[..1] == "\"";
  }
}
