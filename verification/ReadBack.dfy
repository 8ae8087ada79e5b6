/** Exactly which data read back: those in which no comma comes to stand before an `@`, with no
    line separator in a string. Two things about any text show that the others do not. No
    string that is read holds a separator; and reading makes as many `unquote-splicing`s as
    there are tokens for them, while a comma before an `@` prints one too many. */
module ReadBack {
  import opened LispObjects
  import opened Wrappers
  import opened LispText
  import opened PrintRead

  /** Data of atoms that read back on their own, of any strings and of any lists. */
  predicate Written(numerals: Numerals, x: Obj)
    decreases x, 1
  {
    match x
    case Cell(_, cdr) => if Sugar(x) then Written(numerals, cdr.car) else WrittenBody(numerals, x)
    case Str(_) => true
    case _ => (x.Nil? || x.True? || x.Num? || x.Key? || x.Sym?) && PlainWord(numerals, x)
  }

  predicate WrittenBody(numerals: Numerals, x: Obj)
    requires x.Cell?
    decreases x, 0
  {
    && Written(numerals, x.car)
    && if x.cdr.Cell? then WrittenBody(numerals, x.cdr) else x.cdr.Nil? || Written(numerals, x.cdr)
  }

  // ----- strings that are read -----

  predicate Clean(x: Obj) {
    match x
    case Cell(car, cdr) => Clean(car) && Clean(cdr)
    case Str(s) => NoSeparators(s)
    case _ => true
  }

  predicate CleanToken(t: string) {
    t != "" && t[0] == '"' ==> NoSeparators(t)
  }

  predicate CleanTokens(ts: seq<string>) {
    forall t | t in ts :: CleanToken(t)
  }

  lemma {:induction false} ClosedClean(s: string)
    requires ToClose(s).Some?
    ensures NoSeparators(s[..ToClose(s).value])
  {
    var n := ToClose(s).value;
    if s[0] != '"' {
      if s[0] == '\\' && |s| > 1 && !Terminator(s[1]) && ToClose(s[2..]).Some? {
        ClosedClean(s[2..]);
        assert s[..n] == s[..2] + s[2..][..n - 2];
      } else {
        ClosedClean(s[1..]);
        assert s[..n] == s[..1] + s[1..][..n - 1];
      }
    }
  }

  lemma TokenClean(line: string)
    requires line != "" && TokenLength(line).Some?
    ensures CleanToken(line[..TokenLength(line).value])
  {
    if line[0] == '"' && ToClose(line[1..]).Some? {
      ClosedClean(line[1..]);
      var n := ToClose(line[1..]).value;
      assert line[..1 + n] == line[..1] + line[1..][..n];
    }
  }

  lemma {:induction false} LexClean(line: string)
    ensures CleanTokens(Lex(line))
    decreases |line|
  {
    if line != "" {
      match TokenLength(line)
      case None => LexClean(line[1..]);
      case Some(n) =>
        TokenClean(line);
        LexClean(line[n..]);
    }
  }

  lemma {:induction false} UnescapeClean(s: string)
    requires NoSeparators(s)
    ensures NoSeparators(Unescape(s))
  {
    if s != "" {
      if s[0] == '\\' && |s| > 1 && !Terminator(s[1]) {
        UnescapeClean(s[2..]);
      } else {
        UnescapeClean(s[1..]);
      }
    }
  }

  // ----- counting splices -----

  /** How many symbols `unquote-splicing` a datum holds. */
  function Splices(x: Obj): nat {
    if x.Cell? then Splices(x.car) + Splices(x.cdr) else if x == UNQUOTE_SPLICING then 1 else 0
  }

  /** How many a token makes. */
  function Makes(token: Obj): nat {
    if token == COMMA_AT || token == UNQUOTE_SPLICING then 1 else 0
  }

  function Weight(numerals: Numerals, t: string): nat {
    match TokenValue(numerals, t).0
    case Some(x) => Makes(x)
    case None => 0
  }

  function Weights(numerals: Numerals, ts: seq<string>): nat {
    if ts == [] then 0 else Weight(numerals, ts[0]) + Weights(numerals, ts[1..])
  }

  lemma WeightsCons(numerals: Numerals, t: string, ts: seq<string>)
    ensures Weights(numerals, [t] + ts) == Weight(numerals, t) + Weights(numerals, ts)
  {
    assert ([t] + ts)[1..] == ts;
  }

  lemma {:induction false} WeightsJoin(numerals: Numerals, a: seq<string>, b: seq<string>)
    ensures Weights(numerals, a + b) == Weights(numerals, a) + Weights(numerals, b)
  {
    if a == [] {
      assert a + b == b;
    } else {
      assert (a + b)[1..] == a[1..] + b;
      WeightsJoin(numerals, a[1..], b);
    }
  }

  lemma HeadsDiffer()
    ensures Makes(QUOTE) == 0 && Makes(QUASIQUOTE) == 0 && Makes(UNQUOTE) == 0 && Makes(UNQUOTE_SPLICING) == 1
    ensures Makes(TICK) == 0 && Makes(BACKQUOTE) == 0 && Makes(COMMA) == 0 && Makes(COMMA_AT) == 1
  {
    assert |COMMA_AT.name| == 2 && |UNQUOTE_SPLICING.name| == 16;
    assert |QUOTE.name| == 5 && |QUASIQUOTE.name| == 10 && |UNQUOTE.name| == 7;
    assert |TICK.name| == 1 && |BACKQUOTE.name| == 1 && |COMMA.name| == 1;
  }

  // ----- what reading gives -----

  /** A datum made of clean tokens of a known weight, less those that are left. */
  predicate Made(numerals: Numerals, p: Parsed, weight: nat) {
    p.Parsed? ==> Clean(p.x) && CleanTokens(p.rest) && Splices(p.x) + Weights(numerals, p.rest) == weight
  }

  lemma ValueClean(numerals: Numerals, t: string)
    requires CleanToken(t) && TokenValue(numerals, t).0.Some?
    ensures Clean(TokenValue(numerals, t).0.value) && !TokenValue(numerals, t).0.value.Cell?
  {
    if t != "" && t[0] == '"' { UnescapeClean(t[1..|t| - 1]); }
  }

  lemma {:induction false} NextMade(numerals: Numerals, ts: seq<string>)
    requires CleanTokens(ts)
    ensures var p := NextToken(numerals, ts);
            p.Parsed? ==> Clean(p.x) && !p.x.Cell? && CleanTokens(p.rest)
                          && Makes(p.x) + Weights(numerals, p.rest) == Weights(numerals, ts)
  {
    if ts != [] {
      if ts[0] == "\n" {
        NewlineWeighs(numerals);
        NextMade(numerals, ts[1..]);
      } else if TokenValue(numerals, ts[0]).0.Some? {
        ValueClean(numerals, ts[0]);
      }
    }
  }

  lemma NewlineWeighs(numerals: Numerals)
    ensures Weight(numerals, "\n") == 0
  {
    HeadsDiffer();
    assert |UNQUOTE_SPLICING.name| == 16 && |COMMA_AT.name| == 2 && |"\n"| == 1;
  }

  lemma {:induction false} ExpressionMade(numerals: Numerals, token: Obj, ts: seq<string>)
    requires Clean(token) && !token.Cell? && CleanTokens(ts)
    ensures Made(numerals, ParseExpression(numerals, token, ts), Makes(token) + Weights(numerals, ts))
    decreases |ts|, 0
  {
    var next := NextToken(numerals, ts);
    NextMade(numerals, ts);
    if token != LPAREN && Abbreviates(token).None? {
      TokenMade(numerals, token, ts);
    } else if next.Parsed? {
      var w := Makes(next.x) + Weights(numerals, next.rest);
      if token == LPAREN {
        BodyMade(numerals, next.x, next.rest);
        ParenMade(numerals, ts, next, w);
      } else {
        ExpressionMade(numerals, next.x, next.rest);
        MarkMade(numerals, token, ts, next, w);
      }
    }
  }

  lemma TokenMade(numerals: Numerals, token: Obj, ts: seq<string>)
    requires Clean(token) && !token.Cell? && CleanTokens(ts) && token != LPAREN && Abbreviates(token).None?
    ensures Made(numerals, ParseExpression(numerals, token, ts), Makes(token) + Weights(numerals, ts))
  {
  }

  lemma ParenMade(numerals: Numerals, ts: seq<string>, next: Parsed, w: nat)
    requires NextToken(numerals, ts) == next && next.Parsed?
    requires Made(numerals, ParseListBody(numerals, next.x, next.rest), w)
    ensures Made(numerals, ParseExpression(numerals, LPAREN, ts), Makes(LPAREN) + w)
  {
    ParenWeighs();
  }

  lemma MarkMade(numerals: Numerals, token: Obj, ts: seq<string>, next: Parsed, w: nat)
    requires NextToken(numerals, ts) == next && next.Parsed? && Abbreviates(token).Some? && token != LPAREN
    requires Made(numerals, ParseExpression(numerals, next.x, next.rest), w)
    ensures Made(numerals, ParseExpression(numerals, token, ts), Makes(token) + w)
  {
    var p := ParseExpression(numerals, next.x, next.rest);
    if p.Parsed? { QuoteMade(token, p.x); }
  }

  lemma ParenWeighs()
    ensures Makes(LPAREN) == 0 && Makes(RPAREN) == 0 && Makes(DOT) == 0
  {
    assert |LPAREN.name| == 1 && |RPAREN.name| == 1 && |DOT.name| == 1;
    assert |COMMA_AT.name| == 2 && |UNQUOTE_SPLICING.name| == 16;
  }

  lemma QuoteMade(token: Obj, x: Obj)
    requires Abbreviates(token).Some?
    ensures var y := Cell(Abbreviates(token).value, Cell(x, Nil));
            Splices(y) == Makes(token) + Splices(x) && Clean(y) == Clean(x)
  {
    HeadsDiffer();
    assert Clean(Cell(x, Nil)) == Clean(x);
    assert Splices(Nil) == 0 && Splices(Cell(x, Nil)) == Splices(x) + Splices(Nil);
  }

  lemma {:induction false} BodyMade(numerals: Numerals, token: Obj, ts: seq<string>)
    requires Clean(token) && !token.Cell? && CleanTokens(ts)
    ensures Made(numerals, ParseListBody(numerals, token, ts), Makes(token) + Weights(numerals, ts))
    decreases |ts|, 1
  {
    ParenWeighs();
    if token != RPAREN {
      ExpressionMade(numerals, token, ts);
      var first := ParseExpression(numerals, token, ts);
      if first.Parsed? {
        NextMade(numerals, first.rest);
        var next := NextToken(numerals, first.rest);
        if next.Parsed? {
          if next.x == DOT {
            TailMade(numerals, first.x, next.rest);
          } else {
            BodyMade(numerals, next.x, next.rest);
          }
        }
      }
    }
  }

  lemma {:induction false} TailMade(numerals: Numerals, x: Obj, ts: seq<string>)
    requires Clean(x) && CleanTokens(ts)
    ensures Made(numerals, ParseTail(numerals, x, ts), Splices(x) + Weights(numerals, ts))
    decreases |ts|, 2
  {
    ParenWeighs();
    NextMade(numerals, ts);
    var next := NextToken(numerals, ts);
    if next.Parsed? {
      ExpressionMade(numerals, next.x, next.rest);
      var last := ParseExpression(numerals, next.x, next.rest);
      if last.Parsed? { NextMade(numerals, last.rest); }
    }
  }

  /** Whatever is read, from whatever tokens: its strings hold no separators, and its splices
      are as many as the tokens taken make. */
  lemma ReadMade(numerals: Numerals, ts: seq<string>)
    requires CleanTokens(ts)
    ensures Made(numerals, Read(numerals, ts), Weights(numerals, ts))
  {
    NextMade(numerals, ts);
    var next := NextToken(numerals, ts);
    if next.Parsed? { ExpressionMade(numerals, next.x, next.rest); }
  }

  // ----- what printing makes -----

  function Excess(numerals: Numerals, x: Obj): nat {
    if Printable(numerals, x) then 0 else 1
  }

  function ExcessBody(numerals: Numerals, x: Obj): nat
    requires x.Cell?
  {
    if PrintableBody(numerals, x) then 0 else 1
  }

  function TextWeight(numerals: Numerals, text: string): nat {
    Weights(numerals, Lex(text))
  }

  /** What is left of a word after its `@` weighs something or nothing. */
  lemma {:induction false} RestOfWord(numerals: Numerals, word: string, rest: string)
    requires Delimited(rest) && forall i | 0 <= i < |word| :: WordChar(word[i]) && !Space(word[i])
    ensures TextWeight(numerals, word + rest) >= TextWeight(numerals, rest)
    decreases |word|
  {
    var text := word + rest;
    if word == "" {
      assert text == rest;
    } else {
      assert text[0] == word[0];
      var n := if word[0] != ',' then |word| else if |word| > 1 && word[1] == '@' then 2 else 1;
      if word[0] != ',' { WordEnds(word, rest); } else if |word| > 1 { assert text[1] == word[1]; }
      assert TokenLength(text) == Some(n);
      assert text[n..] == word[n..] + rest;
      RestOfWord(numerals, word[n..], rest);
      WeightsCons(numerals, text[..n], Lex(text[n..]));
    }
  }

  lemma AtomWeighs(numerals: Numerals, x: Obj, rest: string)
    requires !x.Cell? && Written(numerals, x) && Clean(x) && Delimited(rest)
    ensures Printable(numerals, x)
    ensures TextWeight(numerals, Text(numerals, x) + rest) >= Splices(x) + TextWeight(numerals, rest)
  {
    LexAtom(numerals, x, rest);
    WeightsCons(numerals, AtomText(numerals, x), Lex(rest));
  }

  lemma MarkWeighs(numerals: Numerals, mark: string, rest: string)
    requires Lex(mark + rest) == [mark] + Lex(rest)
    ensures TextWeight(numerals, mark + rest) == Weight(numerals, mark) + TextWeight(numerals, rest)
  {
    WeightsCons(numerals, mark, Lex(rest));
  }

  /** Only an atom starts with an `@`, and none that does is `unquote-splicing`. */
  lemma AtStarts(numerals: Numerals, x: Obj)
    requires StartsWithAt(numerals, x) && Written(numerals, x)
    ensures !x.Cell? && !x.Str? && Splices(x) == 0 && Text(numerals, x) == AtomText(numerals, x)
  {
    assert UNQUOTE_SPLICING.name[0] == 'u';
  }

  /** A comma before an `@`: the text has the weight of a splice that is not there. */
  lemma CommaWeighs(numerals: Numerals, t: string, rest: string)
    requires t != "" && t[0] == '@' && (forall i | 0 <= i < |t| :: WordChar(t[i]) && !Space(t[i]))
    requires MarksRead(numerals) && Delimited(rest)
    ensures TextWeight(numerals, ("," + t) + rest) >= 1 + TextWeight(numerals, rest)
  {
    var word := t[1..];
    RestOfWord(numerals, word, rest);
    assert ("," + t) + rest == ",@" + (word + rest);
    SpliceWeighs(numerals, word + rest);
  }

  lemma SpliceWeighs(numerals: Numerals, rest: string)
    requires MarksRead(numerals)
    ensures TextWeight(numerals, ",@" + rest) == 1 + TextWeight(numerals, rest)
  {
    LexMark(",@", rest);
    MarkWeighs(numerals, ",@", rest);
    MarkMakes(numerals, ",@");
    HeadsDiffer();
  }

  lemma MarkMakes(numerals: Numerals, mark: string)
    requires MarksRead(numerals) && mark in ["(", ")", "'", "`", ",", ",@", "."]
    ensures Weight(numerals, mark) == Makes(Sym(mark))
  {
  }

  lemma HeadMark(head: Obj)
    requires MarkOf(head).Some?
    ensures var mark := MarkOf(head).value;
            && Makes(Sym(mark)) == Splices(head) && mark in ["(", ")", "'", "`", ",", ",@", "."]
            && (mark == "'" || mark == "`" || mark == "," || mark == ",@") && (mark == "," ==> head == UNQUOTE)
  {
    HeadsDiffer();
    assert "'"[0] == '\'' && "`"[0] == '`' && |",@"| == 2;
  }

  lemma HeadWeighs(numerals: Numerals, head: Obj)
    requires MarkOf(head).Some? && MarksRead(numerals)
    ensures Weight(numerals, MarkOf(head).value) == Splices(head)
  {
    HeadMark(head);
    MarkMakes(numerals, MarkOf(head).value);
  }

  lemma TextThereToo(numerals: Numerals, x: Obj)
    requires Written(numerals, x)
    ensures Text(numerals, x) != ""
  {
  }

  // How the weight of a text follows from that of its parts, whatever the parts are.

  lemma MarkAdds(numerals: Numerals, mark: string, text: string, rest: string)
    requires Lex(mark + (text + rest)) == [mark] + Lex(text + rest)
    ensures TextWeight(numerals, (mark + text) + rest) == Weight(numerals, mark) + TextWeight(numerals, text + rest)
  {
    Shift(mark, text, rest);
    MarkWeighs(numerals, mark, text + rest);
  }

  lemma ParensAdd(numerals: Numerals, body: string, rest: string)
    ensures TextWeight(numerals, ("(" + body + ")") + rest) >= TextWeight(numerals, body + ")" + rest)
  {
    LexMark("(", body + ")" + rest);
    MarkWeighs(numerals, "(", body + ")" + rest);
    assert ("(" + body + ")") + rest == "(" + (body + ")" + rest);
  }

  lemma LastAdds(numerals: Numerals, first: string, rest: string)
    ensures TextWeight(numerals, ")" + rest) >= TextWeight(numerals, rest)
    ensures TextWeight(numerals, first + ")" + rest) == TextWeight(numerals, first + (")" + rest))
  {
    LexMark(")", rest);
    MarkWeighs(numerals, ")", rest);
    Shift(first, ")", rest);
  }

  lemma MoreAdds(numerals: Numerals, first: string, more: string, rest: string)
    ensures TextWeight(numerals, " " + (more + ")" + rest)) == TextWeight(numerals, more + ")" + rest)
    ensures TextWeight(numerals, (first + " " + more) + ")" + rest)
         == TextWeight(numerals, first + (" " + (more + ")" + rest)))
  {
    LexSpace(more + ")" + rest);
    Shift(first + " " + more, ")", rest);
    Shift(first + " ", more, ")" + rest);
    Shift(first, " ", more + (")" + rest));
    Shift(more, ")", rest);
  }

  lemma DotAdds(numerals: Numerals, last: string, rest: string)
    ensures TextWeight(numerals, (". " + last) + ")" + rest) >= TextWeight(numerals, last + (")" + rest))
  {
    var end := last + (")" + rest);
    LexDot(" " + end);
    MarkWeighs(numerals, ".", " " + end);
    LexSpace(end);
    assert ". " == "." + " ";
    Shift(". " + last, ")", rest);
    Shift(". ", last, ")" + rest);
    Shift(".", " ", end);
  }

  lemma {:induction false} TextWeighs(numerals: Numerals, x: Obj, rest: string)
    requires Written(numerals, x) && Clean(x) && MarksRead(numerals) && Delimited(rest)
    ensures TextWeight(numerals, Text(numerals, x) + rest)
         >= Splices(x) + Excess(numerals, x) + TextWeight(numerals, rest)
    decreases x, 1
  {
    if !x.Cell? {
      AtomWeighs(numerals, x, rest);
    } else if Sugar(x) {
      SugarWeighs(numerals, x, rest);
    } else {
      BodyWeighs(numerals, x, rest);
      ParensAdd(numerals, BodyText(numerals, x), rest);
    }
  }

  lemma {:induction false} SugarWeighs(numerals: Numerals, x: Obj, rest: string)
    requires Sugar(x) && Written(numerals, x) && Clean(x) && MarksRead(numerals) && Delimited(rest)
    ensures TextWeight(numerals, Text(numerals, x) + rest)
         >= Splices(x) + Excess(numerals, x) + TextWeight(numerals, rest)
    decreases x, 0, 0
  {
    var mark, arg := MarkOf(x.car).value, x.cdr.car;
    SugarSplices(x);
    if x.car == UNQUOTE && StartsWithAt(numerals, arg) {
      CommaAtWeighs(numerals, arg, rest);
    } else {
      TextWeighs(numerals, arg, rest);
      PlainMark(numerals, x.car, arg, rest);
    }
  }

  lemma CommaAtWeighs(numerals: Numerals, arg: Obj, rest: string)
    requires Written(numerals, arg) && StartsWithAt(numerals, arg) && MarksRead(numerals) && Delimited(rest)
    ensures Splices(UNQUOTE) + Splices(arg) == 0
    ensures TextWeight(numerals, ("," + Text(numerals, arg)) + rest) >= 1 + TextWeight(numerals, rest)
  {
    AtStarts(numerals, arg);
    CommaWeighs(numerals, Text(numerals, arg), rest);
    HeadsDiffer();
  }

  lemma PlainMark(numerals: Numerals, head: Obj, arg: Obj, rest: string)
    requires MarkOf(head).Some? && MarksRead(numerals) && Written(numerals, arg)
    requires head == UNQUOTE ==> !StartsWithAt(numerals, arg)
    ensures TextWeight(numerals, (MarkOf(head).value + Text(numerals, arg)) + rest)
         == Splices(head) + TextWeight(numerals, Text(numerals, arg) + rest)
  {
    var mark, inner := MarkOf(head).value, Text(numerals, arg);
    TextThereToo(numerals, arg);
    assert (inner + rest)[0] == inner[0];
    MarkLexes(head, inner + rest);
    MarkAdds(numerals, mark, inner, rest);
    HeadWeighs(numerals, head);
  }

  lemma MarkLexes(head: Obj, rest: string)
    requires MarkOf(head).Some? && rest != "" && (head == UNQUOTE ==> rest[0] != '@')
    ensures Lex(MarkOf(head).value + rest) == [MarkOf(head).value] + Lex(rest)
  {
    HeadMark(head);
    LexMark(MarkOf(head).value, rest);
  }

  lemma SugarSplices(x: Obj)
    requires Sugar(x)
    ensures Splices(x) == Splices(x.car) + Splices(x.cdr.car)
  {
    assert Splices(x.cdr) == Splices(x.cdr.car) + Splices(Nil);
  }

  lemma {:induction false} BodyWeighs(numerals: Numerals, x: Obj, rest: string)
    requires x.Cell? && WrittenBody(numerals, x) && Clean(x) && MarksRead(numerals)
    ensures TextWeight(numerals, BodyText(numerals, x) + ")" + rest)
         >= Splices(x) + ExcessBody(numerals, x) + TextWeight(numerals, rest)
    decreases x, 0, 1
  {
    var first := Text(numerals, x.car);
    if x.cdr.Nil? {
      TextWeighs(numerals, x.car, ")" + rest);
      LastAdds(numerals, first, rest);
    } else if x.cdr.Cell? {
      var more := BodyText(numerals, x.cdr);
      TextWeighs(numerals, x.car, " " + (more + ")" + rest));
      BodyWeighs(numerals, x.cdr, rest);
      MoreAdds(numerals, first, more, rest);
    } else {
      DottedWeighs(numerals, x, rest);
    }
  }

  lemma {:induction false} DottedWeighs(numerals: Numerals, x: Obj, rest: string)
    requires x.Cell? && !x.cdr.Cell? && !x.cdr.Nil? && WrittenBody(numerals, x) && Clean(x) && MarksRead(numerals)
    ensures TextWeight(numerals, BodyText(numerals, x) + ")" + rest)
         >= Splices(x) + ExcessBody(numerals, x) + TextWeight(numerals, rest)
    decreases x, 0, 0
  {
    var first, last := Text(numerals, x.car), Text(numerals, x.cdr);
    DottedParts(numerals, x);
    TextWeighs(numerals, x.car, " " + ((". " + last) + ")" + rest));
    TextWeighs(numerals, x.cdr, ")" + rest);
    DottedAdds(numerals, first, last, rest);
  }

  lemma DottedParts(numerals: Numerals, x: Obj)
    requires x.Cell? && !x.cdr.Cell? && !x.cdr.Nil? && WrittenBody(numerals, x)
    ensures Written(numerals, x.car) && Written(numerals, x.cdr)
    ensures ExcessBody(numerals, x) <= Excess(numerals, x.car) + Excess(numerals, x.cdr)
    ensures BodyText(numerals, x) == Text(numerals, x.car) + " " + (". " + Text(numerals, x.cdr))
  {
    var first, last := Text(numerals, x.car), Text(numerals, x.cdr);
    assert first + " . " + last == first + " " + (". " + last);
  }

  lemma DottedAdds(numerals: Numerals, first: string, last: string, rest: string)
    ensures TextWeight(numerals, (first + " " + (". " + last)) + ")" + rest)
         == TextWeight(numerals, first + (" " + ((". " + last) + ")" + rest)))
    ensures TextWeight(numerals, " " + ((". " + last) + ")" + rest)) >= TextWeight(numerals, last + (")" + rest))
    ensures TextWeight(numerals, ")" + rest) >= TextWeight(numerals, rest)
  {
    DotAdds(numerals, last, rest);
    LastAdds(numerals, last, rest);
    MoreAdds(numerals, first, ". " + last, rest);
  }

  // ----- the theorem -----

  /** The printed text of a datum reads back as the datum, to the end of the line, if and only
      if no comma comes to stand before an `@` in it and no string of it holds a separator. */
  lemma ReadsBackExactly(numerals: Numerals, x: Obj)
    requires Written(numerals, x) && MarksRead(numerals)
    ensures Read(numerals, Lex(Text(numerals, x)) + ["\n"]) == Parsed(x, ["\n"]) <==> Printable(numerals, x)
  {
    if Printable(numerals, x) { ReadsBack(numerals, x); }
    if Read(numerals, Lex(Text(numerals, x)) + ["\n"]) == Parsed(x, ["\n"]) { NoExcess(numerals, x); }
  }

  lemma NoExcess(numerals: Numerals, x: Obj)
    requires Written(numerals, x) && MarksRead(numerals)
    requires Read(numerals, Lex(Text(numerals, x)) + ["\n"]) == Parsed(x, ["\n"])
    ensures Printable(numerals, x)
  {
    LexClean(Text(numerals, x));
    AllTaken(numerals, Lex(Text(numerals, x)), x);
    WholeWeighs(numerals, x);
  }

  lemma WholeWeighs(numerals: Numerals, x: Obj)
    requires Written(numerals, x) && Clean(x) && MarksRead(numerals)
    ensures TextWeight(numerals, Text(numerals, x)) >= Splices(x) + Excess(numerals, x)
  {
    assert Text(numerals, x) + "" == Text(numerals, x);
    TextWeighs(numerals, x, "");
  }

  lemma AllTaken(numerals: Numerals, toks: seq<string>, x: Obj)
    requires CleanTokens(toks) && Read(numerals, toks + ["\n"]) == Parsed(x, ["\n"])
    ensures Clean(x) && Splices(x) == Weights(numerals, toks)
  {
    ReadMade(numerals, toks + ["\n"]);
    WeightsJoin(numerals, toks, ["\n"]);
  }
}
