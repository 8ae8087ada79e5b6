/** What a printed text looks like (`packages/interpreter/src/print.ts`): parentheses, spaces, dots,
    quote marks and escapes, said of the items of lists and of the characters of strings. */
module PrintedForm {
  import opened LispObjects
  import opened LispText

  function Items(x: Obj): seq<Obj> {
    if x.Cell? then [x.car] + Items(x.cdr) else []
  }

  /** What a list ends in. */
  function End(x: Obj): Obj {
    if x.Cell? then End(x.cdr) else x
  }

  function Texts(numerals: Numerals, xs: seq<Obj>): (r: seq<string>)
    ensures |r| == |xs|
  {
    seq(|xs|, i requires 0 <= i < |xs| => Text(numerals, xs[i]))
  }

  function Spaced(texts: seq<string>): string {
    if texts == [] then "" else if |texts| == 1 then texts[0] else texts[0] + " " + Spaced(texts[1..])
  }

  lemma SpacedMore(first: string, more: seq<string>, end: string)
    requires more != []
    ensures first + " " + (Spaced(more) + end) == Spaced([first] + more) + end
  {
    assert ([first] + more)[1..] == more;
    assert first + " " + (Spaced(more) + end) == (first + " " + Spaced(more)) + end;
  }

  function Ending(numerals: Numerals, x: Obj): string {
    if x.Nil? then "" else " . " + Text(numerals, x)
  }

  lemma {:induction false} BodyPrinted(numerals: Numerals, x: Obj)
    requires x.Cell?
    ensures BodyText(numerals, x) == Spaced(Texts(numerals, Items(x))) + Ending(numerals, End(x))
    decreases x
  {
    var first := Text(numerals, x.car);
    if x.cdr.Cell? {
      BodyPrinted(numerals, x.cdr);
      var more := Texts(numerals, Items(x.cdr));
      assert Texts(numerals, Items(x)) == [first] + more;
      SpacedMore(first, more, Ending(numerals, End(x)));
    } else {
      assert Items(x) == [x.car] && Texts(numerals, [x.car]) == [first] && Spaced([first]) == first;
      if x.cdr.Nil? { assert first + "" == first; } else { Dotted(first, Text(numerals, x.cdr)); }
    }
  }

  lemma Dotted(first: string, last: string)
    ensures first + " . " + last == first + (" . " + last)
  {
  }

  /** A list of two whose first is one of the four symbols is printed as a mark and the second. */
  predicate MarkedBy(x: Obj, head: string) {
    x.Cell? && x.car == Sym(head) && x.cdr.Cell? && x.cdr.cdr.Nil?
  }

  /** Lists are printed in parentheses, item by item with one space between, and a dot before what
      they end in if that is not nil; but a quoted form has its mark in front. */
  lemma ListPrinted(numerals: Numerals, x: Obj)
    requires x.Cell?
    ensures MarkedBy(x, "quote") ==> Text(numerals, x) == "'" + Text(numerals, x.cdr.car)
    ensures MarkedBy(x, "quasiquote") ==> Text(numerals, x) == "`" + Text(numerals, x.cdr.car)
    ensures MarkedBy(x, "unquote") ==> Text(numerals, x) == "," + Text(numerals, x.cdr.car)
    ensures MarkedBy(x, "unquote-splicing") ==> Text(numerals, x) == ",@" + Text(numerals, x.cdr.car)
    ensures !MarkedBy(x, "quote") && !MarkedBy(x, "quasiquote") && !MarkedBy(x, "unquote")
            && !MarkedBy(x, "unquote-splicing")
            ==> Text(numerals, x)
                == "(" + (Spaced(Texts(numerals, Items(x))) + Ending(numerals, End(x))) + ")"
  {
    BodyPrinted(numerals, x);
    HeadsDiffer();
  }

  lemma HeadsDiffer()
    ensures "quote" != "quasiquote" && "unquote" != "unquote-splicing" && "quote" != "unquote"
    ensures "quasiquote" != "unquote" && "quote" != "unquote-splicing" && "quasiquote" != "unquote-splicing"
  {
    assert |"quote"| == 5 && |"quasiquote"| == 10 && |"unquote"| == 7 && |"unquote-splicing"| == 16;
  }

  // ----- strings -----

  /** The letter that stands for a character behind a backslash. */
  const LETTERS: map<char, char> :=
    map['\U{0008}' := 'b', '\t' := 't', '\n' := 'n', '\U{000B}' := 'v', '\U{000C}' := 'f', '\r' := 'r',
        '"' := '"', '\\' := '\\']

  predicate Piece(c: char, piece: string) {
    if c in LETTERS then piece == ['\\', LETTERS[c]] else piece == [c]
  }

  function Joined(pieces: seq<string>): string {
    if pieces == [] then "" else pieces[0] + Joined(pieces[1..])
  }

  predicate Pieces(s: string, pieces: seq<string>) {
    |pieces| == |s| && forall k | 0 <= k < |s| :: Piece(s[k], pieces[k])
  }

  lemma {:induction false} EscapedPieces(s: string) returns (pieces: seq<string>)
    ensures Pieces(s, pieces) && Escaped(s) == Joined(pieces)
  {
    if s == "" {
      pieces := [];
    } else {
      var rest := EscapedPieces(s[1..]);
      var piece := if EscapeOf(s[0]).Some? then ['\\', EscapeOf(s[0]).value] else [s[0]];
      pieces := [piece] + rest;
      assert pieces[1..] == rest;
      forall k | 0 <= k < |s| ensures Piece(s[k], pieces[k]) {
        if k > 0 { assert Piece(s[1..][k - 1], rest[k - 1]); }
      }
    }
  }

  /** A string is printed character by character between quotes, eight of them as a backslash and a
      letter. */
  lemma StringPrinted(s: string)
    ensures exists pieces :: Pieces(s, pieces) && Quoted(s) == "\"" + Joined(pieces) + "\""
  {
    var pieces := EscapedPieces(s);
  }
}
