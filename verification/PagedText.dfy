/** Showing a text a window of words at a time (`packages/compaction/src/compaction.ts`). */
module PagedText {
  import LispText

  datatype Span = Span(start: nat, end: nat)

  // ----- words -----

  predicate Blank(c: char) {
    LispText.Space(c)
  }

  function WordEnd(text: string, i: nat): (j: nat)
    requires i <= |text|
    ensures i <= j <= |text| && (forall k | i <= k < j :: !Blank(text[k])) && (j < |text| ==> Blank(text[j]))
    decreases |text| - i
  {
    if i == |text| || Blank(text[i]) then i else WordEnd(text, i + 1)
  }

  /** The words from a place on: the longest runs without blanks. */
  function Spans(text: string, i: nat): (spans: seq<Span>)
    requires i <= |text|
    decreases |text| - i
  {
    if i == |text| then [] else if Blank(text[i]) then Spans(text, i + 1)
    else [Span(i, WordEnd(text, i))] + Spans(text, WordEnd(text, i))
  }

  /** Words in order, with blanks between them, each without blanks. */
  predicate InOrder(text: string, spans: seq<Span>, i: nat) {
    && (forall k | 0 <= k < |spans| :: i <= spans[k].start < spans[k].end <= |text|)
    && (forall k, l | 0 <= k < l < |spans| :: Before(spans, k, l))
    && (forall k | 0 <= k < |spans| :: NoBlanks(text, spans[k]))
  }

  predicate Before(spans: seq<Span>, k: nat, l: nat)
    requires k < l < |spans|
  {
    spans[k].end < spans[l].start
  }

  predicate NoBlanks(text: string, span: Span) {
    forall c | span.start <= c < span.end && c < |text| :: !Blank(text[c])
  }

  lemma {:induction false} SpansInOrder(text: string, i: nat)
    requires i <= |text|
    ensures InOrder(text, Spans(text, i), i)
    decreases |text| - i
  {
    if i < |text| {
      if Blank(text[i]) {
        SpansInOrder(text, i + 1);
      } else {
        var j := WordEnd(text, i);
        if j < |text| {
          SpansInOrder(text, j + 1);
          InOrderCons(text, i, j, Spans(text, j + 1));
        }
      }
    }
  }

  lemma InOrderCons(text: string, i: nat, j: nat, rest: seq<Span>)
    requires i < j < |text| && InOrder(text, rest, j + 1) && forall c | i <= c < j :: !Blank(text[c])
    ensures InOrder(text, [Span(i, j)] + rest, i)
  {
    var spans := [Span(i, j)] + rest;
    assert forall k | 0 < k < |spans| :: spans[k] == rest[k - 1];
    forall k, l | 0 <= k < l < |spans| ensures Before(spans, k, l) {
      if k > 0 { assert Before(rest, k - 1, l - 1); }
    }
  }

  function Count(text: string): nat {
    |Spans(text, 0)|
  }

  // ----- a window -----

  datatype Slice =
    Slice(text: string, above: nat, shown: nat, below: nat, total: nat, cut: bool, chars: nat, totalChars: nat)

  /** Where a window of at most `length` words stops: before the first word, other than its
      first, that would take it past the budget of characters. */
  function StopAt(spans: seq<Span>, from: nat, to: nat, length: nat, charBudget: nat): (stop: nat)
    requires from <= to <= |spans| && from < |spans|
    ensures to <= stop <= |spans|
    decreases |spans| - to
  {
    if to == |spans| || to - from >= length || (to > from && spans[to].end - spans[from].start > charBudget) then to
    else StopAt(spans, from, to + 1, length, charBudget)
  }

  /** The text from the start of one word to the end of another. */
  function Stretch(text: string, spans: seq<Span>, from: nat, to: nat): (out: string)
    requires InOrder(text, spans, 0) && from < to <= |spans|
    ensures |out| == spans[to - 1].end - spans[from].start
  {
    assert to - 1 > from ==> Before(spans, from, to - 1);
    text[spans[from].start..spans[to - 1].end]
  }

  /** The first characters of a word. */
  function Opening(text: string, span: Span, n: nat): string
    requires span.start + n <= |text|
  {
    text[span.start..span.start + n]
  }

  /** The words from one place to another, or as much of them as the budget of characters allows. */
  function Window(text: string, spans: seq<Span>, from: nat, to: nat, charBudget: nat): Slice
    requires InOrder(text, spans, 0) && from <= to <= |spans| && from < |spans|
  {
    var out := Stretch(text, spans, from, if to == from then from + 1 else to);
    var cut := |out| > charBudget;
    var kept := if cut then out[..charBudget] else out;
    Slice(kept, from, to - from, |spans| - to, |spans|, cut, |kept|, |text|)
  }

  function SliceOf(text: string, spans: seq<Span>, offset: nat, length: nat, charBudget: nat): Slice
    requires InOrder(text, spans, 0)
  {
    var total := |spans|;
    var from := if offset < total then offset else total;
    if from == total then Slice("", total, 0, 0, total, false, 0, |text|)
    else Window(text, spans, from, StopAt(spans, from, from, length, charBudget), charBudget)
  }

  /** The loop that looks for the end of a window, and the character its last word ends at. */
  method FindStop(spans: seq<Span>, from: nat, length: nat, charBudget: nat) returns (to: nat, endChar: nat)
    requires from < |spans|
    ensures to == StopAt(spans, from, from, length, charBudget)
    ensures endChar == if to == from then spans[from].end else spans[to - 1].end
  {
    to, endChar := from, spans[from].end;
    while to < |spans| && to - from < length
      invariant from <= to <= |spans|
      invariant endChar == if to == from then spans[from].end else spans[to - 1].end
      invariant StopAt(spans, from, from, length, charBudget) == StopAt(spans, from, to, length, charBudget)
    {
      if to > from && spans[to].end - spans[from].start > charBudget { break; }
      endChar := spans[to].end;
      to := to + 1;
    }
  }

  method SliceWords(text: string, spans: seq<Span>, offset: int, length: nat, charBudget: nat) returns (s: Slice)
    requires InOrder(text, spans, 0)
    ensures s == SliceOf(text, spans, if offset < 0 then 0 else offset, length, charBudget)
  {
    var total := |spans|;
    var from := if offset < 0 then 0 else if offset < total then offset else total;
    if from == total { return Slice("", total, 0, 0, total, false, 0, |text|); }
    var to, endChar := FindStop(spans, from, length, charBudget);
    assert to - 1 > from ==> Before(spans, from, to - 1);
    var out := text[spans[from].start..endChar];
    assert out == Stretch(text, spans, from, if to == from then from + 1 else to);
    var cut := |out| > charBudget;
    if cut { out := out[..charBudget]; }
    return Slice(out, from, to - from, total - to, total, cut, |out|, |text|);
  }

  predicate TooLong(span: Span, charBudget: nat) {
    span.end - span.start > charBudget
  }

  lemma {:induction false} StopFits(spans: seq<Span>, from: nat, to: nat, length: nat, charBudget: nat)
    requires from < to <= |spans|
    ensures var stop := StopAt(spans, from, to, length, charBudget);
            && (to < stop ==> spans[stop - 1].end - spans[from].start <= charBudget)
            && (to <= from + length ==> stop <= from + length)
    decreases |spans| - to
  {
    if !(to == |spans| || to - from >= length || spans[to].end - spans[from].start > charBudget) {
      StopFits(spans, from, to + 1, length, charBudget);
    }
  }

  /** A window takes its first word whatever its length, and others only while all fit. */
  lemma StopFacts(text: string, spans: seq<Span>, from: nat, length: nat, charBudget: nat)
    requires InOrder(text, spans, 0) && from < |spans| && length > 0
    ensures var to := StopAt(spans, from, from, length, charBudget);
            && from < to <= from + length && to <= |spans|
            && (spans[to - 1].end - spans[from].start > charBudget <==> TooLong(spans[from], charBudget))
            && (TooLong(spans[from], charBudget) ==> to == from + 1)
  {
    var to := StopAt(spans, from, from, length, charBudget);
    assert to == StopAt(spans, from, from + 1, length, charBudget);
    StopFits(spans, from, from + 1, length, charBudget);
    if to > from + 1 { assert Before(spans, from, to - 1); }
  }

  lemma OthersFit(text: string, spans: seq<Span>, from: nat, to: nat, charBudget: nat)
    requires InOrder(text, spans, 0) && from < to <= |spans| && spans[to - 1].end - spans[from].start <= charBudget
    ensures forall w | from <= w < to :: !TooLong(spans[w], charBudget)
  {
    forall w | from <= w < to ensures !TooLong(spans[w], charBudget) {
      if from < w { assert Before(spans, from, w); }
      if w < to - 1 { assert Before(spans, w, to - 1); }
    }
  }

  /** A window shows at least one word and no more than asked for; it is cut exactly when its
      first word alone is past the budget, and then that is all it shows. */
  lemma WindowShows(text: string, spans: seq<Span>, offset: nat, length: nat, charBudget: nat)
    requires InOrder(text, spans, 0) && offset < |spans| && length > 0
    ensures var s := SliceOf(text, spans, offset, length, charBudget);
            && s.above == offset && 0 < s.shown <= length && s.above + s.shown + s.below == s.total == |spans|
            && (s.cut <==> TooLong(spans[offset], charBudget))
            && (s.cut ==> s.shown == 1)
            && s.text == (if s.cut then Opening(text, spans[offset], charBudget)
                          else Stretch(text, spans, offset, offset + s.shown))
  {
    StopFacts(text, spans, offset, length, charBudget);
    WindowText(text, spans, offset, StopAt(spans, offset, offset, length, charBudget), charBudget);
  }

  lemma WindowText(text: string, spans: seq<Span>, from: nat, to: nat, charBudget: nat)
    requires InOrder(text, spans, 0) && from < to <= |spans|
    ensures var out := Stretch(text, spans, from, to);
            |out| > charBudget ==>
              && spans[from].start + charBudget <= |text|
              && out[..charBudget] == Opening(text, spans[from], charBudget)
  {
  }

  /** No word of a window but a first one that is cut is past the budget. */
  lemma WindowFits(text: string, spans: seq<Span>, offset: nat, length: nat, charBudget: nat)
    requires InOrder(text, spans, 0) && offset < |spans| && length > 0 && !TooLong(spans[offset], charBudget)
    ensures var s := SliceOf(text, spans, offset, length, charBudget);
            offset + s.shown <= |spans| && forall w | offset <= w < offset + s.shown :: !TooLong(spans[w], charBudget)
  {
    StopFacts(text, spans, offset, length, charBudget);
    OthersFit(text, spans, offset, StopAt(spans, offset, offset, length, charBudget), charBudget);
  }

  // ----- page after page -----

  /** How many words each page may show: what the step has left, which changes. */
  type Lengths = nat -> nat

  ghost predicate Positive(lengths: Lengths) {
    forall page: nat :: lengths(page) > 0
  }

  /** The windows one gets by following the offset that each gives. */
  function Pages(text: string, spans: seq<Span>, offset: nat, lengths: Lengths, page: nat,
                 charBudget: nat): (pages: seq<Slice>)
    requires InOrder(text, spans, 0) && offset < |spans| && Positive(lengths)
    ensures pages != []
    decreases |spans| - offset
  {
    WindowShows(text, spans, offset, lengths(page), charBudget);
    var s := SliceOf(text, spans, offset, lengths(page), charBudget);
    if s.cut || s.below == 0 then [s] else [s] + Pages(text, spans, s.above + s.shown, lengths, page + 1, charBudget)
  }

  predicate OnPage(s: Slice, word: nat) {
    s.above <= word < s.above + s.shown
  }

  predicate Follow(pages: seq<Slice>, offset: nat) {
    && (pages != [] ==> pages[0].above == offset)
    && forall k | 0 < k < |pages| :: pages[k].above == pages[k - 1].above + pages[k - 1].shown
  }

  predicate Covered(pages: seq<Slice>, word: nat) {
    exists k | 0 <= k < |pages| :: OnPage(pages[k], word)
  }

  predicate SomeTooLong(spans: seq<Span>, from: nat, charBudget: nat) {
    exists w | from <= w < |spans| :: TooLong(spans[w], charBudget)
  }

  /** The last page is cut if a word is too long, and otherwise leaves nothing below. */
  predicate EndsRight(last: Slice, spans: seq<Span>, offset: nat, charBudget: nat) {
    && (!last.cut ==> last.below == 0)
    && (last.cut <==> SomeTooLong(spans, offset, charBudget))
  }

  lemma FirstPage(text: string, spans: seq<Span>, offset: nat, length: nat, charBudget: nat)
    requires InOrder(text, spans, 0) && offset < |spans| && length > 0
    ensures var s := SliceOf(text, spans, offset, length, charBudget);
            && s.above == offset && offset < s.above + s.shown <= |spans|
            && (s.cut || s.below == 0 ==> EndsRight(s, spans, offset, charBudget))
            && (!s.cut ==> (s.below != 0 <==> s.above + s.shown < |spans|))
            && (!s.cut ==>
                  (SomeTooLong(spans, offset, charBudget) <==> SomeTooLong(spans, s.above + s.shown, charBudget)))
  {
    WindowShows(text, spans, offset, length, charBudget);
    var s := SliceOf(text, spans, offset, length, charBudget);
    if s.cut {
      assert TooLong(spans[offset], charBudget);
    } else {
      WindowFits(text, spans, offset, length, charBudget);
      LaterTooLong(spans, offset, s.above + s.shown, charBudget);
    }
  }

  lemma LaterTooLong(spans: seq<Span>, from: nat, to: nat, charBudget: nat)
    requires from <= to <= |spans| && forall w | from <= w < to :: !TooLong(spans[w], charBudget)
    ensures SomeTooLong(spans, from, charBudget) <==> SomeTooLong(spans, to, charBudget)
  {
  }

  /** Pages as they follow one another from a word on. */
  predicate PagedFrom(pages: seq<Slice>, spans: seq<Span>, offset: nat, charBudget: nat)
    decreases |pages|
  {
    && pages != []
    && var s, next := pages[0], pages[0].above + pages[0].shown;
    && s.above == offset < next <= |spans|
    && if |pages| == 1 then EndsRight(s, spans, offset, charBudget) && (s.cut || next == |spans|)
       else && (SomeTooLong(spans, offset, charBudget) <==> SomeTooLong(spans, next, charBudget))
            && PagedFrom(pages[1..], spans, next, charBudget)
  }

  lemma {:induction false} PagesPaged(text: string, spans: seq<Span>, offset: nat, lengths: Lengths, page: nat,
                                      charBudget: nat)
    requires InOrder(text, spans, 0) && offset < |spans| && Positive(lengths)
    ensures PagedFrom(Pages(text, spans, offset, lengths, page, charBudget), spans, offset, charBudget)
    decreases |spans| - offset
  {
    FirstPage(text, spans, offset, lengths(page), charBudget);
    var s := SliceOf(text, spans, offset, lengths(page), charBudget);
    if s.cut || s.below == 0 {
      PagedLast(s, spans, offset, charBudget);
    } else {
      var next := s.above + s.shown;
      PagesPaged(text, spans, next, lengths, page + 1, charBudget);
      PagedFirst(s, Pages(text, spans, next, lengths, page + 1, charBudget), spans, offset, charBudget);
    }
  }

  lemma PagedLast(s: Slice, spans: seq<Span>, offset: nat, charBudget: nat)
    requires s.above == offset < s.above + s.shown <= |spans|
    requires EndsRight(s, spans, offset, charBudget) && (s.cut || s.above + s.shown == |spans|)
    ensures PagedFrom([s], spans, offset, charBudget)
  {
  }

  lemma PagedFirst(s: Slice, rest: seq<Slice>, spans: seq<Span>, offset: nat, charBudget: nat)
    requires s.above == offset < s.above + s.shown <= |spans|
    requires SomeTooLong(spans, offset, charBudget) <==> SomeTooLong(spans, s.above + s.shown, charBudget)
    requires PagedFrom(rest, spans, s.above + s.shown, charBudget)
    ensures PagedFrom([s] + rest, spans, offset, charBudget)
  {
    assert ([s] + rest)[1..] == rest;
  }

  lemma {:induction false} PagedFollow(pages: seq<Slice>, spans: seq<Span>, offset: nat, charBudget: nat)
    requires PagedFrom(pages, spans, offset, charBudget)
    ensures Follow(pages, offset)
    decreases |pages|
  {
    if |pages| > 1 {
      PagedFollow(pages[1..], spans, pages[0].above + pages[0].shown, charBudget);
      FollowCons(pages[0], pages[1..], offset);
      assert pages == [pages[0]] + pages[1..];
    }
  }

  lemma FollowCons(s: Slice, rest: seq<Slice>, offset: nat)
    requires s.above == offset && rest != [] && Follow(rest, s.above + s.shown)
    ensures Follow([s] + rest, offset)
  {
  }

  lemma {:induction false} PagedEnd(pages: seq<Slice>, spans: seq<Span>, offset: nat, charBudget: nat)
    requires PagedFrom(pages, spans, offset, charBudget)
    ensures EndsRight(pages[|pages| - 1], spans, offset, charBudget)
    decreases |pages|
  {
    if |pages| > 1 { PagedEnd(pages[1..], spans, pages[0].above + pages[0].shown, charBudget); }
  }

  lemma {:induction false} PagedCover(pages: seq<Slice>, spans: seq<Span>, offset: nat, charBudget: nat, word: nat)
    requires PagedFrom(pages, spans, offset, charBudget) && offset <= word < |spans|
    requires !SomeTooLong(spans, offset, charBudget)
    ensures Covered(pages, word)
    decreases |pages|
  {
    if OnPage(pages[0], word) {
    } else {
      PagedCover(pages[1..], spans, pages[0].above + pages[0].shown, charBudget, word);
      CoveredLater(pages, word);
    }
  }

  lemma CoveredLater(pages: seq<Slice>, word: nat)
    requires pages != [] && Covered(pages[1..], word)
    ensures Covered(pages, word)
  {
    var k :| 0 <= k < |pages| - 1 && OnPage(pages[1..][k], word);
    assert OnPage(pages[k + 1], word);
  }

  lemma {:induction false} LaterAbove(pages: seq<Slice>, offset: nat, j: nat, k: nat)
    requires Follow(pages, offset) && j < k < |pages|
    ensures pages[j].above + pages[j].shown <= pages[k].above
    decreases k
  {
    if j < k - 1 { LaterAbove(pages, offset, j, k - 1); }
  }

  predicate ShownOnce(pages: seq<Slice>, word: nat) {
    Covered(pages, word) && forall j, k | 0 <= j < k < |pages| :: !(OnPage(pages[j], word) && OnPage(pages[k], word))
  }

  /** Following the offsets from the start, with any length for each page, comes to an end
      having shown every word exactly once, exactly when no word is longer than the budget of
      characters; otherwise it stops at the first such word. */
  lemma PagingIsExact(text: string, lengths: Lengths, charBudget: nat)
    requires Spans(text, 0) != [] && Positive(lengths)
    ensures InOrder(text, Spans(text, 0), 0)
    ensures var spans := Spans(text, 0);
            var pages := Pages(text, spans, 0, lengths, 0, charBudget);
            var last := pages[|pages| - 1];
            && (last.below == 0 && !last.cut <==> !SomeTooLong(spans, 0, charBudget))
            && (!last.cut ==> forall word | 0 <= word < |spans| :: ShownOnce(pages, word))
  {
    SpansInOrder(text, 0);
    var spans := Spans(text, 0);
    var pages := Pages(text, spans, 0, lengths, 0, charBudget);
    PagesPaged(text, spans, 0, lengths, 0, charBudget);
    PagedEnd(pages, spans, 0, charBudget);
    PagedFollow(pages, spans, 0, charBudget);
    if !pages[|pages| - 1].cut {
      forall word | 0 <= word < |spans| ensures ShownOnce(pages, word) {
        PagedCover(pages, spans, 0, charBudget, word);
        OnePage(pages, word);
      }
    }
  }

  lemma OnePage(pages: seq<Slice>, word: nat)
    requires Follow(pages, 0)
    ensures forall j, k | 0 <= j < k < |pages| :: !(OnPage(pages[j], word) && OnPage(pages[k], word))
  {
    forall j, k | 0 <= j < k < |pages|
      ensures !(OnPage(pages[j], word) && OnPage(pages[k], word))
    {
      LaterAbove(pages, 0, j, k);
    }
  }

  // ----- counting the words of what is shown -----

  /** Text in front moves the words and changes none. */
  lemma {:induction false} CountAfter(before: string, text: string, i: nat)
    requires i <= |text|
    ensures |Spans(before + text, |before| + i)| == |Spans(text, i)|
    decreases |text| - i
  {
    var all := before + text;
    if i < |text| {
      assert all[|before| + i] == text[i];
      if Blank(text[i]) {
        CountAfter(before, text, i + 1);
      } else {
        EndAfter(before, text, i);
        CountAfter(before, text, WordEnd(text, i));
      }
    }
  }

  lemma {:induction false} EndAfter(before: string, text: string, i: nat)
    requires i <= |text|
    ensures WordEnd(before + text, |before| + i) == |before| + WordEnd(text, i)
    decreases |text| - i
  {
    var all := before + text;
    if i < |text| {
      assert all[|before| + i] == text[i];
      if !Blank(text[i]) { EndAfter(before, text, i + 1); }
    }
  }

  /** A line break parts words. */
  lemma {:induction false} CountLines(a: string, b: string, i: nat)
    requires i <= |a|
    ensures |Spans(a + "\n" + b, i)| == |Spans(a, i)| + Count(b)
    decreases |a| - i
  {
    var all := a + "\n" + b;
    assert Blank('\n');
    if i == |a| {
      assert all == (a + "\n") + b && all[i] == '\n';
      CountAfter(a + "\n", b, 0);
    } else {
      assert all[i] == a[i];
      if Blank(a[i]) {
        CountLines(a, b, i + 1);
      } else {
        EndLines(a, b, i);
        CountLines(a, b, WordEnd(a, i));
      }
    }
  }

  lemma {:induction false} EndLines(a: string, b: string, i: nat)
    requires i <= |a|
    ensures WordEnd(a + "\n" + b, i) == WordEnd(a, i)
    decreases |a| - i
  {
    var all := a + "\n" + b;
    assert Blank('\n');
    if i < |a| {
      assert all[i] == a[i];
      if !Blank(a[i]) { EndLines(a, b, i + 1); }
    } else {
      assert all[i] == '\n';
    }
  }

  /** Words end where they end in the whole text, as long as that is not past the cut. */
  lemma {:induction false} EndBefore(text: string, i: nat, end: nat)
    requires i <= end <= |text| && WordEnd(text, i) <= end
    ensures WordEnd(text[..end], i) == WordEnd(text, i)
    decreases end - i
  {
    if i < end && !Blank(text[i]) { EndBefore(text, i + 1, end); }
  }

  /** Cutting a text at the end of its `n`-th word from a place keeps exactly those words. */
  lemma {:induction false} CountBefore(text: string, i: nat, n: nat)
    requires i <= |text| && 0 < n <= |Spans(text, i)|
    ensures i <= Spans(text, i)[n - 1].end <= |text| && |Spans(text[..Spans(text, i)[n - 1].end], i)| == n
    decreases |text| - i
  {
    SpansInOrder(text, i);
    var spans := Spans(text, i);
    var end := spans[n - 1].end;
    assert text[..end][i] == text[i];
    if Blank(text[i]) {
      CountBefore(text, i + 1, n);
    } else {
      var j := WordEnd(text, i);
      if n > 1 {
        assert Before(spans, 0, n - 1) && Spans(text, j)[n - 2] == spans[n - 1];
        EndBefore(text, i, end);
        CountBefore(text, j, n - 1);
      } else {
        EndBefore(text, i, end);
        assert Spans(text[..end], end) == [];
      }
    }
  }

  /** From the start of a word on there are that word and those after it. */
  lemma {:induction false} SpansFrom(text: string, i: nat, k: nat)
    requires i <= |text| && k < |Spans(text, i)|
    ensures Spans(text, i)[k].start <= |text| && Spans(text, Spans(text, i)[k].start) == Spans(text, i)[k..]
    decreases |text| - i
  {
    SpansInOrder(text, i);
    if Blank(text[i]) {
      SpansFrom(text, i + 1, k);
    } else if k > 0 {
      var j := WordEnd(text, i);
      SpansFrom(text, j, k - 1);
      assert Spans(text, i)[k..] == Spans(text, j)[k - 1..];
    }
  }

  /** The text between the start of one word and the end of another holds the words from the one
      to the other. */
  lemma CountBetween(text: string, from: nat, n: nat)
    requires n > 0 && from + n <= Count(text)
    ensures InOrder(text, Spans(text, 0), 0)
    ensures Count(Stretch(text, Spans(text, 0), from, from + n)) == n
  {
    SpansInOrder(text, 0);
    var spans := Spans(text, 0);
    var start, end := spans[from].start, spans[from + n - 1].end;
    if n > 1 { assert Before(spans, from, from + n - 1); }
    SpansFrom(text, 0, from);
    CountBefore(text, start, n);
    assert text[..end] == text[..start] + text[start..end];
    CountAfter(text[..start], text[start..end], 0);
  }

  lemma {:induction false} OneWord(text: string, i: nat)
    requires i < |text| && forall k | i <= k < |text| :: !Blank(text[k])
    ensures WordEnd(text, i) == |text| && |Spans(text, i)| == 1
    decreases |text| - i
  {
    if i + 1 < |text| { OneWord(text, i + 1); }
    assert Spans(text, |text|) == [];
  }

  /** A window's text holds exactly the words it says it shows. */
  lemma WindowWords(text: string, offset: nat, length: nat, charBudget: nat)
    requires offset < Count(text) && length > 0 && charBudget > 0
    ensures InOrder(text, Spans(text, 0), 0)
    ensures var s := SliceOf(text, Spans(text, 0), offset, length, charBudget); Count(s.text) == s.shown
  {
    SpansInOrder(text, 0);
    var spans := Spans(text, 0);
    WindowShows(text, spans, offset, length, charBudget);
    WindowCounts(text, spans, SliceOf(text, spans, offset, length, charBudget), offset, charBudget);
  }

  lemma WindowCounts(text: string, spans: seq<Span>, s: Slice, offset: nat, charBudget: nat)
    requires spans == Spans(text, 0) && InOrder(text, spans, 0) && 0 < s.shown && offset + s.shown <= |spans|
    requires charBudget > 0 && (s.cut <==> TooLong(spans[offset], charBudget)) && (s.cut ==> s.shown == 1)
    requires s.text == if s.cut then Opening(text, spans[offset], charBudget)
                       else Stretch(text, spans, offset, offset + s.shown)
    ensures Count(s.text) == s.shown
  {
    if s.cut { CutWord(text, spans, offset, charBudget); } else { CountBetween(text, offset, s.shown); }
  }

  lemma CutWord(text: string, spans: seq<Span>, at: nat, n: nat)
    requires InOrder(text, spans, 0) && at < |spans| && 0 < n < spans[at].end - spans[at].start
    ensures Count(Opening(text, spans[at], n)) == 1
  {
    var part := Opening(text, spans[at], n);
    forall k | 0 <= k < n ensures !Blank(part[k]) { assert part[k] == text[spans[at].start + k]; }
    OneWord(part, 0);
  }
}
