/** `Compactor`, which bounds how many words a step shows the model
    (`packages/compaction/src/compaction.ts`). */
module CompactorObject {
  import opened Wrappers
  import opened PagedText

  const MAX_CHARS_PER_WORD := 12

  const MAX_SAFE_INTEGER := 9007199254740991

  /** `position`, given how numbers are shown. */
  function Position(s: Slice, show: nat -> string): string {
    if s.cut then show(s.chars) + " of " + show(s.totalChars) + " characters shown (one unbroken word)"
    else
      show(s.shown) + " of " + show(s.total) + " words shown"
      + (if s.above > 0 then ", " + show(s.above) + " above" else "")
      + (if s.below > 0 then ", " + show(s.below) + " below" else "")
  }

  /** The offset a marker gives: on from the window, or back to the start from the end. */
  function NextOffset(s: Slice): nat {
    if s.below == 0 then 0 else s.above + s.shown
  }

  function EchoMarker(s: Slice, name: Option<string>, show: nat -> string): string {
    if s.above == 0 && s.below == 0 && !s.cut then ""
    else if s.cut then
      "... " + Position(s, show) + " — "
      + (if name.None? then "slice it by character with substring, from " + show(s.chars)
         else "read on with (echo (substring " + name.value + " " + show(s.chars) + " "
              + show(if s.totalChars < s.chars * 2 then s.totalChars else s.chars * 2) + "))")
    else
      var atEnd := s.below == 0;
      "... " + Position(s, show) + " — "
      + (if name.None?
         then (if atEnd then "back to the start at" else "read on from") + " :offset " + show(NextOffset(s))
         else (if atEnd then "back to the start with" else "read on with")
              + " (echo " + name.value + " :offset " + show(NextOffset(s)) + ")")
  }

  function Shown(s: Slice, mark: string): string {
    if mark == "" then s.text + "\n" else s.text + "\n" + mark + "\n"
  }

  class Compactor {
    const limit: nat
    const show: nat -> string
    var stepping: bool
    var spent: nat
    var dropped: nat
    ghost var seen: nat    // words of values that windows showed the model in this step

    constructor (limit: nat, show: nat -> string)
      ensures Bounded() && this.limit == limit && this.show == show && spent == 0 && dropped == 0 && !stepping
    {
      this.limit, this.show := limit, show;
      stepping, spent, dropped, seen := false, 0, 0, 0;
    }

    /** Within one step, windows never show the model more words than the limit. */
    ghost predicate Bounded()
      reads this
    {
      seen <= limit && seen <= spent
    }

    function CharBudget(): nat {
      limit * MAX_CHARS_PER_WORD
    }

    function Remaining(): nat
      reads this
    {
      if spent < limit then limit - spent else 0
    }

    method BeginStep()
      modifies this
      ensures Bounded() && stepping && spent == 0 && dropped == 0 && seen == 0
    {
      stepping, spent, dropped := true, 0, 0;
      seen := 0;
    }

    method Echo(model: string, held: nat)
      modifies this`spent, this`dropped
      ensures spent == old(spent) + Count(model) && dropped == old(dropped) + held
    {
      spent := spent + Count(model);
      dropped := dropped + held;
    }

    /** A window of a value: the user is shown what was asked for, the model as much of it as
        the step has left; what the model is not shown at all is counted. */
    method Window(text: string, name: Option<string>, offset: nat, length: nat)
      returns (model: string, user: string, ghost words: nat)
      requires Bounded()
      modifies this
      ensures Bounded() && seen == old(seen) + words && spent == old(spent) + Count(model) && stepping == old(stepping)
      ensures InOrder(text, Spans(text, 0), 0)
      ensures var spans := Spans(text, 0);
              var asked := SliceOf(text, spans, offset, length, MAX_SAFE_INTEGER);
              var room := old(Remaining());
              var part := SliceOf(text, spans, offset, if length < room then length else room, CharBudget());
              if spans == [] || asked.shown == 0 then words == 0 && user == model && dropped == old(dropped)
              else
                && user == Shown(asked, EchoMarker(asked, name, show))
                && words == part.shown <= room
                && model == (if part.shown == 0 then "" else Shown(part, EchoMarker(part, name, show)))
                && dropped == old(dropped) + (if part.shown == 0 then asked.shown else 0)
    {
      SpansInOrder(text, 0);
      var spans := Spans(text, 0);
      if |spans| == 0 {
        model, user, words := text + "\n", text + "\n", 0;
        Echo(model, 0);
        return;
      }
      var asked := SliceWords(text, spans, offset, length, MAX_SAFE_INTEGER);
      if asked.shown == 0 {
        model := "(nothing at :offset " + show(offset) + "; " + show(asked.total) + " words in total)\n";
        user, words := model, 0;
        Echo(model, 0);
        return;
      }
      user := Shown(asked, EchoMarker(asked, name, show));
      var room := Remaining();
      model, words := EchoPart(text, spans, offset, if length < room then length else room, asked.shown, name);
    }

    /** What of a window the model is shown, or none of it when the step has no words left. */
    method EchoPart(text: string, spans: seq<Span>, offset: nat, n: nat, held: nat, name: Option<string>)
      returns (model: string, ghost words: nat)
      requires Bounded() && InOrder(text, spans, 0) && spans == Spans(text, 0) && n <= Remaining()
      modifies this
      ensures Bounded() && seen == old(seen) + words && spent == old(spent) + Count(model) && stepping == old(stepping)
      ensures var part := SliceOf(text, spans, offset, n, CharBudget());
              && words == part.shown <= n
              && model == (if part.shown == 0 then "" else Shown(part, EchoMarker(part, name, show)))
              && dropped == old(dropped) + (if part.shown == 0 then held else 0)
    {
      var part := SliceWords(text, spans, offset, n, CharBudget());
      ShownFits(text, offset, n, CharBudget());
      words := part.shown;
      if part.shown == 0 {
        model := "";
        Echo(model, held);
        return;
      }
      var mark := EchoMarker(part, name, show);
      model := Shown(part, mark);
      CountShown(text, offset, n, CharBudget(), mark);
      Echo(model, 0);
      seen := seen + part.shown;
    }
  }

  lemma ShownFits(text: string, offset: nat, length: nat, charBudget: nat)
    requires InOrder(text, Spans(text, 0), 0)
    ensures SliceOf(text, Spans(text, 0), offset, length, charBudget).shown <= length
  {
    if offset < Count(text) && length > 0 { WindowShows(text, Spans(text, 0), offset, length, charBudget); }
  }

  /** What the model is shown counts at least the words of the value in it. */
  lemma CountShown(text: string, offset: nat, length: nat, charBudget: nat, mark: string)
    requires InOrder(text, Spans(text, 0), 0) && (length > 0 ==> charBudget > 0)
    requires SliceOf(text, Spans(text, 0), offset, length, charBudget).shown > 0
    ensures var s := SliceOf(text, Spans(text, 0), offset, length, charBudget); s.shown <= Count(Shown(s, mark))
  {
    var s := SliceOf(text, Spans(text, 0), offset, length, charBudget);
    ShownFits(text, offset, length, charBudget);
    WindowWords(text, offset, length, charBudget);
    if mark == "" {
      CountLines(s.text, "", 0);
      assert s.text + "\n" + "" == s.text + "\n";
    } else {
      CountLines(s.text, mark + "\n", 0);
      assert s.text + "\n" + (mark + "\n") == s.text + "\n" + mark + "\n";
    }
  }

  // ----- where a marker leads -----

  predicate Ends(text: string, tail: string) {
    |tail| <= |text| && text[|text| - |tail|..] == tail
  }

  /** What a marker ends in when it sends the reader to an offset. */
  function Pointer(name: Option<string>, offset: string): string {
    if name.None? then ":offset " + offset else "(echo " + name.value + " :offset " + offset + ")"
  }

  /** A marker as its place and then what to do. */
  function Led(s: Slice, show: nat -> string, verb: string, pointer: string): string {
    "... " + Position(s, show) + " — " + (verb + " " + pointer)
  }

  lemma LedEnds(s: Slice, show: nat -> string, verb: string, pointer: string)
    ensures Ends(Led(s, show, verb, pointer), pointer)
  {
    var place := "... " + Position(s, show) + " — ";
    assert Led(s, show, verb, pointer) == (place + (verb + " ")) + pointer;
  }

  lemma Unnamed(verb: string, offset: string)
    ensures verb + " :offset " + offset == verb + " " + Pointer(None, offset)
  {
    assert " :offset " == " " + ":offset ";
  }

  lemma Named(verb: string, name: string, offset: string)
    ensures verb + " (echo " + name + " :offset " + offset + ")" == verb + " " + Pointer(Some(name), offset)
  {
    assert " (echo " == " " + "(echo ";
  }

  lemma MarkerPoints(s: Slice, next: nat, name: Option<string>, show: nat -> string)
    requires !s.cut && (s.above > 0 || s.below > 0) && next == if s.below == 0 then 0 else s.above + s.shown
    ensures Ends(EchoMarker(s, name, show), Pointer(name, show(next)))
  {
    var offset := show(next);
    var verb := if name.None? then (if s.below == 0 then "back to the start at" else "read on from")
                else if s.below == 0 then "back to the start with" else "read on with";
    LedEnds(s, show, verb, Pointer(name, offset));
    if name.None? { Unnamed(verb, offset); } else { Named(verb, name.value, offset); }
    assert EchoMarker(s, name, show) == Led(s, show, verb, Pointer(name, offset));
  }

  predicate GoesOn(page: Slice) {
    !page.cut && page.below > 0
  }

  predicate AllGoOn(pages: seq<Slice>) {
    forall k | 0 <= k < |pages| - 1 :: GoesOn(pages[k])
  }

  lemma AllGoOnCons(s: Slice, rest: seq<Slice>)
    requires GoesOn(s) && AllGoOn(rest)
    ensures AllGoOn([s] + rest)
  {
    var pages := [s] + rest;
    forall k | 0 <= k < |pages| - 1 ensures GoesOn(pages[k]) {
      if k > 0 { assert pages[k] == rest[k - 1]; }
    }
  }

  lemma {:induction false} PagesGoOn(text: string, spans: seq<Span>, offset: nat, lengths: Lengths, page: nat,
                                     charBudget: nat)
    requires InOrder(text, spans, 0) && offset < |spans| && Positive(lengths)
    ensures AllGoOn(Pages(text, spans, offset, lengths, page, charBudget))
    decreases |spans| - offset
  {
    WindowShows(text, spans, offset, lengths(page), charBudget);
    var s := SliceOf(text, spans, offset, lengths(page), charBudget);
    if !s.cut && s.below > 0 {
      PagesGoOn(text, spans, s.above + s.shown, lengths, page + 1, charBudget);
      AllGoOnCons(s, Pages(text, spans, s.above + s.shown, lengths, page + 1, charBudget));
    }
  }

  /** The marker under each page names the offset at which the next page starts; the one under
      the last, unless its word is cut or there is no other page, names the start. */
  lemma MarkersLead(text: string, lengths: Lengths, charBudget: nat, name: Option<string>, show: nat -> string)
    requires Spans(text, 0) != [] && Positive(lengths)
    ensures InOrder(text, Spans(text, 0), 0)
    ensures var pages := Pages(text, Spans(text, 0), 0, lengths, 0, charBudget);
            var n := |pages| - 1;
            && pages[0].above == 0
            && (forall k | 0 <= k < n ::
                  Ends(EchoMarker(pages[k], name, show), Pointer(name, show(pages[k + 1].above))))
            && (!pages[n].cut ==> if n == 0 then EchoMarker(pages[n], name, show) == ""
                                  else Ends(EchoMarker(pages[n], name, show), Pointer(name, show(0))))
  {
    SpansInOrder(text, 0);
    var spans := Spans(text, 0);
    var pages := Pages(text, spans, 0, lengths, 0, charBudget);
    PagesPaged(text, spans, 0, lengths, 0, charBudget);
    PagedFollow(pages, spans, 0, charBudget);
    PagedEnd(pages, spans, 0, charBudget);
    PagesGoOn(text, spans, 0, lengths, 0, charBudget);
    FirstShows(text, spans, lengths, charBudget);
    forall k | 0 <= k < |pages| - 1
      ensures Ends(EchoMarker(pages[k], name, show), Pointer(name, show(pages[k + 1].above)))
    {
      var next := k + 1;
      assert pages[next].above == pages[next - 1].above + pages[next - 1].shown;
      assert GoesOn(pages[k]);
      MarkerPoints(pages[k], pages[next].above, name, show);
    }
    LastLed(pages, name, show);
  }

  lemma LastLed(pages: seq<Slice>, name: Option<string>, show: nat -> string)
    requires pages != [] && Follow(pages, 0) && pages[0].shown > 0
    requires !pages[|pages| - 1].cut ==> pages[|pages| - 1].below == 0
    ensures var n := |pages| - 1;
            !pages[n].cut ==> if n == 0 then EchoMarker(pages[n], name, show) == ""
                              else Ends(EchoMarker(pages[n], name, show), Pointer(name, show(0)))
  {
    var n := |pages| - 1;
    if n > 0 && !pages[n].cut {
      LaterAbove(pages, 0, 0, n);
      MarkerPoints(pages[n], 0, name, show);
    }
  }

  lemma FirstShows(text: string, spans: seq<Span>, lengths: Lengths, charBudget: nat)
    requires InOrder(text, spans, 0) && spans != [] && Positive(lengths)
    ensures Pages(text, spans, 0, lengths, 0, charBudget)[0].shown > 0
  {
    WindowShows(text, spans, 0, lengths(0), charBudget);
  }

  /** Under a cut word the marker names the number of characters shown, although what it has the
      reader slice is the whole value: that is where the showing stopped exactly when the value
      starts with that word. */
  lemma CutMarkerLeads(text: string, offset: nat, length: nat, charBudget: nat, show: nat -> string)
    requires offset < Count(text) && length > 0
    ensures InOrder(text, Spans(text, 0), 0)
    ensures var s := SliceOf(text, Spans(text, 0), offset, length, charBudget);
            s.cut ==>
              && Ends(EchoMarker(s, None, show), "from " + show(s.chars))
              && (s.chars == Spans(text, 0)[offset].start + |s.text| <==> Spans(text, 0)[offset].start == 0)
  {
    SpansInOrder(text, 0);
    var s := SliceOf(text, Spans(text, 0), offset, length, charBudget);
    WindowShows(text, Spans(text, 0), offset, length, charBudget);
    if s.cut {
      LedEnds(s, show, "slice it by character with substring,", "from " + show(s.chars));
      CutVerb(show(s.chars));
    }
  }

  lemma CutVerb(chars: string)
    ensures "slice it by character with substring, from " + chars
         == "slice it by character with substring," + " " + ("from " + chars)
  {
    assert "slice it by character with substring, from " == "slice it by character with substring," + " " + "from ";
  }
}
