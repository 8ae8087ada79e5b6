/** What the events of a turn make of the messages on its wire (`packages/ai/src/stream.ts`, the
    class `TurnWire`), said of the events that follow a message and without the steps themselves:
    the texts that ride on it, the steps counted in it, the entry that takes its place. */
module TurnHistory {
  import opened Wrappers
  import opened TurnTranscript

  // ----- what each step adds, and what it changes -----

  /** The message a step puts at the end of the wire, if it does. */
  function Added(s: State, step: Step): Option<Message> {
    match step
    case Add(m) => Some(m)
    case Result(m) => Some(m)
    case Assistant(m) => Some(m)
    case Insert(m) => if s.sealed then None else Some(m)
    case _ => None
  }

  predicate Recording(m: Message, entry: Entry) {
    && m.kind.Recorded? && m.content == "" && m.kwargs.Some?
    && m.kwargs.value.Keys == {"kind", "value"} + (if entry.about.Some? then {"about"} else {})
    && m.kwargs.value["kind"] == Text(entry.kind) && m.kwargs.value["value"] == entry.value
    && (entry.about.Some? ==> m.kwargs.value["about"] == Text(entry.about.value))
  }

  lemma EntryRecords(entry: Entry, id: string)
    ensures Recording(EntryMessage(entry, id), entry) && EntryMessage(entry, id).id == id
  {
    var kwargs := EntryMessage(entry, id).kwargs.value;
    assert kwargs.Keys == {"kind", "value"} + (if entry.about.Some? then {"about"} else {});
    assert |"kind"| == 4 && |"value"| == 5 && |"about"| == 5 && "value"[0] == 'v' && "about"[0] == 'a';
  }

  /** The last message not flushed that is about the same as an entry. */
  predicate Superseded(s: State, entry: Entry, at: nat) {
    && entry.supersedes && s.flushed <= at < |s.wire| && SameSubject(s.wire[at], entry)
    && forall i | at < i < |s.wire| :: !SameSubject(s.wire[i], entry)
  }

  /** An entry takes the place and the id of the one it supersedes, and goes to the end if there is
      none. */
  lemma EntryGoes(s: State, entry: Entry, id: string, at: nat)
    requires Inv(s) && Enabled(s, RecordEntry(entry, id))
    ensures var t := Next(s, RecordEntry(entry, id));
            && (Superseded(s, entry, at) ==>
                  && |t.wire| == |s.wire| && Recording(t.wire[at], entry) && t.wire[at].id == s.wire[at].id
                  && forall i | 0 <= i < |s.wire| && i != at :: t.wire[i] == s.wire[i])
            && ((forall i | 0 <= i < |s.wire| :: !Superseded(s, entry, i)) ==>
                  && |t.wire| == |s.wire| + 1 && t.wire[..|s.wire|] == s.wire
                  && Recording(t.wire[|s.wire|], entry) && t.wire[|s.wire|].id == id)
  {
    EntryRecords(entry, id);
    var found := if entry.supersedes then UnflushedOf(s.wire, s.flushed, entry) else None;
    if Superseded(s, entry, at) {
      UnflushedIs(s.wire, s.flushed, entry, at);
      EntryRecords(entry, s.wire[at].id);
    } else if found.Some? {
      assert Superseded(s, entry, found.value);
    }
  }

  lemma AddedGoes(s: State, step: Step)
    requires Inv(s) && Enabled(s, step) && Added(s, step).Some?
    ensures Next(s, step).wire == s.wire + [Added(s, step).value]
  {
  }

  // ----- texts that ride -----

  /** The texts that ride before any human message is added. */
  function TextsFirst(steps: seq<Step>): seq<string> {
    if steps == [] || AddsHuman(steps[0]) then []
    else (if steps[0].Rode? then [steps[0].text] else []) + TextsFirst(steps[1..])
  }

  function Paragraphs(texts: seq<string>): string {
    if texts == [] then "" else if |texts| == 1 then texts[0] else texts[0] + "\n\n" + Paragraphs(texts[1..])
  }

  /** Without the empty ones in front. */
  function FromFirst(texts: seq<string>): seq<string> {
    if texts == [] then [] else if texts[0] == "" then FromFirst(texts[1..]) else texts
  }

  function Standing(m: Message): seq<string> {
    if m.kwargs.Some? && "riding" in m.kwargs.value && m.kwargs.value["riding"].Text?
    then [m.kwargs.value["riding"].s] else []
  }

  /** A message with texts riding on it: they are paragraphs of one keyword, behind what was there
      before, and nothing else is changed. */
  predicate Rides(m: Message, t: Message, texts: seq<string>) {
    && t.kind == m.kind && t.content == m.content && t.id == m.id
    && if texts == [] then t == m
       else
         && t.kwargs.Some? && t.kwargs.value.Keys == Base(m.kwargs).Keys + {"riding"}
         && t.kwargs.value["riding"] == Text(Paragraphs(FromFirst(Standing(m) + texts)))
         && forall key | key in Base(m.kwargs) && key != "riding" :: t.kwargs.value[key] == m.kwargs.value[key]
  }

  lemma JoinedFirst(standing: string, text: string, rest: seq<string>)
    ensures Paragraphs(FromFirst([JoinRiding(Some(standing), text)] + rest))
         == Paragraphs(FromFirst([standing] + ([text] + rest)))
  {
    var joined := JoinRiding(Some(standing), text);
    var texts := [standing] + ([text] + rest);
    assert texts[1..] == [text] + rest && ([text] + rest)[1..] == rest && ([joined] + rest)[1..] == rest;
    if standing != "" {
      assert FromFirst(texts) == texts && FromFirst([joined] + rest) == [joined] + rest;
      assert Paragraphs(texts) == standing + "\n\n" + Paragraphs([text] + rest);
      if rest == [] {
        assert [joined] + rest == [joined] && [text] + rest == [text];
      } else {
        Paragraph(standing, text, Paragraphs(rest));
      }
    }
  }

  lemma Paragraph(a: string, b: string, c: string)
    ensures a + "\n\n" + b + "\n\n" + c == a + "\n\n" + (b + "\n\n" + c)
  {
  }

  lemma OneRides(m: Message, text: string)
    ensures Rides(m, Carrying(m, text), [text])
  {
    var texts := Standing(m) + [text];
    if Standing(m) == [] {
      assert texts == [text] && FromFirst([text]) == (if text == "" then FromFirst([text][1..]) else [text]);
      assert [text][1..] == [] && FromFirst([]) == [];
    } else {
      JoinedFirst(Standing(m)[0], text, []);
      var joined := JoinRiding(Some(Standing(m)[0]), text);
      assert [joined] + [] == [joined] && [joined][1..] == [] && [text] + [] == [text];
      assert texts == Standing(m) + ([text] + []);
      assert FromFirst([joined]) == if joined == "" then [] else [joined];
    }
  }

  lemma RidesThen(m: Message, text: string, rest: seq<string>, t: Message)
    requires Rides(Carrying(m, text), t, rest)
    ensures Rides(m, t, [text] + rest)
  {
    OneRides(m, text);
    if rest == [] {
      assert [text] + rest == [text];
    } else {
      var joined := Carrying(m, text).kwargs.value["riding"].s;
      assert Standing(Carrying(m, text)) == [joined];
      if Standing(m) == [] {
        assert joined == text && Standing(m) + ([text] + rest) == [text] + rest;
      } else {
        JoinedFirst(Standing(m)[0], text, rest);
        assert Standing(m) == [Standing(m)[0]];
      }
    }
  }

  /** What one step does to a human message. */
  predicate HumanStep(s: State, t: State, step: Step, at: nat)
    requires at < |s.wire|
  {
    && at < |t.wire|
    && t.wire[at] == (if step.Rode? && LastHuman(s.wire) == Some(at) then Carrying(s.wire[at], step.text)
                      else s.wire[at])
    && (LastHuman(t.wire) == Some(at) <==> LastHuman(s.wire) == Some(at) && (s.sealed || !AddsHuman(step)))
    && (s.sealed ==> t.sealed)
  }

  lemma HumanPushed(s: State, m: Message, at: nat)
    requires at < |s.wire|
    ensures (s.wire + [m])[at] == s.wire[at]
    ensures LastHuman(s.wire + [m]) == Some(at) <==> LastHuman(s.wire) == Some(at) && !m.kind.Human?
  {
    LastHumanPush(s.wire, m);
  }

  lemma EntryOnHuman(s: State, entry: Entry, id: string, at: nat)
    requires Inv(s) && Enabled(s, RecordEntry(entry, id)) && at < |s.wire| && s.wire[at].kind.Human?
    ensures HumanStep(s, Next(s, RecordEntry(entry, id)), RecordEntry(entry, id), at)
  {
    var found := if entry.supersedes then UnflushedOf(s.wire, s.flushed, entry) else None;
    if found.None? { HumanPushed(s, EntryMessage(entry, id), at); }
    else { LastHumanKinds(s.wire, Next(s, RecordEntry(entry, id)).wire); }
  }

  lemma HaltOnHuman(s: State, steps: int, at: nat)
    requires Inv(s) && at < |s.wire| && s.wire[at].kind.Human?
    ensures HumanStep(s, HaltWith(s, steps), Halt(steps), at)
  {
    assert AnswerRight(s);
    LastHumanKinds(s.wire, HaltWith(s, steps).wire);
  }

  lemma RodeOnHuman(s: State, text: string, at: nat)
    requires Inv(s) && Enabled(s, Rode(text)) && at < |s.wire|
    ensures HumanStep(s, Next(s, Rode(text)), Rode(text), at)
  {
    LastHumanKinds(s.wire, Next(s, Rode(text)).wire);
  }

  lemma StepOnHuman(s: State, step: Step, at: nat)
    requires Inv(s) && Enabled(s, step) && at < |s.wire| && s.wire[at].kind.Human?
    ensures HumanStep(s, Next(s, step), step, at)
  {
    match step
    case RecordEntry(entry, id) => EntryOnHuman(s, entry, id, at);
    case Add(m) => HumanPushed(s, m, at);
    case Rode(text) => RodeOnHuman(s, text, at);
    case Assistant(m) => HumanPushed(s, m, at);
    case Result(m) => HumanPushed(s, m, at);
    case Insert(m) => HumanPushed(s, m, at);
    case Halt(steps) => HaltOnHuman(s, steps, at);
    case Store(n) =>
    case Seal =>
  }

  /** A human message ends the turn with the texts that rode on it: those before the next human
      message if it is the last there is, and otherwise none. */
  lemma {:induction false} TextsRide(s: State, steps: seq<Step>, at: nat)
    requires Inv(s) && Runs(s, steps) && at < |s.wire| && s.wire[at].kind.Human?
    ensures at < |After(s, steps).wire|
    ensures Rides(s.wire[at], After(s, steps).wire[at], if LastHuman(s.wire) == Some(at) then TextsFirst(steps) else [])
    decreases |steps|
  {
    if steps != [] {
      StepKeeps(s, steps[0]);
      StepOnHuman(s, steps[0], at);
      var t := Next(s, steps[0]);
      TextsRide(t, steps[1..], at);
      if s.sealed { NoneRide(s, steps); NoneRide(t, steps[1..]); }
      TextsStep(s, t, steps, at, After(s, steps).wire[at]);
    }
  }

  lemma TextsStep(s: State, t: State, steps: seq<Step>, at: nat, m: Message)
    requires steps != [] && at < |s.wire| && HumanStep(s, t, steps[0], at)
    requires Rides(t.wire[at], m, if LastHuman(t.wire) == Some(at) then TextsFirst(steps[1..]) else [])
    requires s.sealed ==> TextsFirst(steps) == TextsFirst(steps[1..]) == []
    ensures Rides(s.wire[at], m, if LastHuman(s.wire) == Some(at) then TextsFirst(steps) else [])
  {
    if LastHuman(s.wire) == Some(at) && steps[0].Rode? {
      RidesThen(s.wire[at], steps[0].text, TextsFirst(steps[1..]), m);
    } else {
      assert [] + TextsFirst(steps[1..]) == TextsFirst(steps[1..]);
    }
  }

  lemma {:induction false} NoneRide(s: State, steps: seq<Step>)
    requires Inv(s) && Runs(s, steps) && s.sealed
    ensures TextsFirst(steps) == []
    decreases |steps|
  {
    if steps != [] {
      StepKeeps(s, steps[0]);
      NoneRide(Next(s, steps[0]), steps[1..]);
    }
  }

  // ----- the steps of an answer -----

  /** The count of the last halt before the next answer. */
  function HaltedWith(steps: seq<Step>): Option<int> {
    if steps == [] || steps[0].Assistant? then None
    else
      var later := HaltedWith(steps[1..]);
      if later.None? && steps[0].Halt? then Some(steps[0].steps) else later
  }

  /** An answer with its steps counted: they are one field of its metadata, and nothing else is
      changed. */
  predicate Counts(m: Message, t: Message, steps: Option<int>) {
    && t.kind == m.kind && t.content == m.content && t.id == m.id
    && if steps.None? then t == m
       else
         && HasMeta(m) && HasMeta(t) && t.kwargs.value.Keys == m.kwargs.value.Keys
         && (forall key | key in m.kwargs.value && key != "meta" :: t.kwargs.value[key] == m.kwargs.value[key])
         && var was, now := m.kwargs.value["meta"].fields, t.kwargs.value["meta"].fields;
         && now.Keys == was.Keys + {"steps"} && now["steps"] == Int(steps.value)
         && forall key | key in was && key != "steps" :: now[key] == was[key]
  }

  lemma CountsOne(m: Message, steps: int)
    requires HasMeta(m)
    ensures Counts(m, WithSteps(m, steps), Some(steps))
  {
  }

  lemma CountsThen(m: Message, t: Message, u: Message, first: int, steps: Option<int>)
    requires Counts(m, t, Some(first)) && Counts(t, u, steps)
    ensures Counts(m, u, Some(if steps.Some? then steps.value else first))
  {
    if steps.Some? {
      var was, now := m.kwargs.value["meta"].fields, u.kwargs.value["meta"].fields;
      assert now.Keys == was.Keys + {"steps"} + {"steps"};
    }
  }

  /** What one step does to an answer. */
  predicate AnswerStep(s: State, t: State, step: Step, at: nat)
    requires at < |s.wire| && (s.lastAnswer == Some(at) ==> HasMeta(s.wire[at]))
  {
    && at < |t.wire|
    && t.wire[at] == (if step.Halt? && s.lastAnswer == Some(at) then WithSteps(s.wire[at], step.steps) else s.wire[at])
    && (t.lastAnswer == Some(at) <==> s.lastAnswer == Some(at) && !step.Assistant?)
  }

  lemma RodeOnAnswer(s: State, text: string, at: nat)
    requires Inv(s) && Enabled(s, Rode(text)) && at < |s.wire| && s.wire[at].kind.Ai?
    requires s.lastAnswer == Some(at) ==> HasMeta(s.wire[at])
    ensures AnswerStep(s, Next(s, Rode(text)), Rode(text), at)
  {
  }

  lemma EntryOnAnswer(s: State, entry: Entry, id: string, at: nat)
    requires Inv(s) && Enabled(s, RecordEntry(entry, id)) && at < |s.wire| && s.wire[at].kind.Ai?
    requires s.lastAnswer == Some(at) ==> HasMeta(s.wire[at])
    ensures AnswerStep(s, Next(s, RecordEntry(entry, id)), RecordEntry(entry, id), at)
  {
  }

  lemma StepOnAnswer(s: State, step: Step, at: nat)
    requires Inv(s) && Enabled(s, step) && at < |s.wire| && s.wire[at].kind.Ai?
    ensures s.lastAnswer == Some(at) ==> HasMeta(s.wire[at])
    ensures AnswerStep(s, Next(s, step), step, at)
  {
    assert AnswerRight(s);
    match step
    case RecordEntry(entry, id) => EntryOnAnswer(s, entry, id, at);
    case Rode(text) => RodeOnAnswer(s, text, at);
    case _ =>
  }

  /** An answer ends the turn with the steps of the last halt while it was the last answer. */
  lemma {:induction false} StepsCount(s: State, steps: seq<Step>, at: nat)
    requires Inv(s) && Runs(s, steps) && at < |s.wire| && s.wire[at].kind.Ai?
    ensures at < |After(s, steps).wire|
    ensures Counts(s.wire[at], After(s, steps).wire[at], if s.lastAnswer == Some(at) then HaltedWith(steps) else None)
    decreases |steps|
  {
    if steps != [] {
      StepKeeps(s, steps[0]);
      StepOnAnswer(s, steps[0], at);
      var t := Next(s, steps[0]);
      StepsCount(t, steps[1..], at);
      if steps[0].Halt? && s.lastAnswer == Some(at) {
        CountsOne(s.wire[at], steps[0].steps);
        CountsThen(s.wire[at], t.wire[at], After(s, steps).wire[at], steps[0].steps, HaltedWith(steps[1..]));
      }
    }
  }

  // ----- everything else -----

  /** A message that is neither human, nor an answer, nor an entry is never changed. */
  lemma {:induction false} OthersStay(s: State, steps: seq<Step>, at: nat)
    requires Inv(s) && Runs(s, steps) && at < |s.wire|
    requires s.wire[at].kind.System? || s.wire[at].kind.ToolResult? || (s.wire[at].kind.Recorded? && at < s.flushed)
    ensures at < |After(s, steps).wire| && After(s, steps).wire[at] == s.wire[at]
    decreases |steps|
  {
    if steps != [] {
      StepKeeps(s, steps[0]);
      OtherStays(s, steps[0], at);
      OthersStay(Next(s, steps[0]), steps[1..], at);
    }
  }

  lemma OtherStays(s: State, step: Step, at: nat)
    requires Inv(s) && Enabled(s, step) && at < |s.wire|
    requires s.wire[at].kind.System? || s.wire[at].kind.ToolResult? || (s.wire[at].kind.Recorded? && at < s.flushed)
    ensures var t := Next(s, step); at < |t.wire| && t.wire[at] == s.wire[at] && s.flushed <= t.flushed
  {
    assert AnswerRight(s);
  }
}
