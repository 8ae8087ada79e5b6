/** A turn's wire and the transcript stored beside it (`packages/ai/src/stream.ts`, the class
    `TurnWire`; `packages/ai/src/thread.ts`, `record`): batches are stored while the turn runs,
    what changes after it was sent is revised at the end, and the rest is appended. */
module TurnTranscript {
  import opened Wrappers

  datatype Json = Text(s: string) | Int(n: int) | Obj(fields: Kwargs)
  type Kwargs = map<string, Json>

  datatype Kind = Human | Ai | System | ToolResult | Recorded

  datatype Message = Message(kind: Kind, content: string, id: string, kwargs: Option<Kwargs>)

  /** A stored message; those from before the turn may have no id. */
  datatype Row = Row(id: Option<string>, kind: Kind, content: string, kwargs: Option<Kwargs>)

  datatype Entry = Entry(kind: string, about: Option<string>, value: Json, supersedes: bool)

  /** `wire` and `flushed` are the source's; `revised` is its map, with `order` for the order of
      its keys; `stored` are the rows there are, `queued` the messages flushed and not yet stored;
      `streams` says whether batches are stored at all. */
  datatype State = State(
    history: seq<Row>,
    wire: seq<Message>,
    flushed: nat,
    revised: map<nat, Message>,
    order: seq<nat>,
    lastAnswer: Option<nat>,
    sealed: bool,
    streams: bool,
    stored: seq<Row>,
    queued: seq<Message>)

  datatype Step =
    | RecordEntry(entry: Entry, id: string)
    | Add(message: Message)
    | Rode(text: string)
    | Assistant(message: Message)
    | Result(message: Message)
    | Insert(message: Message)
    | Halt(steps: int)
    | Store(n: nat)
    | Seal

  function RowOf(m: Message): Row {
    Row(Some(m.id), m.kind, m.content, m.kwargs)
  }

  function RowsOf(ms: seq<Message>): (rows: seq<Row>)
    ensures |rows| == |ms| && forall i | 0 <= i < |ms| :: rows[i] == RowOf(ms[i])
  {
    seq(|ms|, i requires 0 <= i < |ms| => RowOf(ms[i]))
  }

  /** A stored row as the turn carries it on its wire; `missing` names it when it has no id. */
  function Carry(row: Row, missing: string): Message {
    Message(row.kind, row.content, if row.id.Some? then row.id.value else missing, row.kwargs)
  }

  function Start(history: seq<Row>, missing: seq<string>, streams: bool): State
    requires |missing| == |history|
  {
    var wire := seq(|history|, i requires 0 <= i < |history| => Carry(history[i], missing[i]));
    State(history, wire, |history|, map[], [], None, false, streams, history, [])
  }

  // ----- what the steps do -----

  function EntryMessage(entry: Entry, id: string): Message {
    var kwargs := map["kind" := Text(entry.kind), "value" := entry.value];
    Message(Recorded, "", id, Some(if entry.about.None? then kwargs else kwargs["about" := Text(entry.about.value)]))
  }

  predicate SameSubject(m: Message, entry: Entry) {
    && m.kind.Recorded?
    && m.kwargs.Some? && "kind" in m.kwargs.value && m.kwargs.value["kind"] == Text(entry.kind)
    && (if entry.about.None? then "about" !in m.kwargs.value
        else "about" in m.kwargs.value && m.kwargs.value["about"] == Text(entry.about.value))
  }

  /** The last message not yet flushed that records the same subject. */
  function UnflushedOf(wire: seq<Message>, flushed: nat, entry: Entry): (at: Option<nat>)
    requires flushed <= |wire|
    ensures at.Some? ==> flushed <= at.value < |wire| && SameSubject(wire[at.value], entry)
    ensures forall i | (if at.Some? then at.value + 1 else flushed) <= i < |wire| :: !SameSubject(wire[i], entry)
    decreases |wire|
  {
    if |wire| == flushed then None
    else if SameSubject(wire[|wire| - 1], entry) then Some(|wire| - 1)
    else
      var n := |wire| - 1;
      var at := UnflushedOf(wire[..n], flushed, entry);
      assert forall i | 0 <= i < n :: wire[..n][i] == wire[i];
      at
  }

  function LastHuman(wire: seq<Message>): (at: Option<nat>)
    ensures at.Some? ==> at.value < |wire| && wire[at.value].kind.Human?
    ensures forall i | (if at.Some? then at.value + 1 else 0) <= i < |wire| :: !wire[i].kind.Human?
    decreases |wire|
  {
    if wire == [] then None
    else if wire[|wire| - 1].kind.Human? then Some(|wire| - 1)
    else
      var n := |wire| - 1;
      var at := LastHuman(wire[..n]);
      assert forall i | 0 <= i < n :: wire[..n][i] == wire[i];
      at
  }

  lemma LastHumanIs(wire: seq<Message>, at: nat)
    requires at < |wire| && wire[at].kind.Human? && forall i | at < i < |wire| :: !wire[i].kind.Human?
    ensures LastHuman(wire) == Some(at)
  {
    var found := LastHuman(wire);
    assert found.Some? && found.value >= at;
  }

  lemma UnflushedIs(wire: seq<Message>, flushed: nat, entry: Entry, at: nat)
    requires flushed <= at < |wire| && SameSubject(wire[at], entry)
    requires forall i | at < i < |wire| :: !SameSubject(wire[i], entry)
    ensures UnflushedOf(wire, flushed, entry) == Some(at)
  {
    var found := UnflushedOf(wire, flushed, entry);
    assert found.Some? && found.value >= at;
  }

  function Base(kwargs: Option<Kwargs>): Kwargs {
    if kwargs.Some? then kwargs.value else map[]
  }

  function JoinRiding(standing: Option<string>, text: string): string {
    if standing.None? || standing.value == "" then text else standing.value + "\n\n" + text
  }

  function Carrying(m: Message, text: string): Message {
    var kwargs := Base(m.kwargs);
    var standing := if "riding" in kwargs && kwargs["riding"].Text? then Some(kwargs["riding"].s) else None;
    m.(kwargs := Some(kwargs["riding" := Text(JoinRiding(standing, text))]))
  }

  predicate HasMeta(m: Message) {
    m.kwargs.Some? && "meta" in m.kwargs.value && m.kwargs.value["meta"].Obj?
  }

  function WithSteps(m: Message, steps: int): Message
    requires HasMeta(m)
  {
    m.(kwargs := Some(m.kwargs.value["meta" := Obj(m.kwargs.value["meta"].fields["steps" := Int(steps)])]))
  }

  function Push(s: State, m: Message): State {
    s.(wire := s.wire + [m])
  }

  function Flush(s: State): State
    requires s.flushed <= |s.wire|
  {
    if !s.streams then s else s.(flushed := |s.wire|, queued := s.queued + s.wire[s.flushed..])
  }

  /** A change of a message that was flushed is remembered for the end of the turn. */
  function ReviseFlushed(s: State, at: nat): State
    requires at < |s.wire|
  {
    if at < s.flushed then
      s.(revised := s.revised[at := s.wire[at]], order := if at in s.revised then s.order else s.order + [at])
    else s
  }

  /** The steps go into the metadata object itself, which the wire shares with what was flushed
      and is still to be stored. */
  function Counted(s: State, steps: int): State
    requires Inv(s) && s.lastAnswer.Some?
  {
    var at := s.lastAnswer.value;
    var counted := WithSteps(s.wire[at], steps);
    s.(wire := s.wire[at := counted],
       queued := if |s.stored| <= at < s.flushed then s.queued[at - |s.stored| := counted] else s.queued)
  }

  function HaltWith(s: State, steps: int): State
    requires Inv(s)
  {
    if s.lastAnswer.None? then s else ReviseFlushed(Counted(s, steps), s.lastAnswer.value)
  }

  predicate FreshId(s: State, id: string) {
    && (forall i | 0 <= i < |s.history| :: s.history[i].id != Some(id))
    && (forall i | |s.history| <= i < |s.wire| :: s.wire[i].id != id)
  }

  predicate Enabled(s: State, step: Step) {
    match step
    case RecordEntry(_, id) => !s.sealed && FreshId(s, id)
    case Add(m) => !s.sealed && FreshId(s, m.id)
    case Rode(_) => !s.sealed
    case Assistant(m) => !s.sealed && FreshId(s, m.id) && m.kind.Ai? && HasMeta(m)
    case Result(m) => !s.sealed && FreshId(s, m.id)
    case Insert(m) => FreshId(s, m.id)
    case Halt(_) => !s.sealed
    case Store(n) => n <= |s.queued|
    case Seal => !s.sealed
  }

  function Next(s: State, step: Step): State
    requires Inv(s) && Enabled(s, step)
  {
    match step
    case RecordEntry(entry, id) =>
      var at := if entry.supersedes then UnflushedOf(s.wire, s.flushed, entry) else None;
      if at.None? then Push(s, EntryMessage(entry, id))
      else s.(wire := s.wire[at.value := EntryMessage(entry, s.wire[at.value].id)])
    case Add(m) => Push(s, m)
    case Rode(text) =>
      var at := LastHuman(s.wire);
      if at.None? then s
      else ReviseFlushed(s.(wire := s.wire[at.value := Carrying(s.wire[at.value], text)]), at.value)
    case Assistant(m) => Push(s, m).(lastAnswer := Some(|s.wire|))
    case Result(m) => Flush(Push(s, m))
    case Insert(m) => if s.sealed then s else Flush(Push(s, m))
    case Halt(steps) => HaltWith(s, steps)
    case Store(n) => s.(stored := s.stored + RowsOf(s.queued[..n]), queued := s.queued[n..])
    case Seal => Flush(s.(sealed := true))
  }

  // ----- revising what is stored -----

  /** The store's deep merge of what a revision brings into what is there. */
  function MergeJson(into: Json, from: Json): Json
    decreases from
  {
    if into.Obj? && from.Obj? then
      Obj(map key | key in into.fields.Keys + from.fields.Keys ::
            if key !in from.fields then into.fields[key]
            else if key in into.fields then MergeJson(into.fields[key], from.fields[key])
            else from.fields[key])
    else from
  }

  function Merge(into: Kwargs, from: Kwargs): Kwargs {
    MergeJson(Obj(into), Obj(from)).fields
  }

  function Revise(row: Row, kwargs: Kwargs): Row {
    row.(kwargs := Some(Merge(Base(row.kwargs), kwargs)))
  }

  function IdAt(s: State, at: nat): Option<string>
    requires at < |s.wire|
  {
    if at < |s.history| then s.history[at].id else Some(s.wire[at].id)
  }

  /** Whether the end of the turn revises a row: it must have an id to be found by. */
  predicate Revises(s: State, at: nat) {
    at in s.revised && at < |s.wire| && IdAt(s, at).Some? && s.revised[at].kwargs.Some?
  }

  /** A stored row as its revision leaves it, if it has one. */
  function Revised(s: State, at: nat): Row
    requires at < |s.stored|
  {
    if Revises(s, at) then Revise(s.stored[at], s.revised[at].kwargs.value) else s.stored[at]
  }

  /** The stored rows with these of them revised. */
  function StoredAfter(s: State, order: seq<nat>): (rows: seq<Row>)
    ensures |rows| == |s.stored|
    ensures forall i | 0 <= i < |rows| :: rows[i] == if i in order then Revised(s, i) else s.stored[i]
  {
    seq(|s.stored|, i requires 0 <= i < |s.stored| => if i in order then Revised(s, i) else s.stored[i])
  }

  /** `record`: the rows after the revisions, and then what was never flushed. */
  function Final(s: State): seq<Row>
    requires Inv(s)
  {
    StoredAfter(s, s.order) + RowsOf(s.wire[s.flushed..])
  }

  /** The revisions made by a store that refuses one it finds no row for: those before it. */
  function Cut(s: State, order: seq<nat>): (r: seq<nat>)
    ensures forall at | at in r :: at in order
  {
    if order == [] || order[0] >= |s.wire| || IdAt(s, order[0]).None? then []
    else [order[0]] + Cut(s, order[1..])
  }

  predicate Refused(s: State) {
    exists at | at in s.order :: at < |s.wire| && IdAt(s, at).None?
  }

  /** What `record` leaves in such a store: the refusal ends it. */
  function FinalRefusing(s: State): seq<Row>
    requires Inv(s)
  {
    StoredAfter(s, Cut(s, s.order)) + (if Refused(s) then [] else RowsOf(s.wire[s.flushed..]))
  }

  // ----- what every step keeps -----

  function Sent(s: State, at: nat): Row
    requires at < |s.stored| + |s.queued|
  {
    if at < |s.stored| then s.stored[at] else RowOf(s.queued[at - |s.stored|])
  }

  /** Merging the newer keywords into the older gives the newer: nothing was taken away. */
  predicate Grew(older: Option<Kwargs>, newer: Option<Kwargs>) {
    newer.Some? && Merge(Base(older), newer.value) == newer.value
  }

  /** A flushed message was sent as it is on the wire, or is down for revision as it is there. */
  predicate SentRight(s: State, at: nat)
    requires at < |s.stored| + |s.queued| && at < |s.wire|
  {
    var row, m := Sent(s, at), s.wire[at];
    && row.kind == m.kind && row.content == m.content && row.id == IdAt(s, at)
    && (if at in s.revised then s.revised[at] == m && Grew(row.kwargs, m.kwargs) else row.kwargs == m.kwargs)
  }

  predicate DistinctIds(s: State)
    requires |s.history| <= |s.wire|
  {
    forall i, j | 0 <= i < j < |s.wire| && IdAt(s, i).Some? :: IdAt(s, i) != IdAt(s, j)
  }

  predicate AnswerRight(s: State) {
    s.lastAnswer.Some? ==>
      var at := s.lastAnswer.value;
      && |s.history| <= at < |s.wire| && s.wire[at].kind.Ai? && HasMeta(s.wire[at])
      && (|s.stored| <= at < s.flushed && s.flushed == |s.stored| + |s.queued|
          ==> s.queued[at - |s.stored|] == s.wire[at])
  }

  predicate OrderRight(s: State) {
    && (forall at | at in s.order :: at in s.revised) && (forall at | at in s.revised :: at in s.order)
    && (forall i, j | 0 <= i < j < |s.order| :: s.order[i] != s.order[j])
  }

  predicate Inv(s: State) {
    && |s.history| <= |s.stored| && |s.stored| + |s.queued| == s.flushed <= |s.wire|
    && (!s.streams ==> s.flushed == |s.history|)
    && (s.sealed && s.streams ==> s.flushed == |s.wire|)
    && (forall at | at in s.revised :: at < s.flushed) && OrderRight(s)
    && (forall at | 0 <= at < s.flushed :: SentRight(s, at))
    && DistinctIds(s)
    && AnswerRight(s)
  }

  lemma {:induction false} MergeSelf(a: Json)
    ensures MergeJson(a, a) == a
    decreases a
  {
    if a.Obj? {
      forall key | key in a.fields ensures MergeJson(a.fields[key], a.fields[key]) == a.fields[key] {
        MergeSelf(a.fields[key]);
      }
      assert MergeJson(a, a).fields == a.fields;
    }
  }

  lemma MergeSame(kwargs: Kwargs)
    ensures Merge(kwargs, kwargs) == kwargs
  {
    MergeSelf(Obj(kwargs));
  }

  /** One keyword replaced by a value that any merge into it leaves as it is. */
  lemma GrewWith(older: Option<Kwargs>, newer: Option<Kwargs>, key: string, value: Json)
    requires Merge(Base(older), Base(newer)) == Base(newer)
    requires key in Base(older) ==> MergeJson(Base(older)[key], value) == value
    ensures Grew(older, Some(Base(newer)[key := value]))
  {
    var a, b := Base(older), Base(newer);
    var c := b[key := value];
    forall k | k in a ensures k in c && MergeJson(a[k], c[k]) == c[k] {
      assert k in Merge(a, b);
      if k != key { assert Merge(a, b)[k] == MergeJson(a[k], b[k]); }
    }
    assert Merge(a, c) == c;
  }

  lemma Older(older: Option<Kwargs>, newer: Option<Kwargs>)
    requires older == newer || Grew(older, newer)
    ensures Merge(Base(older), Base(newer)) == Base(newer)
  {
    MergeSame(Base(older));
  }

  lemma CarryingGrew(older: Option<Kwargs>, m: Message, text: string)
    requires older == m.kwargs || Grew(older, m.kwargs)
    ensures Grew(older, Carrying(m, text).kwargs)
  {
    Older(older, m.kwargs);
    GrewWith(older, m.kwargs, "riding", Carrying(m, text).kwargs.value["riding"]);
  }

  lemma StepsGrew(older: Option<Kwargs>, m: Message, steps: int)
    requires HasMeta(m) && (older == m.kwargs || Grew(older, m.kwargs))
    ensures Grew(older, WithSteps(m, steps).kwargs)
  {
    var meta := m.kwargs.value["meta"].fields;
    Older(older, m.kwargs);
    if "meta" in Base(older) && Base(older)["meta"].Obj? {
      var was := Base(older)["meta"].fields;
      assert Merge(Base(older), m.kwargs.value)["meta"] == MergeJson(Obj(was), Obj(meta));
      assert Merge(was, meta) == meta;
      GrewWith(Some(was), Some(meta), "steps", Int(steps));
    }
    GrewWith(older, m.kwargs, "meta", Obj(meta["steps" := Int(steps)]));
  }

  lemma PushKeeps(s: State, m: Message)
    requires Inv(s) && FreshId(s, m.id) && (s.sealed ==> !s.streams)
    ensures Inv(Push(s, m))
  {
    var t := Push(s, m);
    forall at | 0 <= at < t.flushed ensures SentRight(t, at) { assert SentRight(s, at); }
    forall i, j | 0 <= i < j < |t.wire| && IdAt(t, i).Some? ensures IdAt(t, i) != IdAt(t, j) {
      assert IdAt(t, i) == IdAt(s, i);
      if j < |s.wire| { assert IdAt(t, j) == IdAt(s, j); }
    }
  }

  lemma FlushKeeps(s: State)
    requires |s.history| <= |s.stored| && |s.stored| + |s.queued| == s.flushed <= |s.wire|
    requires Inv(s.(sealed := false))
    ensures Inv(Flush(s))
  {
    var t, open := Flush(s), s.(sealed := false);
    forall at | 0 <= at < t.flushed ensures SentRight(t, at) {
      if at < s.flushed {
        assert SentRight(open, at) && Sent(t, at) == Sent(open, at);
      } else {
        assert t.queued[at - |s.stored|] == s.wire[at];
      }
    }
    assert forall i | 0 <= i < |t.wire| :: IdAt(t, i) == IdAt(open, i);
  }

  lemma OrderKept(s: State, at: nat)
    requires OrderRight(s) && at < |s.wire|
    ensures OrderRight(ReviseFlushed(s, at))
  {
  }

  /** One message of the wire changes in place, with its kind, its content and its id kept. */
  lemma ChangeKeeps(s: State, at: nat, m: Message, queued: seq<Message>)
    requires Inv(s) && at < |s.wire| && m.kind == s.wire[at].kind && m.content == s.wire[at].content
    requires m.id == s.wire[at].id
    requires |queued| == |s.queued| && forall i | 0 <= i < |queued| && |s.stored| + i != at :: queued[i] == s.queued[i]
    requires at < s.flushed ==>
               var t := s.(wire := s.wire[at := m], queued := queued);
               Sent(t, at).(kwargs := None) == Sent(s, at).(kwargs := None) && Grew(Sent(t, at).kwargs, m.kwargs)
    requires s.lastAnswer == Some(at) ==> HasMeta(m) && (|s.stored| <= at < s.flushed ==> queued[at - |s.stored|] == m)
    ensures Inv(ReviseFlushed(s.(wire := s.wire[at := m], queued := queued), at))
  {
    var moved := s.(wire := s.wire[at := m], queued := queued);
    var t := ReviseFlushed(moved, at);
    OrderKept(moved, at);
    forall i | 0 <= i < t.flushed ensures SentRight(t, i) {
      assert SentRight(s, i);
      if i != at { SentKept(s, moved, t, i, at); }
    }
    IdsKept(s, t);
    AnswerKept(s, moved, at);
  }

  lemma AnswerKept(s: State, moved: State, at: nat)
    requires AnswerRight(s) && at < |s.wire| == |moved.wire|
    requires moved == s.(wire := s.wire[at := moved.wire[at]], queued := moved.queued)
    requires moved.wire[at].kind == s.wire[at].kind
    requires |moved.queued| == |s.queued|
    requires forall i | 0 <= i < |s.queued| && |s.stored| + i != at :: moved.queued[i] == s.queued[i]
    requires s.lastAnswer == Some(at) ==>
               && HasMeta(moved.wire[at])
               && (|s.stored| <= at < s.flushed == |s.stored| + |s.queued|
                   ==> moved.queued[at - |s.stored|] == moved.wire[at])
    ensures AnswerRight(ReviseFlushed(moved, at))
  {
  }

  lemma SentKept(s: State, moved: State, t: State, i: nat, at: nat)
    requires |s.stored| + |s.queued| == s.flushed <= |s.wire| && i < s.flushed && i != at && at < |s.wire|
    requires |moved.wire| == |s.wire| && |moved.queued| == |s.queued|
    requires moved == s.(wire := moved.wire, queued := moved.queued) && t == ReviseFlushed(moved, at)
    requires moved.wire[i] == s.wire[i]
    requires (i >= |s.stored| ==> moved.queued[i - |s.stored|] == s.queued[i - |s.stored|])
    requires SentRight(s, i)
    ensures SentRight(t, i)
  {
  }

  lemma IdsKept(s: State, t: State)
    requires |s.history| <= |s.wire| == |t.wire| && t.history == s.history && DistinctIds(s)
    requires forall i | 0 <= i < |s.wire| :: t.wire[i].id == s.wire[i].id
    ensures DistinctIds(t)
  {
    assert forall i | 0 <= i < |t.wire| :: IdAt(t, i) == IdAt(s, i);
  }

  lemma RodeKeeps(s: State, text: string)
    requires Inv(s) && Enabled(s, Rode(text))
    ensures Inv(Next(s, Rode(text)))
  {
    var found := LastHuman(s.wire);
    if found.Some? {
      var at := found.value;
      if at < s.flushed {
        assert SentRight(s, at);
        CarryingGrew(Sent(s, at).kwargs, s.wire[at], text);
        assert Sent(s.(wire := s.wire[at := Carrying(s.wire[at], text)]), at) == Sent(s, at);
      }
      ChangeKeeps(s, at, Carrying(s.wire[at], text), s.queued);
    }
  }

  lemma HaltKeeps(s: State, steps: int)
    requires Inv(s)
    ensures Inv(HaltWith(s, steps))
  {
    if s.lastAnswer.Some? {
      var at, t := s.lastAnswer.value, Counted(s, steps);
      if at < s.flushed { CountedGrew(s, steps); }
      ChangeKeeps(s, at, t.wire[at], t.queued);
    }
  }

  /** What was sent of the last answer is, but for its keywords, what it was, and these only grow. */
  lemma CountedGrew(s: State, steps: int)
    requires Inv(s) && s.lastAnswer.Some? && s.lastAnswer.value < s.flushed
    ensures var at, t := s.lastAnswer.value, Counted(s, steps);
            Sent(t, at).(kwargs := None) == Sent(s, at).(kwargs := None) && Grew(Sent(t, at).kwargs, t.wire[at].kwargs)
  {
    var at := s.lastAnswer.value;
    assert SentRight(s, at);
    if at < |s.stored| {
      StepsGrew(s.stored[at].kwargs, s.wire[at], steps);
    } else {
      MergeSame(WithSteps(s.wire[at], steps).kwargs.value);
    }
  }

  lemma EntryKeeps(s: State, entry: Entry, id: string)
    requires Inv(s) && Enabled(s, RecordEntry(entry, id))
    ensures Inv(Next(s, RecordEntry(entry, id)))
  {
    var found := if entry.supersedes then UnflushedOf(s.wire, s.flushed, entry) else None;
    if found.None? {
      PushKeeps(s, EntryMessage(entry, id));
    } else {
      var t := Next(s, RecordEntry(entry, id));
      forall at | 0 <= at < t.flushed ensures SentRight(t, at) { assert SentRight(s, at); }
      assert forall i | 0 <= i < |t.wire| :: IdAt(t, i) == IdAt(s, i);
    }
  }

  lemma StoreKeeps(s: State, n: nat)
    requires Inv(s) && n <= |s.queued|
    ensures Inv(Next(s, Store(n)))
  {
    var t := Next(s, Store(n));
    forall at | 0 <= at < t.flushed ensures SentRight(t, at) {
      assert SentRight(s, at);
      assert Sent(t, at) == Sent(s, at);
    }
    assert forall i | 0 <= i < |t.wire| :: IdAt(t, i) == IdAt(s, i);
  }

  lemma StepKeeps(s: State, step: Step)
    requires Inv(s) && Enabled(s, step)
    ensures Inv(Next(s, step))
  {
    match step
    case RecordEntry(entry, id) => EntryKeeps(s, entry, id);
    case Add(m) => PushKeeps(s, m);
    case Rode(text) => RodeKeeps(s, text);
    case Assistant(m) =>
      PushKeeps(s, m);
      var t := Push(s, m);
      assert forall at | 0 <= at < t.flushed :: SentRight(t, at);
      LastAnswerMoves(t);
    case Result(m) => PushKeeps(s, m); FlushKeeps(Push(s, m));
    case Insert(m) => if !s.sealed { PushKeeps(s, m); FlushKeeps(Push(s, m)); }
    case Halt(steps) => HaltKeeps(s, steps);
    case Store(n) => StoreKeeps(s, n);
    case Seal => FlushKeeps(s.(sealed := true));
  }

  lemma LastAnswerMoves(t: State)
    requires Inv(t) && |t.wire| > t.flushed && t.wire[|t.wire| - 1].kind.Ai? && HasMeta(t.wire[|t.wire| - 1])
    ensures Inv(t.(lastAnswer := Some(|t.wire| - 1)))
  {
    var u := t.(lastAnswer := Some(|t.wire| - 1));
    forall at | 0 <= at < u.flushed ensures SentRight(u, at) { assert SentRight(t, at); }
    assert forall i | 0 <= i < |u.wire| :: IdAt(u, i) == IdAt(t, i);
  }

  // ----- every turn -----

  predicate Runs(s: State, steps: seq<Step>)
    requires Inv(s)
    decreases |steps|
  {
    if steps == [] then true
    else
      && Enabled(s, steps[0])
      && (StepKeeps(s, steps[0]); Runs(Next(s, steps[0]), steps[1..]))
  }

  function After(s: State, steps: seq<Step>): (t: State)
    requires Inv(s) && Runs(s, steps)
    ensures Inv(t)
    decreases |steps|
  {
    if steps == [] then s
    else
      StepKeeps(s, steps[0]);
      After(Next(s, steps[0]), steps[1..])
  }

  predicate HistoryIds(history: seq<Row>) {
    forall i, j | 0 <= i < j < |history| && history[i].id.Some? :: history[i].id != history[j].id
  }

  lemma StartInv(history: seq<Row>, missing: seq<string>, streams: bool)
    requires |missing| == |history| && HistoryIds(history)
    ensures Inv(Start(history, missing, streams))
  {
  }

  // ----- which messages from before the turn are revised -----

  predicate AddsHuman(step: Step) {
    match step
    case Add(m) => m.kind.Human?
    case Result(m) => m.kind.Human?
    case Insert(m) => m.kind.Human?
    case _ => false
  }

  /** A text that rides before any human message is added. */
  predicate RidesFirst(steps: seq<Step>, k: nat) {
    k < |steps| && steps[k].Rode? && forall j | 0 <= j < k :: !AddsHuman(steps[j])
  }

  predicate Rides(steps: seq<Step>) {
    exists k | 0 <= k < |steps| :: RidesFirst(steps, k)
  }

  /** One that changes these keywords. */
  predicate RidesChanging(kwargs: Option<Kwargs>, steps: seq<Step>) {
    exists k | 0 <= k < |steps| :: RidesFirst(steps, k) && Changes(kwargs, steps[k].text)
  }

  lemma RidesCons(steps: seq<Step>)
    requires steps != []
    ensures Rides(steps) <==> steps[0].Rode? || (!AddsHuman(steps[0]) && Rides(steps[1..]))
  {
    if steps[0].Rode? { assert RidesFirst(steps, 0); }
    if !AddsHuman(steps[0]) && Rides(steps[1..]) {
      var k :| 0 <= k < |steps| - 1 && RidesFirst(steps[1..], k);
      FirstLater(steps, k);
    }
    if Rides(steps) && !steps[0].Rode? {
      var k :| 0 <= k < |steps| && RidesFirst(steps, k);
      FirstSooner(steps, k);
    }
  }

  lemma FirstLater(steps: seq<Step>, k: nat)
    requires steps != [] && !AddsHuman(steps[0]) && RidesFirst(steps[1..], k)
    ensures RidesFirst(steps, k + 1)
  {
    forall j | 0 <= j < k + 1 ensures !AddsHuman(steps[j]) { if j > 0 { assert steps[j] == steps[1..][j - 1]; } }
  }

  lemma FirstSooner(steps: seq<Step>, k: nat)
    requires k > 0 && RidesFirst(steps, k)
    ensures !AddsHuman(steps[0]) && RidesFirst(steps[1..], k - 1) && steps[1..][k - 1] == steps[k]
  {
    forall j | 0 <= j < k - 1 ensures !AddsHuman(steps[1..][j]) { assert steps[1..][j] == steps[j + 1]; }
  }

  lemma RidesChangingCons(kwargs: Option<Kwargs>, steps: seq<Step>)
    requires steps != []
    ensures RidesChanging(kwargs, steps) <==>
            || (steps[0].Rode? && Changes(kwargs, steps[0].text))
            || (!AddsHuman(steps[0]) && RidesChanging(kwargs, steps[1..]))
  {
    if steps[0].Rode? { assert RidesFirst(steps, 0); }
    if !AddsHuman(steps[0]) && RidesChanging(kwargs, steps[1..]) {
      var k :| 0 <= k < |steps| - 1 && RidesFirst(steps[1..], k) && Changes(kwargs, steps[1..][k].text);
      FirstLater(steps, k);
    }
    if RidesChanging(kwargs, steps) {
      var k :| 0 <= k < |steps| && RidesFirst(steps, k) && Changes(kwargs, steps[k].text);
      if k > 0 { FirstSooner(steps, k); }
    }
  }

  /** Whether a text riding on a message with these keywords changes them. */
  predicate Changes(kwargs: Option<Kwargs>, text: string) {
    !("riding" in Base(kwargs) && Base(kwargs)["riding"] == Text("") && text == "")
  }

  predicate LastHumanRow(history: seq<Row>, at: nat) {
    at < |history| && history[at].kind.Human? && forall i | at < i < |history| :: !history[i].kind.Human?
  }

  /** A message without an id that a text rode on. */
  predicate RodeOn(history: seq<Row>, steps: seq<Step>, at: nat) {
    LastHumanRow(history, at) && history[at].id.None? && Rides(steps)
  }

  /** One whose keywords that changed. */
  predicate Lost(history: seq<Row>, steps: seq<Step>, at: nat) {
    && LastHumanRow(history, at) && history[at].id.None?
    && RidesChanging(history[at].kwargs, steps)
  }

  /** How much rides on a message; it never gets less. */
  function Riding(kwargs: Option<Kwargs>): int {
    if "riding" in Base(kwargs) && Base(kwargs)["riding"].Text? then |Base(kwargs)["riding"].s| else -1
  }

  lemma CarryingMore(m: Message, text: string)
    ensures Riding(Carrying(m, text).kwargs) >= Riding(m.kwargs)
    ensures Changes(m.kwargs, text) <==> Riding(Carrying(m, text).kwargs) > Riding(m.kwargs)
    ensures !Changes(m.kwargs, text) ==> Carrying(m, text).kwargs == m.kwargs
  {
    var kwargs := Base(m.kwargs);
    if !Changes(m.kwargs, text) { assert kwargs["riding" := Text("")] == kwargs; }
  }

  lemma LastHumanKinds(a: seq<Message>, b: seq<Message>)
    requires |a| == |b| && forall i | 0 <= i < |a| :: a[i].kind == b[i].kind
    ensures LastHuman(a) == LastHuman(b)
  {
    var x, y := LastHuman(a), LastHuman(b);
    if x.Some? { assert b[x.value].kind.Human?; }
    if y.Some? { assert a[y.value].kind.Human?; }
  }

  lemma LastHumanPush(wire: seq<Message>, m: Message)
    ensures LastHuman(wire + [m]) == if m.kind.Human? then Some(|wire|) else LastHuman(wire)
  {
    assert (wire + [m])[..|wire|] == wire;
  }

  /** What one step does to a message from before the turn. */
  predicate StepOn(s: State, t: State, step: Step, at: nat)
    requires at < |s.wire| && at < |t.wire|
  {
    var rides := step.Rode? && LastHuman(s.wire) == Some(at);
    && (at in t.revised <==> at in s.revised || rides)
    && t.wire[at] == (if rides then Carrying(s.wire[at], step.text) else s.wire[at])
    && (LastHuman(t.wire) == Some(at) <==> LastHuman(s.wire) == Some(at) && !AddsHuman(step))
  }

  lemma PushedOn(s: State, t: State, step: Step, m: Message, at: nat)
    requires t.wire == s.wire + [m] && t.revised == s.revised && at < |s.wire|
    requires !step.Rode? && (AddsHuman(step) <==> m.kind.Human?)
    ensures StepOn(s, t, step, at)
  {
    LastHumanPush(s.wire, m);
  }

  lemma ChangedOn(s: State, t: State, step: Step, at: nat)
    requires |t.wire| == |s.wire| && forall i | 0 <= i < |s.wire| :: t.wire[i].kind == s.wire[i].kind
    requires at < |s.wire| && t.wire[at] == s.wire[at] && (at in t.revised <==> at in s.revised)
    requires !step.Rode? && !AddsHuman(step)
    ensures StepOn(s, t, step, at)
  {
    LastHumanKinds(s.wire, t.wire);
  }

  lemma RodeStep(s: State, text: string, at: nat)
    requires Inv(s) && Enabled(s, Rode(text)) && at < |s.history|
    ensures StepOn(s, Next(s, Rode(text)), Rode(text), at)
  {
    LastHumanKinds(s.wire, Next(s, Rode(text)).wire);
  }

  lemma EntryStep(s: State, entry: Entry, id: string, at: nat)
    requires Inv(s) && Enabled(s, RecordEntry(entry, id)) && at < |s.history|
    ensures StepOn(s, Next(s, RecordEntry(entry, id)), RecordEntry(entry, id), at)
  {
    var t, step := Next(s, RecordEntry(entry, id)), RecordEntry(entry, id);
    var found := if entry.supersedes then UnflushedOf(s.wire, s.flushed, entry) else None;
    if found.None? { PushedOn(s, t, step, EntryMessage(entry, id), at); } else { ChangedOn(s, t, step, at); }
  }

  lemma HaltStep(s: State, steps: int, at: nat)
    requires Inv(s) && at < |s.history|
    ensures StepOn(s, HaltWith(s, steps), Halt(steps), at)
  {
    assert AnswerRight(s);
    ChangedOn(s, HaltWith(s, steps), Halt(steps), at);
  }

  lemma StepOnHistory(s: State, step: Step, at: nat)
    requires Inv(s) && Enabled(s, step) && at < |s.history| && !s.sealed
    ensures StepOn(s, Next(s, step), step, at)
  {
    var t := Next(s, step);
    match step
    case RecordEntry(entry, id) => EntryStep(s, entry, id, at);
    case Add(m) => PushedOn(s, t, step, m, at);
    case Rode(text) => RodeStep(s, text, at);
    case Assistant(m) => PushedOn(s, t, step, m, at);
    case Result(m) => PushedOn(s, t, step, m, at);
    case Insert(m) => PushedOn(s, t, step, m, at);
    case Halt(steps) => HaltStep(s, steps, at);
    case Store(n) => ChangedOn(s, t, step, at);
    case Seal => ChangedOn(s, t, step, at);
  }

  lemma StoredStays(s: State, step: Step, at: nat)
    requires Inv(s) && Enabled(s, step) && at < |s.stored|
    ensures Next(s, step).history == s.history
    ensures at < |Next(s, step).stored| && Next(s, step).stored[at] == s.stored[at]
  {
  }

  /** After a seal nothing rides any more. */
  lemma {:induction false} SealedStays(s: State, steps: seq<Step>, at: nat)
    requires Inv(s) && Runs(s, steps) && s.sealed && at < |s.history|
    ensures var t := After(s, steps);
            && t.history == s.history && at < |t.stored| && t.stored[at] == s.stored[at]
            && t.wire[at] == s.wire[at] && (at in t.revised <==> at in s.revised)
    ensures forall k | 0 <= k < |steps| :: !steps[k].Rode?
    decreases |steps|
  {
    if steps != [] {
      StepKeeps(s, steps[0]);
      SealedStays(Next(s, steps[0]), steps[1..], at);
      forall k | 0 <= k < |steps| ensures !steps[k].Rode? {
        if k > 0 { assert steps[k] == steps[1..][k - 1]; }
      }
    }
  }

  /** What a whole run does to a message from before the turn. */
  predicate RunDid(s: State, t: State, steps: seq<Step>, at: nat)
    requires at < |s.wire| && at < |s.stored|
  {
    var last := LastHuman(s.wire) == Some(at);
    && t.history == s.history && at < |t.stored| && at < |t.wire| && t.stored[at] == s.stored[at]
    && (at in t.revised <==> at in s.revised || (last && Rides(steps)))
    && Riding(t.wire[at].kwargs) >= Riding(s.wire[at].kwargs)
    && (Riding(t.wire[at].kwargs) > Riding(s.wire[at].kwargs) <==> last && RidesChanging(s.wire[at].kwargs, steps))
    && (Riding(t.wire[at].kwargs) == Riding(s.wire[at].kwargs) ==> t.wire[at].kwargs == s.wire[at].kwargs)
  }

  lemma {:induction false} RunOn(s: State, steps: seq<Step>, at: nat)
    requires Inv(s) && Runs(s, steps) && at < |s.history|
    ensures RunDid(s, After(s, steps), steps, at)
    decreases |steps|
  {
    if s.sealed {
      SealedStays(s, steps, at);
    } else if steps != [] {
      StepKeeps(s, steps[0]);
      var t := Next(s, steps[0]);
      StepOnHistory(s, steps[0], at);
      StoredStays(s, steps[0], at);
      RunOn(t, steps[1..], at);
      RidesCons(steps);
      RidesChangingCons(s.wire[at].kwargs, steps);
      StepThenRun(s, t, After(s, steps), steps, at);
    }
  }

  lemma StepThenRun(s: State, t: State, u: State, steps: seq<Step>, at: nat)
    requires steps != [] && at < |s.wire| && at < |s.stored| && at < |t.wire| && at < |t.stored|
    requires StepOn(s, t, steps[0], at) && t.history == s.history && t.stored[at] == s.stored[at]
    requires RunDid(t, u, steps[1..], at)
    requires Rides(steps) <==> steps[0].Rode? || (!AddsHuman(steps[0]) && Rides(steps[1..]))
    requires RidesChanging(s.wire[at].kwargs, steps) <==>
             (steps[0].Rode? && Changes(s.wire[at].kwargs, steps[0].text))
             || (!AddsHuman(steps[0]) && RidesChanging(s.wire[at].kwargs, steps[1..]))
    ensures RunDid(s, u, steps, at)
  {
    if steps[0].Rode? && LastHuman(s.wire) == Some(at) { CarryingMore(s.wire[at], steps[0].text); }
  }

  // ----- the theorems -----

  predicate Matches(row: Row, m: Message) {
    row.kind == m.kind && row.content == m.content && row.kwargs == m.kwargs
  }

  /** The stored transcript is the final wire: after any turn, once everything flushed is
      stored, the revised rows with what was never flushed behind them are the wire, each
      message once and in order. This is of a store that hands out messages without an id as
      such, for `record` to skip: there a message keeps the keywords it had, and so differs from
      the wire, if and only if it has no id and is the last human message of the history when a
      text rides that changes it. */
  lemma StoredIsWire(history: seq<Row>, missing: seq<string>, streams: bool, steps: seq<Step>)
    requires |missing| == |history| && HistoryIds(history)
    ensures Inv(Start(history, missing, streams))
    ensures Runs(Start(history, missing, streams), steps) ==>
              var s := After(Start(history, missing, streams), steps);
              s.queued == [] ==>
                && |Final(s)| == |s.wire| && s.history == history
                && forall at | 0 <= at < |s.wire| ::
                     && Final(s)[at].id == IdAt(s, at)
                     && (Matches(Final(s)[at], s.wire[at]) <==> !Lost(history, steps, at))
                     && (Lost(history, steps, at) ==> Final(s)[at] == history[at])
  {
    StartInv(history, missing, streams);
    var start := Start(history, missing, streams);
    if Runs(start, steps) {
      var s := After(start, steps);
      HistoryKept(start, steps);
      if s.queued == [] {
        forall at | 0 <= at < |s.wire|
          ensures Final(s)[at].id == IdAt(s, at)
          ensures Matches(Final(s)[at], s.wire[at]) <==> !Lost(history, steps, at)
          ensures Lost(history, steps, at) ==> Final(s)[at] == history[at]
        {
          if at < |history| { StoredRow(history, missing, streams, steps, at); } else { NewRow(s, at); }
        }
      }
    }
  }

  lemma NewRow(s: State, at: nat)
    requires Inv(s) && s.queued == [] && |s.history| <= at < |s.wire|
    ensures |Final(s)| == |s.wire| && Final(s)[at].id == IdAt(s, at) && Matches(Final(s)[at], s.wire[at])
  {
    if at < s.flushed { assert SentRight(s, at); }
  }

  lemma HistoryStep(s: State, step: Step)
    requires Inv(s) && Enabled(s, step)
    ensures Next(s, step).history == s.history
  {
  }

  lemma {:induction false} HistoryKept(s: State, steps: seq<Step>)
    requires Inv(s) && Runs(s, steps)
    ensures After(s, steps).history == s.history
    decreases |steps|
  {
    if steps != [] {
      StepKeeps(s, steps[0]);
      HistoryStep(s, steps[0]);
      HistoryKept(Next(s, steps[0]), steps[1..]);
    }
  }

  lemma StoredRow(history: seq<Row>, missing: seq<string>, streams: bool, steps: seq<Step>, at: nat)
    requires |missing| == |history| && HistoryIds(history) && at < |history|
    requires Inv(Start(history, missing, streams)) && Runs(Start(history, missing, streams), steps)
    requires After(Start(history, missing, streams), steps).queued == []
    ensures var s := After(Start(history, missing, streams), steps);
            && at < |s.wire| && at < |Final(s)| && s.history == history
            && Final(s)[at].id == IdAt(s, at)
            && (Matches(Final(s)[at], s.wire[at]) <==> !Lost(history, steps, at))
            && (Lost(history, steps, at) ==> Final(s)[at] == history[at])
  {
    var start := Start(history, missing, streams);
    var s := After(start, steps);
    RunOn(start, steps, at);
    StartHuman(history, missing, streams, at);
    assert SentRight(s, at);
    assert start.wire[at].kwargs == history[at].kwargs && s.stored[at] == history[at];
  }

  lemma StartHuman(history: seq<Row>, missing: seq<string>, streams: bool, at: nat)
    requires |missing| == |history| && at < |history|
    ensures LastHuman(Start(history, missing, streams).wire) == Some(at) <==> LastHumanRow(history, at)
  {
    var wire := Start(history, missing, streams).wire;
    assert forall i | 0 <= i < |history| :: wire[i].kind == history[i].kind;
    if LastHumanRow(history, at) { LastHumanIs(wire, at); }
  }

  /** One that is lost: the only message of the history has no id, and a text rides on it. */
  lemma RevisionLost()
    ensures var history, steps := [Row(None, Human, "hi", None)], [Rode("x")];
            var start := Start(history, ["old"], true);
            && HistoryIds(history) && Lost(history, steps, 0)
            && Inv(start) && Runs(start, steps)
            && var s := After(start, steps); s.queued == [] && !Matches(Final(s)[0], s.wire[0])
  {
    var history: seq<Row>, steps := [Row(None, Human, "hi", None)], [Rode("x")];
    StartInv(history, ["old"], true);
    var start := Start(history, ["old"], true);
    assert Runs(Next(start, steps[0]), steps[1..]) by { StepKeeps(start, steps[0]); }
    assert RidesFirst(steps, 0) && Changes(None, "x");
    StoredIsWire(history, ["old"], true, steps);
  }

  /** A store that gives such messages a handle it does not find again, as the repository's own
      does, refuses the revision, and `record` ends there: exactly when a text rode on a message
      without an id. Then the rows revised before it are the wire's, the others are as they were
      stored, and what was never flushed is not stored. Otherwise all is as in the other. */
  lemma RefusedRevision(history: seq<Row>, missing: seq<string>, streams: bool, steps: seq<Step>)
    requires |missing| == |history| && HistoryIds(history)
    requires Inv(Start(history, missing, streams)) && Runs(Start(history, missing, streams), steps)
    requires After(Start(history, missing, streams), steps).queued == []
    ensures var s := After(Start(history, missing, streams), steps);
            && (Refused(s) <==> exists at | 0 <= at < |history| :: RodeOn(history, steps, at))
            && (!Refused(s) ==> FinalRefusing(s) == Final(s))
            && (Refused(s) ==>
                  && |FinalRefusing(s)| == |s.stored|
                  && forall at | 0 <= at < |s.stored| ::
                       if at in Cut(s, s.order) then Matches(FinalRefusing(s)[at], s.wire[at])
                       else FinalRefusing(s)[at] == s.stored[at])
  {
    var start := Start(history, missing, streams);
    var s := After(start, steps);
    HistoryKept(start, steps);
    forall at | 0 <= at < |history| ensures at in s.order && IdAt(s, at).None? <==> RodeOn(history, steps, at) {
      RunOn(start, steps, at);
      StartHuman(history, missing, streams, at);
    }
    if Refused(s) { CutShort(s); } else { CutWhole(s); }
  }

  lemma CutWhole(s: State)
    requires Inv(s) && !Refused(s)
    ensures FinalRefusing(s) == Final(s)
  {
    CutAll(s, s.order);
  }

  lemma CutShort(s: State)
    requires Inv(s) && s.queued == [] && Refused(s)
    ensures |FinalRefusing(s)| == |s.stored|
    ensures forall at | 0 <= at < |s.stored| ::
              if at in Cut(s, s.order) then Matches(FinalRefusing(s)[at], s.wire[at])
              else FinalRefusing(s)[at] == s.stored[at]
  {
    CutLength(s);
    forall at | 0 <= at < |s.stored|
      ensures if at in Cut(s, s.order) then Matches(FinalRefusing(s)[at], s.wire[at])
              else FinalRefusing(s)[at] == s.stored[at]
    {
      if at in Cut(s, s.order) { CutMatches(s, at); }
    }
  }

  lemma CutLength(s: State)
    requires Inv(s) && Refused(s)
    ensures |FinalRefusing(s)| == |s.stored|
  {
  }

  lemma CutMatches(s: State, at: nat)
    requires Inv(s) && s.queued == [] && at < |s.stored| && at in Cut(s, s.order)
    ensures Matches(FinalRefusing(s)[at], s.wire[at])
  {
    CutFound(s, s.order, at);
    assert SentRight(s, at);
  }

  lemma {:induction false} CutAll(s: State, order: seq<nat>)
    requires forall at | at in order :: at < |s.wire| && IdAt(s, at).Some?
    ensures Cut(s, order) == order
  {
    if order != [] {
      assert order[0] in order && order == [order[0]] + order[1..];
      assert forall at | at in order[1..] :: at in order;
      CutAll(s, order[1..]);
    }
  }

  lemma {:induction false} CutFound(s: State, order: seq<nat>, at: nat)
    requires at in Cut(s, order)
    ensures at < |s.wire| && IdAt(s, at).Some?
  {
    assert order != [] && order[0] < |s.wire| && IdAt(s, order[0]).Some?;
    if at != order[0] { CutFound(s, order[1..], at); }
  }

  /** Once everything flushed is stored, a row's id finds that row and no other. */
  lemma FoundById(s: State, at: nat)
    requires Inv(s) && s.queued == [] && at in s.revised && at < |s.wire| && IdAt(s, at).Some?
    ensures at < |s.stored| && forall i | 0 <= i < |s.stored| :: s.stored[i].id == IdAt(s, at) <==> i == at
  {
    assert at < s.flushed;
    forall i | 0 <= i < |s.stored| ensures s.stored[i].id == IdAt(s, at) <==> i == at {
      assert SentRight(s, i);
    }
  }
}
