/** `TurnWire` as an object (`packages/ai/src/stream.ts`). The last answer's metadata is an
    object of its own: the wire, the batches still to be stored and the revisions all hold the
    same one, and `halt` writes into it. Metadata objects are kept here by identity. */
module TurnWireObject {
  import opened Wrappers
  import opened TurnTranscript

  type MetaId = nat
  type Heap = map<MetaId, Kwargs>

  /** A message object; what is in its metadata depends on the heap. */
  datatype WireMessage =
    WireMessage(kind: Kind, content: string, id: string, kwargs: Option<Kwargs>, meta: Option<MetaId>)

  function View(heap: Heap, m: WireMessage): Message {
    if m.meta.None? || m.meta.value !in heap then Message(m.kind, m.content, m.id, m.kwargs)
    else Message(m.kind, m.content, m.id, Some(Base(m.kwargs)["meta" := Obj(heap[m.meta.value])]))
  }

  function Views(heap: Heap, ms: seq<WireMessage>): (r: seq<Message>)
    ensures |r| == |ms|
  {
    seq(|ms|, i requires 0 <= i < |ms| => View(heap, ms[i]))
  }

  function ViewMap(heap: Heap, ms: map<nat, WireMessage>): map<nat, Message> {
    map at | at in ms :: View(heap, ms[at])
  }

  predicate Known(heap: Heap, m: WireMessage) {
    m.meta.Some? ==> m.meta.value in heap
  }

  predicate InHeap(heap: Heap, ms: seq<WireMessage>) {
    forall i | 0 <= i < |ms| :: Known(heap, ms[i])
  }

  lemma ViewsDrop(heap: Heap, ms: seq<WireMessage>, n: nat)
    requires n <= |ms|
    ensures Views(heap, ms[n..]) == Views(heap, ms)[n..] && (InHeap(heap, ms) ==> InHeap(heap, ms[n..]))
  {
  }

  /** Messages that do not hold the metadata look the same whatever is written into it. */
  lemma ViewsElsewhere(heap: Heap, own: MetaId, fields: Kwargs, ms: seq<WireMessage>)
    requires forall i | 0 <= i < |ms| :: ms[i].meta != Some(own)
    ensures Views(heap[own := fields], ms) == Views(heap, ms)
  {
  }

  lemma ViewMapElsewhere(heap: Heap, own: MetaId, fields: Kwargs, ms: map<nat, WireMessage>)
    requires forall at | at in ms :: ms[at].meta != Some(own)
    ensures ViewMap(heap[own := fields], ms) == ViewMap(heap, ms)
  {
  }

  /** The one that does shows what was written. */
  lemma ViewsWritten(heap: Heap, own: MetaId, fields: Kwargs, ms: seq<WireMessage>, at: nat)
    requires at < |ms| && forall i | 0 <= i < |ms| :: ms[i].meta == Some(own) <==> i == at
    ensures Views(heap[own := fields], ms) == Views(heap, ms)[at := View(heap[own := fields], ms[at])]
  {
  }

  lemma ViewWritten(heap: Heap, m: WireMessage, steps: int)
    requires m.meta.Some? && m.meta.value in heap
    ensures HasMeta(View(heap, m))
    ensures View(heap[m.meta.value := heap[m.meta.value]["steps" := Int(steps)]], m) == WithSteps(View(heap, m), steps)
  {
    var was, now := View(heap, m), View(heap[m.meta.value := heap[m.meta.value]["steps" := Int(steps)]], m);
    assert now.kwargs.value == WithSteps(was, steps).kwargs.value;
  }

  predicate SameBut(a: map<nat, Message>, b: map<nat, Message>, at: nat) {
    a.Keys == b.Keys && forall i | i in a && i != at :: a[i] == b[i]
  }

  /** Whatever the revision of one message showed is overwritten when it is revised again. */
  lemma SameRevised(s: State, revised: map<nat, Message>, at: nat)
    requires at < |s.wire| && SameBut(revised, s.revised, at) && (at in revised ==> at < s.flushed)
    ensures ReviseFlushed(s.(revised := revised), at) == ReviseFlushed(s, at)
  {
    if at < s.flushed {
      assert revised[at := s.wire[at]] == s.revised[at := s.wire[at]];
    } else {
      assert revised == s.revised;
    }
  }

  class TurnWire {
    const history: seq<Row>
    const streams: bool
    var heap: Heap
    var wire: seq<WireMessage>
    var flushed: nat
    var revised: map<nat, WireMessage>
    var order: seq<nat>
    var lastMeta: Option<MetaId>
    var lastAnswer: int
    var sealed: bool
    var stored: seq<Row>
    var queued: seq<WireMessage>

    function Now(): State
      reads this
    {
      State(history, Views(heap, wire), flushed, ViewMap(heap, revised), order,
            if lastAnswer < 0 then None else Some(lastAnswer), sealed, streams, stored, Views(heap, queued))
    }

    /** Who holds the last answer's metadata: that message, wherever it is, and nothing else. */
    predicate Holders()
      reads this
    {
      && (lastMeta.None? <==> lastAnswer < 0)
      && InHeap(heap, wire) && InHeap(heap, queued) && (forall at | at in revised :: Known(heap, revised[at]))
      && (lastMeta.Some? ==>
            && lastMeta.value in heap && lastAnswer < |wire|
            && (forall i | 0 <= i < |wire| :: wire[i].meta == lastMeta <==> i == lastAnswer)
            && (forall i | 0 <= i < |queued| :: queued[i].meta == lastMeta <==> |stored| + i == lastAnswer)
            && (forall at | at in revised :: revised[at].meta == lastMeta <==> at == lastAnswer))
    }

    predicate Valid()
      reads this
    {
      Holders() && Inv(Now())
    }

    lemma RevisedInside()
      requires Valid()
      ensures forall at | at in revised :: at in Now().revised && at < flushed <= |wire|
    {
      forall at | at in revised ensures at in Now().revised && at < flushed {
        assert at in Now().revised;
      }
    }

    constructor (history: seq<Row>, missing: seq<string>, streams: bool)
      requires |missing| == |history| && HistoryIds(history)
      ensures Valid() && Now() == Start(history, missing, streams)
    {
      this.history, this.streams := history, streams;
      var carried := seq(|history|, i requires 0 <= i < |history| =>
        var m := Carry(history[i], missing[i]); WireMessage(m.kind, m.content, m.id, m.kwargs, None));
      wire, flushed, revised, order := carried, |history|, map[], [];
      heap, lastMeta, lastAnswer, sealed := map[], None, -1, false;
      stored, queued := history, [];
      new;
      StartInv(history, missing, streams);
      assert Views(heap, wire) == Start(history, missing, streams).wire;
    }

    method PushMessage(m: WireMessage)
      requires Holders() && m.meta.None?
      modifies this`wire
      ensures Holders() && wire == old(wire) + [m]
      ensures Now() == Push(old(Now()), View(heap, m))
    {
      wire := wire + [m];
      assert Views(heap, wire) == old(Views(heap, wire)) + [View(heap, m)];
    }

    method FlushMessages()
      requires Holders() && flushed <= |wire| && |stored| + |queued| == flushed
      modifies this`flushed, this`queued
      ensures Holders() && Now() == Flush(old(Now()))
    {
      if !streams || flushed == |wire| {
        assert Views(heap, wire)[flushed..] == [] || !streams;
        assert Views(heap, queued) + [] == Views(heap, queued);
        return;
      }
      queued := queued + wire[flushed..];
      flushed := |wire|;
      assert Views(heap, queued) == old(Views(heap, queued)) + Views(heap, wire)[old(flushed)..];
    }

    /** `steered` and `evaluated`. */
    method AddMessage(m: WireMessage)
      requires Valid() && m.meta.None? && Enabled(Now(), Add(View(heap, m)))
      modifies this
      ensures Valid() && Now() == Next(old(Now()), Add(View(heap, m)))
    {
      StepKeeps(Now(), Add(View(heap, m)));
      PushMessage(m);
    }

    method ResultMessage(m: WireMessage)
      requires Valid() && m.meta.None? && Enabled(Now(), Result(View(heap, m)))
      modifies this
      ensures Valid() && Now() == Next(old(Now()), Result(View(heap, m)))
    {
      StepKeeps(Now(), Result(View(heap, m)));
      PushMessage(m);
      FlushMessages();
    }

    method InsertMessage(m: WireMessage) returns (inserted: bool)
      requires Valid() && m.meta.None? && Enabled(Now(), Insert(View(heap, m)))
      modifies this
      ensures Valid() && Now() == Next(old(Now()), Insert(View(heap, m))) && inserted == !old(sealed)
    {
      StepKeeps(Now(), Insert(View(heap, m)));
      if sealed { return false; }
      PushMessage(m);
      FlushMessages();
      return true;
    }

    /** `unrecorded`, up to the wait for what is queued. */
    method SealWire()
      requires Valid() && Enabled(Now(), Seal)
      modifies this
      ensures Valid() && Now() == Next(old(Now()), Seal)
    {
      StepKeeps(Now(), Seal);
      sealed := true;
      FlushMessages();
    }

    /** Queued messages are stored, as they are when their turn comes. */
    method StoreSome(n: nat, rows: seq<Row>)
      requires Valid() && n <= |queued| && rows == RowsOf(Views(heap, queued)[..n])
      modifies this
      ensures Valid() && Now() == Next(old(Now()), Store(n))
    {
      StepKeeps(Now(), Store(n));
      MoveToStore(n, rows);
    }

    method MoveToStore(n: nat, rows: seq<Row>)
      requires Holders() && n <= |queued| && |rows| == n
      modifies this`stored, this`queued
      ensures Holders() && stored == old(stored) + rows && Views(heap, queued) == Views(heap, old(queued))[n..]
    {
      ViewsDrop(heap, queued, n);
      stored := stored + rows;
      queued := queued[n..];
    }

    /** `assistant`: a message with a metadata object of its own, which is the last from now on. */
    method AssistantMessage(content: string, id: string, kwargs: Kwargs, meta: Kwargs, own: MetaId)
      requires Valid() && own !in heap
      requires Enabled(Now(), Assistant(Message(Ai, content, id, Some(kwargs["meta" := Obj(meta)]))))
      modifies this
      ensures Valid()
      ensures Now() == Next(old(Now()), Assistant(Message(Ai, content, id, Some(kwargs["meta" := Obj(meta)]))))
    {
      StepKeeps(Now(), Assistant(Message(Ai, content, id, Some(kwargs["meta" := Obj(meta)]))));
      RevisedInside();
      NewMeta(own, meta);
      PushAnswer(WireMessage(Ai, content, id, Some(kwargs), Some(own)));
    }

    /** A metadata object that no message holds yet. */
    method NewMeta(own: MetaId, meta: Kwargs)
      requires Holders() && own !in heap
      modifies this`heap
      ensures heap == old(heap)[own := meta] && Now() == old(Now()) && Holders() && Unheld(Some(own))
    {
      ViewsElsewhere(heap, own, meta, wire);
      ViewsElsewhere(heap, own, meta, queued);
      ViewMapElsewhere(heap, own, meta, revised);
      heap := heap[own := meta];
    }

    /** The first message to hold a metadata object is the last answer from now on. */
    method PushAnswer(m: WireMessage)
      requires Holders() && flushed <= |wire| && |stored| + |queued| <= |wire|
      requires (forall at | at in revised :: at < |wire|) && m.meta.Some? && m.meta.value in heap
      requires Unheld(m.meta)
      modifies this`wire, this`lastMeta, this`lastAnswer
      ensures Holders() && Now() == Push(old(Now()), View(heap, m)).(lastAnswer := Some(|old(wire)|))
    {
      lastMeta := m.meta;
      lastAnswer := |wire|;
      wire := wire + [m];
      assert Views(heap, wire) == old(Views(heap, wire)) + [View(heap, m)];
    }

    predicate Unheld(meta: Option<MetaId>)
      reads this
    {
      && (forall i | 0 <= i < |wire| :: wire[i].meta != meta)
      && (forall i | 0 <= i < |queued| :: queued[i].meta != meta)
      && (forall at | at in revised :: revised[at].meta != meta)
    }

    /** `halt`: the steps are written into the metadata, which changes every message that holds
        it; if that one was flushed it is down for revision. */
    method HaltTurn(steps: int)
      requires Valid() && Enabled(Now(), Halt(steps))
      modifies this
      ensures Valid() && Now() == Next(old(Now()), Halt(steps))
    {
      StepKeeps(Now(), Halt(steps));
      if lastMeta.Some? {
        RevisedInside();
        ghost var counted := Counted(Now(), steps);
        WriteSteps(steps);
        SameRevised(counted, Now().revised, lastAnswer);
        ReviseAt(lastAnswer);
      }
    }

    method WriteSteps(steps: int)
      requires Valid() && lastMeta.Some?
      modifies this`heap
      ensures Holders()
      ensures Now() == Counted(old(Now()), steps).(revised := Now().revised)
      ensures SameBut(Now().revised, old(Now()).revised, lastAnswer)
    {
      WireWritten(steps);
      QueueWritten(steps);
      heap := Written(steps);
    }

    function Written(steps: int): Heap
      requires Valid() && lastMeta.Some?
      reads this
    {
      heap[lastMeta.value := heap[lastMeta.value]["steps" := Int(steps)]]
    }

    lemma WireWritten(steps: int)
      requires Valid() && lastMeta.Some?
      ensures Views(Written(steps), wire) == Counted(Now(), steps).wire
    {
      ViewWritten(heap, wire[lastAnswer], steps);
      ViewsWritten(heap, lastMeta.value, heap[lastMeta.value]["steps" := Int(steps)], wire, lastAnswer);
    }

    lemma QueueWritten(steps: int)
      requires Valid() && lastMeta.Some?
      ensures Views(Written(steps), queued) == Counted(Now(), steps).queued
    {
      var fields := heap[lastMeta.value]["steps" := Int(steps)];
      if |stored| <= lastAnswer < flushed {
        ViewWritten(heap, queued[lastAnswer - |stored|], steps);
        ViewsWritten(heap, lastMeta.value, fields, queued, lastAnswer - |stored|);
        assert AnswerRight(Now());
      } else {
        ViewsElsewhere(heap, lastMeta.value, fields, queued);
      }
    }

    /** `reviseFlushed`. */
    method ReviseAt(at: nat)
      requires Holders() && at < |wire|
      modifies this`revised, this`order
      ensures Holders() && Now() == ReviseFlushed(old(Now()), at)
    {
      if at < flushed {
        order := if at in revised then order else order + [at];
        revised := revised[at := wire[at]];
        assert ViewMap(heap, revised) == ViewMap(heap, old(revised))[at := View(heap, wire[at])];
      }
    }

    method LastHumanAt() returns (found: Option<nat>)
      ensures found == LastHuman(Now().wire)
      ensures found.Some? ==> found.value < |wire| && wire[found.value].kind.Human?
    {
      var at := |wire|;
      while at > 0 && !wire[at - 1].kind.Human?
        invariant 0 <= at <= |wire| && forall i | at <= i < |wire| :: !wire[i].kind.Human?
      {
        at := at - 1;
      }
      if at == 0 { return None; }
      LastHumanIs(Now().wire, at - 1);
      return Some(at - 1);
    }

    /** `rode`: the last human message is replaced by one that carries the text too. */
    method RodeText(text: string)
      requires Valid() && Enabled(Now(), Rode(text))
      modifies this
      ensures Valid() && Now() == Next(old(Now()), Rode(text))
    {
      StepKeeps(Now(), Rode(text));
      var found := LastHumanAt();
      if found.Some? {
        NotTheAnswer(found.value);
        ReplaceAt(found.value, Carrying(View(heap, wire[found.value]), text));
        ReviseAt(found.value);
      }
    }

    /** The last answer is an agent's message. */
    lemma NotTheAnswer(at: nat)
      requires Valid() && at < |wire| && !wire[at].kind.Ai?
      ensures at != lastAnswer
    {
      assert AnswerRight(Now());
    }

    /** A message other than the last answer is replaced by a new object. */
    method ReplaceAt(at: nat, m: Message)
      requires Holders() && at < |wire| && at != lastAnswer
      modifies this`wire
      ensures |wire| == |old(wire)| && Holders() && Now() == old(Now()).(wire := old(Now()).wire[at := m])
    {
      wire := wire[at := WireMessage(m.kind, m.content, m.id, m.kwargs, None)];
      assert Views(heap, wire) == old(Views(heap, wire))[at := m];
    }

    method UnflushedAt(entry: Entry) returns (found: Option<nat>)
      requires flushed <= |wire|
      ensures found == UnflushedOf(Now().wire, flushed, entry)
    {
      var at := |wire|;
      while at > flushed && !SameSubject(View(heap, wire[at - 1]), entry)
        invariant flushed <= at <= |wire|
        invariant forall i | at <= i < |wire| :: !SameSubject(Views(heap, wire)[i], entry)
      {
        at := at - 1;
      }
      if at == flushed { return None; }
      UnflushedIs(Views(heap, wire), flushed, entry, at - 1);
      return Some(at - 1);
    }

    /** `recordEntry`: an entry that supersedes one of its subject not yet flushed takes its
        place and its id. */
    method Record(entry: Entry, id: string)
      requires Valid() && Enabled(Now(), RecordEntry(entry, id))
      modifies this
      ensures Valid() && Now() == Next(old(Now()), RecordEntry(entry, id))
    {
      StepKeeps(Now(), RecordEntry(entry, id));
      var superseded: Option<nat> := None;
      if entry.supersedes { superseded := UnflushedAt(entry); }
      if superseded.None? {
        var m := EntryMessage(entry, id);
        PushMessage(WireMessage(m.kind, m.content, m.id, m.kwargs, None));
      } else {
        NotTheAnswer(superseded.value);
        ReplaceAt(superseded.value, EntryMessage(entry, wire[superseded.value].id));
      }
    }

    /** `record`: the revisions in the order they were made, then what was never flushed. A
        message without an id is skipped; a store that gives it a handle all the same (`refuses`)
        finds no row for it, and the refusal ends the recording. */
    method RecordTurn(refuses: bool) returns (rows: seq<Row>, refused: bool)
      requires Valid() && queued == []
      ensures refused == (refuses && Refused(Now()))
      ensures rows == if refuses then FinalRefusing(Now()) else Final(Now())
    {
      rows, refused := RevisedRows(refuses);
      if !refused { rows := rows + RowsOf(Views(heap, wire)[flushed..]); }
    }

    method RevisedRows(refuses: bool) returns (rows: seq<Row>, refused: bool)
      requires Valid() && queued == []
      ensures refused == (refuses && Refused(Now()))
      ensures rows == StoredAfter(Now(), if refuses then Cut(Now(), order) else order)
    {
      ghost var s := Now();
      rows, refused := stored, false;
      var k := 0;
      NothingDone(s);
      while k < |order|
        invariant Valid() && Now() == s && 0 <= k <= |order|
        invariant !refused && Done(s, rows, k) && (refuses ==> Unrefused(s, k))
      {
        rows, refused := NextRow(s, rows, k, refuses);
        if refused { return; }
        k := k + 1;
      }
      AllDone(s, rows, refuses);
    }

    /** One revision, or its refusal. */
    method NextRow(ghost s: State, rows: seq<Row>, k: nat, refuses: bool) returns (r: seq<Row>, refused: bool)
      requires Valid() && Now() == s && queued == [] && k < |order| && Done(s, rows, k) && (refuses ==> Unrefused(s, k))
      ensures refused ==> refuses && Refused(s) && r == StoredAfter(s, Cut(s, s.order))
      ensures !refused ==> Done(s, r, k + 1) && (refuses ==> Unrefused(s, k + 1))
    {
      refused := refuses && order[k] < |history| && history[order[k]].id.None?;
      NextRevision(s, k);
      if refused { return rows, true; }
      r := ReviseOne(s, rows, k);
    }

    /** A revision finds its row by the message's id. */
    method ReviseOne(ghost s: State, rows: seq<Row>, k: nat) returns (r: seq<Row>)
      requires Valid() && Now() == s && queued == [] && k < |order| && Done(s, rows, k)
      ensures Done(s, r, k + 1)
    {
      var at := order[k];
      InOrder(s, at);
      var id := if at < |history| then history[at].id else Some(wire[at].id);
      assert id == IdAt(s, at);
      var kwargs := View(heap, revised[at]).kwargs;
      r := rows;
      if id.Some? && kwargs.Some? {
        FoundById(s, at);
        r := ReviseById(rows, at, id.value, kwargs.value);
      }
      OneMore(s, rows, r, k);
    }

    method ReviseById(rows: seq<Row>, ghost expected: nat, id: string, kwargs: Kwargs) returns (r: seq<Row>)
      requires expected < |rows| && forall i | 0 <= i < |rows| :: rows[i].id == Some(id) <==> i == expected
      ensures r == rows[expected := Revise(rows[expected], kwargs)]
    {
      var at := 0;
      while rows[at].id != Some(id)
        invariant 0 <= at <= expected
        decreases |rows| - at
      {
        at := at + 1;
      }
      r := rows[at := Revise(rows[at], kwargs)];
    }
  }

  predicate IdKnown(s: State, at: nat) {
    at < |s.wire| && IdAt(s, at).Some?
  }

  /** The rows when the revisions up to the `k`th are made. */
  ghost predicate Done(s: State, rows: seq<Row>, k: nat) {
    k <= |s.order| && rows == StoredAfter(s, s.order[..k])
  }

  /** None of the first `k` revisions is refused. */
  ghost predicate Unrefused(s: State, k: nat) {
    && k <= |s.order| && Cut(s, s.order) == s.order[..k] + Cut(s, s.order[k..])
    && forall j | 0 <= j < k :: IdKnown(s, s.order[j])
  }

  lemma NothingDone(s: State)
    ensures Done(s, s.stored, 0) && Unrefused(s, 0)
  {
    assert s.order[..0] == [] && s.order[0..] == s.order;
  }

  lemma InOrder(s: State, at: nat)
    requires Inv(s) && at in s.order
    ensures at in s.revised && at < s.flushed <= |s.wire|
  {
  }

  lemma NextRevision(s: State, k: nat)
    requires Inv(s) && k < |s.order|
    ensures var refused := s.order[k] < |s.history| && s.history[s.order[k]].id.None?;
            Unrefused(s, k) ==> if refused then Refused(s) && Cut(s, s.order) == s.order[..k] else Unrefused(s, k + 1)
  {
    var at := s.order[k];
    InOrder(s, at);
    CutStep(s, s.order, k);
    if IdAt(s, at).None? { assert at in s.order; }
  }

  lemma AllDone(s: State, rows: seq<Row>, refuses: bool)
    requires Done(s, rows, |s.order|) && (refuses ==> Unrefused(s, |s.order|))
    ensures rows == StoredAfter(s, if refuses then Cut(s, s.order) else s.order)
    ensures refuses ==> !Refused(s)
  {
    assert s.order[..|s.order|] == s.order && s.order[|s.order|..] == [];
  }

  lemma CutStep(s: State, order: seq<nat>, k: nat)
    requires k < |order|
    ensures !IdKnown(s, order[k]) ==> Cut(s, order[k..]) == []
    ensures IdKnown(s, order[k]) ==> Cut(s, order[k..]) == [order[k]] + Cut(s, order[k + 1..])
    ensures order[..k] + ([order[k]] + Cut(s, order[k + 1..])) == order[..k + 1] + Cut(s, order[k + 1..])
  {
    assert order[k..][1..] == order[k + 1..];
    assert order[..k + 1] == order[..k] + [order[k]];
  }

  lemma OneMore(s: State, rows: seq<Row>, r: seq<Row>, k: nat)
    requires OrderRight(s) && k < |s.order| && rows == StoredAfter(s, s.order[..k])
    requires var at := s.order[k];
             if at < |s.stored| && Revises(s, at) then r == rows[at := Revise(rows[at], s.revised[at].kwargs.value)]
             else r == rows
    ensures r == StoredAfter(s, s.order[..k + 1])
  {
    var at := s.order[k];
    assert s.order[..k + 1] == s.order[..k] + [at];
    assert forall j | 0 <= j < k :: s.order[j] != at;
    assert at !in s.order[..k];
  }
}
