/** Checkpoint layers shared between repls, and their collector
    (`packages/backend/convex/repls.ts`, with the parts of `messages.ts` and `chats.ts` that
    label messages with layers). Each mutation is one transaction, so one step. */
module CheckpointLayers {
  import opened Wrappers

  type LayerId = nat
  type ReplId = nat
  type ChatId = nat
  type WireId = string

  const PURGE_BATCH := 64
  const MESSAGE_BATCH := 256

  datatype Layer = Layer(
    repl: ReplId,
    parent: Option<LayerId>,
    origin: Option<WireId>,
    depth: nat,
    whole: bool,
    chunks: seq<string>)

  datatype Repl = Repl(chat: ChatId, head: Option<LayerId>)

  datatype Message = Message(wire: Option<WireId>, ai: bool, layer: Option<LayerId>)

  /** A scheduled continuation: a dropped repl's layers after the cursor, then its head; or a
      dropped chat's messages. */
  datatype Job = PurgeLayers(repl: ReplId, head: Option<LayerId>, cursor: Option<LayerId>) | PurgeMessages(chat: ChatId)

  /** The tables. A dropped chat's transcript stays until its messages are purged. */
  datatype DB = DB(
    layers: map<LayerId, Layer>,
    repls: map<ReplId, Repl>,
    chats: map<ChatId, Option<ReplId>>,
    transcripts: map<ChatId, seq<Message>>,
    jobs: set<Job>)

  const EMPTY := DB(map[], map[], map[], map[], {})

  // ----- references and collection -----

  predicate HasChild(db: DB, l: LayerId) {
    exists c | c in db.layers :: db.layers[c].parent == Some(l)
  }

  predicate IsHead(db: DB, l: LayerId) {
    exists r | r in db.repls :: db.repls[r].head == Some(l)
  }

  predicate Labels(messages: seq<Message>, l: LayerId) {
    exists i | 0 <= i < |messages| :: messages[i].layer == Some(l)
  }

  function Transcript(db: DB, chat: ChatId): seq<Message> {
    if chat in db.transcripts then db.transcripts[chat] else []
  }

  predicate IsLabel(db: DB, l: LayerId) {
    exists chat | chat in db.chats :: Labels(Transcript(db, chat), l)
  }

  predicate Referenced(db: DB, l: LayerId) {
    HasChild(db, l) || IsHead(db, l) || IsLabel(db, l)
  }

  function Delete(db: DB, l: LayerId): DB {
    db.(layers := db.layers - {l})
  }

  /** `collect`: delete an unreferenced layer, then its parent, and so on. */
  function Collect(db: DB, at: Option<LayerId>): DB
    decreases |db.layers|
  {
    if at.None? || at.value !in db.layers || Referenced(db, at.value) then db
    else
      assert db.layers.Keys - {at.value} < db.layers.Keys;
      DeleteSmaller(db, at.value);
      Collect(Delete(db, at.value), db.layers[at.value].parent)
  }

  lemma DeleteSmaller(db: DB, l: LayerId)
    requires l in db.layers
    ensures |Delete(db, l).layers| < |db.layers|
  {
    assert Delete(db, l).layers.Keys == db.layers.Keys - {l};
    assert |db.layers.Keys - {l}| == |db.layers.Keys| - 1;
  }

  function CollectEach(db: DB, ids: seq<Option<LayerId>>): DB
    decreases |ids|
  {
    if ids == [] then db else Collect(CollectEach(db, ids[..|ids| - 1]), ids[|ids| - 1])
  }

  // ----- the steps -----

  datatype Step =
    | CreateChat(chat: ChatId)
    | OpenRepl(chat: ChatId, repl: ReplId)
    | ForkChat(chat: ChatId, at: nat, forked: ChatId, repl: ReplId)
    | Record(repl: ReplId, over: Option<LayerId>, origin: Option<WireId>, whole: bool, chunks: seq<string>, id: LayerId)
    | Append(chat: ChatId, entries: seq<(Option<WireId>, bool)>, own: seq<Option<LayerId>>)
    | DropChat(chat: ChatId)
    | PurgePage(job: Job, page: seq<LayerId>, done: bool)
    | PurgeBatch(chat: ChatId)

  predicate FreshChat(db: DB, chat: ChatId) {
    chat !in db.chats && Transcript(db, chat) == [] && PurgeMessages(chat) !in db.jobs
  }

  /** Layers of `repl` that the index lists after the cursor, in some fixed order. */
  predicate Later(db: DB, repl: ReplId, cursor: Option<LayerId>, l: LayerId) {
    l in db.layers && db.layers[l].repl == repl && (cursor.Some? ==> l > cursor.value)
  }

  /** What a paginated query may answer: the next layers of the repl in order, up to a batch,
      and whether they are the last. */
  predicate IsPage(db: DB, repl: ReplId, cursor: Option<LayerId>, page: seq<LayerId>, done: bool) {
    && |page| <= PURGE_BATCH
    && (!done ==> page != [])
    && (forall i | 0 <= i < |page| :: Later(db, repl, cursor, page[i]))
    && (forall i, j | 0 <= i < j < |page| :: page[i] < page[j])
    && (forall l | Later(db, repl, cursor, l) && l in db.layers :: l in page || (!done && l > page[|page| - 1]))
  }

  /** The layer of the repl that came from each entry, for entries that have one. */
  predicate IsOwn(db: DB, repl: ReplId, entry: (Option<WireId>, bool), own: Option<LayerId>) {
    match own
    case Some(l) => entry.0.Some? && l in db.layers && db.layers[l].repl == repl && db.layers[l].origin == entry.0
    case None =>
      entry.0.None? || forall l | l in db.layers :: db.layers[l].repl != repl || db.layers[l].origin != entry.0
  }

  /** The live repl of a live chat, if it has one. */
  function ReplOf(db: DB, chat: ChatId): (r: Option<ReplId>)
    requires chat in db.chats
    ensures r.Some? ==> r.value in db.repls
  {
    var repl := db.chats[chat];
    if repl.Some? && repl.value in db.repls then repl else None
  }

  predicate Enabled(db: DB, step: Step) {
    match step
    case CreateChat(chat) => FreshChat(db, chat)
    case OpenRepl(chat, repl) => chat in db.chats && repl !in db.repls
    case ForkChat(chat, at, forked, repl) =>
      chat in db.chats && at < |Transcript(db, chat)| && FreshChat(db, forked) && repl !in db.repls
    case Record(_, _, _, _, _, id) => id !in db.layers
    case Append(chat, entries, own) =>
      && chat in db.chats && |own| == |entries|
      && forall i | 0 <= i < |own| ::
           if ReplOf(db, chat).Some? then IsOwn(db, ReplOf(db, chat).value, entries[i], own[i]) else own[i].None?
    case DropChat(chat) => chat in db.chats
    case PurgePage(job, page, done) =>
      job in db.jobs && job.PurgeLayers? && IsPage(db, job.repl, job.cursor, page, done)
    case PurgeBatch(chat) => PurgeMessages(chat) in db.jobs
  }

  /** Where the messages from `origin` on start, if any message has that id. */
  function FirstWire(messages: seq<Message>, origin: WireId): (at: nat)
    ensures at <= |messages| && (at < |messages| ==> messages[at].wire == Some(origin))
    ensures forall i | 0 <= i < at :: messages[i].wire != Some(origin)
  {
    if messages == [] || messages[0].wire == Some(origin) then 0 else 1 + FirstWire(messages[1..], origin)
  }

  /** The run of messages from `at` on that carry the layer's parent carry the layer instead. */
  function Relabel(messages: seq<Message>, at: nat, parent: Option<LayerId>, l: LayerId): (r: seq<Message>)
    requires at <= |messages|
    ensures |r| == |messages|
    decreases |messages| - at
  {
    if at == |messages| || messages[at].layer != parent then messages
    else Relabel(messages[at := messages[at].(layer := Some(l))], at + 1, parent, l)
  }

  function Settle(messages: seq<Message>, origin: Option<WireId>, parent: Option<LayerId>,
                  l: LayerId): (r: seq<Message>)
    ensures |r| == |messages|
  {
    if origin.None? then messages else Relabel(messages, FirstWire(messages, origin.value), parent, l)
  }

  /** Why a record is refused, if it is. */
  datatype Refusal = NotFound | StaleHead

  function Refused(db: DB, repl: ReplId, over: Option<LayerId>, whole: bool): Option<Refusal> {
    if repl !in db.repls then Some(NotFound)
    else if !whole && over != db.repls[repl].head then Some(StaleHead)
    else None
  }

  /** The repl's head, if its layer is there. */
  function Standing(db: DB, repl: ReplId): (l: Option<LayerId>)
    requires repl in db.repls
    ensures l.Some? ==> l.value in db.layers
  {
    var head := db.repls[repl].head;
    if head.Some? && head.value in db.layers then head else None
  }

  function RecordLayer(db: DB, repl: ReplId, origin: Option<WireId>, whole: bool, chunks: seq<string>, id: LayerId): DB
    requires repl in db.repls && id !in db.layers
  {
    var parent := Standing(db, repl);
    var depth := if parent.Some? then db.layers[parent.value].depth + 1 else 1;
    var chat := db.repls[repl].chat;
    db.(layers := db.layers[id := Layer(repl, parent, origin, depth, whole, chunks)],
        repls := db.repls[repl := db.repls[repl].(head := Some(id))],
        transcripts := db.transcripts[chat := Settle(Transcript(db, chat), origin, parent, id)])
  }

  /** Each entry is labelled by its own layer, or else by that of the last entry before it that
      has one; before all of those, by the parent of the first of them, or by the head. */
  function Running(own: seq<Option<LayerId>>, head: Option<LayerId>): (r: seq<Option<LayerId>>)
    ensures |r| == |own|
  {
    if own == [] then [] else
      var now := if own[0].Some? then own[0] else head;
      [now] + Running(own[1..], now)
  }

  function FirstOwn(own: seq<Option<LayerId>>): (l: Option<LayerId>)
    ensures l.Some? ==> l in own
  {
    if own == [] then None else if own[0].Some? then own[0] else FirstOwn(own[1..])
  }

  function StartLabel(db: DB, repl: ReplId, own: seq<Option<LayerId>>): Option<LayerId>
    requires repl in db.repls
  {
    var first := FirstOwn(own);
    if first.None? then db.repls[repl].head
    else if first.value in db.layers then db.layers[first.value].parent else None
  }

  function LabelsOf(db: DB, chat: ChatId, own: seq<Option<LayerId>>): (r: seq<Option<LayerId>>)
    requires chat in db.chats
    ensures |r| == |own|
  {
    match ReplOf(db, chat)
    case None => seq(|own|, _ => None)
    case Some(repl) => Running(own, StartLabel(db, repl, own))
  }

  function NewMessages(entries: seq<(Option<WireId>, bool)>, labels: seq<Option<LayerId>>): (r: seq<Message>)
    requires |entries| == |labels|
    ensures |r| == |entries|
  {
    seq(|entries|, i requires 0 <= i < |entries| => Message(entries[i].0, entries[i].1, labels[i]))
  }

  /** The layer the fork starts from: that of the message forked at, or, for an answer, that of
      the message before it. */
  function LayerBefore(kept: seq<Message>): Option<LayerId>
    requires kept != []
  {
    if kept[|kept| - 1].ai then (if |kept| < 2 then None else kept[|kept| - 2].layer)
    else kept[|kept| - 1].layer
  }

  /** `fork`, unless the layer to start from is gone, which refuses it. */
  function Fork(db: DB, chat: ChatId, at: nat, forked: ChatId, repl: ReplId): Option<DB>
    requires Enabled(db, ForkChat(chat, at, forked, repl))
  {
    var kept := Transcript(db, chat)[..at + 1];
    var head := LayerBefore(kept);
    if head.Some? && head.value !in db.layers then None
    else
      var withRepl := if head.Some? then db.(repls := db.repls[repl := Repl(forked, head)]) else db;
      Some(withRepl.(chats := db.chats[forked := if head.Some? then Some(repl) else None],
                   transcripts := db.transcripts[forked := kept]))
  }

  function Drop(db: DB, chat: ChatId): DB
    requires chat in db.chats
  {
    var gone := db.(chats := db.chats - {chat}, jobs := db.jobs + {PurgeMessages(chat)});
    match ReplOf(db, chat)
    case None => gone
    case Some(repl) =>
      gone.(repls := db.repls - {repl}, jobs := gone.jobs + {PurgeLayers(repl, db.repls[repl].head, None)})
  }

  function SomeEach(ids: seq<LayerId>): (r: seq<Option<LayerId>>)
    ensures |r| == |ids| && forall i | 0 <= i < |ids| :: r[i] == Some(ids[i])
  {
    seq(|ids|, i requires 0 <= i < |ids| => Some(ids[i]))
  }

  /** A page that is not the last schedules the next. */
  function Reschedule(db: DB, job: Job, page: seq<LayerId>, done: bool): DB
    requires job.PurgeLayers? && (!done ==> page != [])
  {
    var onward := if done then {} else {PurgeLayers(job.repl, job.head, Some(page[|page| - 1]))};
    db.(jobs := db.jobs - {job} + onward)
  }

  function PurgeOne(db: DB, job: Job, page: seq<LayerId>, done: bool): DB
    requires job.PurgeLayers? && (!done ==> page != [])
  {
    var collected := CollectEach(Reschedule(db, job, page, done), SomeEach(page));
    if done then Collect(collected, job.head) else collected
  }

  function LayersIn(messages: seq<Message>): (r: seq<Option<LayerId>>)
    ensures |r| == |messages| && forall i | 0 <= i < |messages| :: r[i] == messages[i].layer
  {
    seq(|messages|, i requires 0 <= i < |messages| => messages[i].layer)
  }

  function Distinct(ids: seq<Option<LayerId>>): (r: seq<Option<LayerId>>)
    ensures forall id :: id in r <==> id in ids
    decreases |ids|
  {
    if ids == [] then []
    else
      var rest := Distinct(ids[..|ids| - 1]);
      assert ids == ids[..|ids| - 1] + [ids[|ids| - 1]];
      if ids[|ids| - 1] in rest then rest else rest + [ids[|ids| - 1]]
  }

  /** The first messages of a dropped chat go, and then the layers they were labelled with. */
  function PurgeSome(db: DB, chat: ChatId): DB
  {
    var messages := Transcript(db, chat);
    var n := if |messages| < MESSAGE_BATCH then |messages| else MESSAGE_BATCH;
    var jobs := if n == MESSAGE_BATCH then db.jobs else db.jobs - {PurgeMessages(chat)};
    CollectEach(db.(transcripts := db.transcripts[chat := messages[n..]], jobs := jobs),
                Distinct(LayersIn(messages[..n])))
  }

  function Next(db: DB, step: Step): DB
    requires Enabled(db, step)
  {
    match step
    case CreateChat(chat) => db.(chats := db.chats[chat := None])
    case OpenRepl(chat, repl) =>
      if db.chats[chat].Some? then db
      else db.(repls := db.repls[repl := Repl(chat, None)], chats := db.chats[chat := Some(repl)])
    case ForkChat(chat, at, forked, repl) =>
      (var made := Fork(db, chat, at, forked, repl); if made.Some? then made.value else db)
    case Record(repl, over, origin, whole, chunks, id) =>
      if Refused(db, repl, over, whole).Some? then db else RecordLayer(db, repl, origin, whole, chunks, id)
    case Append(chat, entries, own) =>
      var added := NewMessages(entries, LabelsOf(db, chat, own));
      db.(transcripts := db.transcripts[chat := Transcript(db, chat) + added])
    case DropChat(chat) => Drop(db, chat)
    case PurgePage(job, page, done) => PurgeOne(db, job, page, done)
    case PurgeBatch(chat) => PurgeSome(db, chat)
  }

  // ----- what every step keeps -----

  /** Why a layer may still be there unreferenced: a purge under way will come to it. */
  predicate OwedBy(db: DB, job: Job, l: LayerId) {
    match job
    case PurgeLayers(_, head, _) => head == Some(l)
    case PurgeMessages(chat) => Labels(Transcript(db, chat), l)
  }

  predicate Owed(db: DB, l: LayerId) {
    exists job | job in db.jobs :: OwedBy(db, job, l)
  }

  predicate DepthRight(db: DB, l: LayerId)
    requires l in db.layers
  {
    match db.layers[l].parent
    case None => db.layers[l].depth == 1
    case Some(p) => p in db.layers ==> db.layers[l].depth == db.layers[p].depth + 1
  }

  /** Whatever is referenced is there. */
  ghost predicate Safe(db: DB) {
    && (forall l {:trigger Referenced(db, l)} :: Referenced(db, l) ==> l in db.layers)
    && (forall l | l in db.layers :: DepthRight(db, l))
  }

  /** Whatever is there is referenced, or a purge under way will come to it. */
  predicate NoLeak(db: DB) {
    forall l | l in db.layers :: Referenced(db, l) || Owed(db, l)
  }

  ghost predicate Inv(db: DB) {
    Safe(db) && NoLeak(db)
  }

  predicate Unreferenced(db: DB, l: LayerId) {
    l in db.layers && !Referenced(db, l)
  }

  /** Deleting an unreferenced layer takes no reference from any layer but its parent. */
  lemma DeleteOne(db: DB, l: LayerId, x: LayerId)
    requires Unreferenced(db, l)
    ensures Referenced(Delete(db, l), x) ==> Referenced(db, x) && x != l
    ensures Referenced(db, x) ==> Referenced(Delete(db, l), x) || db.layers[l].parent == Some(x)
  {
    var t := Delete(db, l);
    if HasChild(t, x) {
      var c :| c in t.layers && t.layers[c].parent == Some(x);
      assert db.layers[c].parent == Some(x);
    }
    if HasChild(db, x) && db.layers[l].parent != Some(x) {
      var c :| c in db.layers && db.layers[c].parent == Some(x);
      assert t.layers[c].parent == Some(x);
    }
    assert IsHead(t, x) == IsHead(db, x);
    assert forall chat :: Transcript(t, chat) == Transcript(db, chat);
    assert IsLabel(t, x) == IsLabel(db, x);
  }

  predicate Without(db: DB, t: DB) {
    && t == db.(layers := t.layers)
    && forall l | l in t.layers :: l in db.layers && t.layers[l] == db.layers[l]
  }

  lemma {:induction false} CollectKeeps(db: DB, at: Option<LayerId>, x: LayerId)
    requires Safe(db)
    ensures Safe(Collect(db, at)) && Without(db, Collect(db, at))
    ensures Unreferenced(Collect(db, at), x) ==> Unreferenced(db, x) && at != Some(x)
    decreases |db.layers|
  {
    if at.Some? && at.value in db.layers && !Referenced(db, at.value) {
      var t := Delete(db, at.value);
      forall y ensures Referenced(t, y) ==> y in t.layers { DeleteOne(db, at.value, y); }
      forall l | l in t.layers ensures DepthRight(t, l) { assert DepthRight(db, l); }
      DeleteOne(db, at.value, x);
      DeleteSmaller(db, at.value);
      CollectKeeps(t, db.layers[at.value].parent, x);
    }
  }

  lemma {:induction false} CollectEachKeeps(db: DB, ids: seq<Option<LayerId>>, x: LayerId)
    requires Safe(db)
    ensures Safe(CollectEach(db, ids)) && Without(db, CollectEach(db, ids))
    ensures Unreferenced(CollectEach(db, ids), x) ==> Unreferenced(db, x) && Some(x) !in ids
    decreases |ids|
  {
    if ids != [] {
      CollectEachKeeps(db, ids[..|ids| - 1], x);
      CollectKeeps(CollectEach(db, ids[..|ids| - 1]), ids[|ids| - 1], x);
      assert ids == ids[..|ids| - 1] + [ids[|ids| - 1]];
    }
  }

  /** What a step owes of one layer: it is there if referenced, right in depth, and, if there
      and unreferenced, owed. */
  predicate RightAt(db: DB, x: LayerId) {
    && (Referenced(db, x) ==> x in db.layers)
    && (x in db.layers ==> DepthRight(db, x))
    && (Unreferenced(db, x) ==> Owed(db, x))
  }

  /** References that only grow, over the same layers, and only with layers that are there. */
  lemma GrowsAt(db: DB, t: DB, x: LayerId)
    requires RightAt(db, x) && t.layers == db.layers
    requires Referenced(db, x) ==> Referenced(t, x)
    requires Referenced(t, x) ==> x in db.layers
    requires Owed(db, x) ==> Owed(t, x)
    ensures RightAt(t, x)
  {
  }

  lemma CreateAt(db: DB, chat: ChatId, x: LayerId)
    requires RightAt(db, x) && Enabled(db, CreateChat(chat))
    ensures RightAt(Next(db, CreateChat(chat)), x)
  {
    var t := Next(db, CreateChat(chat));
    assert forall c :: Transcript(t, c) == Transcript(db, c);
    LabelsStay(db, t, x);
    assert IsHead(t, x) == IsHead(db, x) && HasChild(t, x) == HasChild(db, x);
    OwedStays(db, t, x);
    if IsLabel(t, x) {
      var c :| c in t.chats && Labels(Transcript(t, c), x);
      assert c in db.chats && IsLabel(db, x);
    }
    GrowsAt(db, t, x);
  }

  lemma LabelsStay(db: DB, t: DB, x: LayerId)
    requires forall c | c in db.chats :: c in t.chats && Transcript(t, c) == Transcript(db, c)
    ensures IsLabel(db, x) ==> IsLabel(t, x)
  {
    if IsLabel(db, x) {
      var c :| c in db.chats && Labels(Transcript(db, c), x);
      assert Labels(Transcript(t, c), x);
    }
  }

  lemma OwedStays(db: DB, t: DB, x: LayerId)
    requires db.jobs <= t.jobs
    requires forall c | PurgeMessages(c) in db.jobs :: Labels(Transcript(db, c), x) ==> Labels(Transcript(t, c), x)
    ensures Owed(db, x) ==> Owed(t, x)
  {
    if Owed(db, x) {
      var job :| job in db.jobs && OwedBy(db, job, x);
      assert OwedBy(t, job, x);
    }
  }

  lemma OpenAt(db: DB, chat: ChatId, repl: ReplId, x: LayerId)
    requires RightAt(db, x) && Enabled(db, OpenRepl(chat, repl))
    ensures RightAt(Next(db, OpenRepl(chat, repl)), x)
  {
    var t := Next(db, OpenRepl(chat, repl));
    if db.chats[chat].None? {
      HeadsWith(db, t, repl, x);
      LabelsStay(db, t, x);
      LabelsStay(t, db, x);
      OwedStays(db, t, x);
      assert HasChild(t, x) == HasChild(db, x);
      GrowsAt(db, t, x);
    }
  }

  /** A new repl refers to its head and to nothing else. */
  lemma HeadsWith(db: DB, t: DB, repl: ReplId, x: LayerId)
    requires repl in t.repls && t.repls == db.repls[repl := t.repls[repl]]
    ensures repl !in db.repls ==> (IsHead(t, x) <==> IsHead(db, x) || t.repls[repl].head == Some(x))
    ensures IsHead(t, x) ==> IsHead(db, x) || t.repls[repl].head == Some(x)
    ensures IsHead(db, x) ==> IsHead(t, x) || (repl in db.repls && db.repls[repl].head == Some(x))
  {
    if IsHead(db, x) {
      var r :| r in db.repls && db.repls[r].head == Some(x);
      assert r != repl ==> t.repls[r].head == Some(x);
    }
    if IsHead(t, x) {
      var r :| r in t.repls && t.repls[r].head == Some(x);
      assert r != repl ==> db.repls[r].head == Some(x);
    }
    assert t.repls[repl].head == Some(x) ==> IsHead(t, x);
  }

  /** One chat's transcript changes. */
  lemma LabelsWith(db: DB, t: DB, chat: ChatId, x: LayerId)
    requires t.chats.Keys == db.chats.Keys + {chat}
    requires forall c | c != chat :: Transcript(t, c) == Transcript(db, c)
    ensures IsLabel(t, x) ==> IsLabel(db, x) || Labels(Transcript(t, chat), x)
    ensures IsLabel(db, x) ==> IsLabel(t, x) || (chat in db.chats && Labels(Transcript(db, chat), x))
    ensures Labels(Transcript(t, chat), x) ==> IsLabel(t, x)
  {
    if IsLabel(t, x) {
      var c :| c in t.chats && Labels(Transcript(t, c), x);
      assert c != chat ==> c in db.chats && Labels(Transcript(db, c), x);
    }
    if IsLabel(db, x) {
      var c :| c in db.chats && Labels(Transcript(db, c), x);
      assert c != chat ==> c in t.chats && Labels(Transcript(t, c), x);
    }
    assert chat in t.chats;
  }

  lemma ForkAt(db: DB, chat: ChatId, at: nat, forked: ChatId, repl: ReplId, x: LayerId)
    requires RightAt(db, x) && Enabled(db, ForkChat(chat, at, forked, repl))
    ensures RightAt(Next(db, ForkChat(chat, at, forked, repl)), x)
  {
    var made := Fork(db, chat, at, forked, repl);
    if made.Some? {
      var t, kept := made.value, Transcript(db, chat)[..at + 1];
      assert Transcript(t, forked) == kept;
      LabelsWith(db, t, forked, x);
      if Labels(kept, x) {
        var i :| 0 <= i < |kept| && kept[i].layer == Some(x);
        assert Transcript(db, chat)[i].layer == Some(x);
      }
      if repl in t.repls { HeadsWith(db, t, repl, x); }
      assert HasChild(t, x) == HasChild(db, x);
      OwedStays(db, t, x);
      GrowsAt(db, t, x);
    }
  }

  lemma {:induction false} RelabelLabels(messages: seq<Message>, at: nat, parent: Option<LayerId>, l: LayerId,
                                         x: LayerId)
    requires at <= |messages|
    ensures Labels(Relabel(messages, at, parent, l), x) ==> Labels(messages, x) || x == l
    ensures Labels(messages, x) ==> Labels(Relabel(messages, at, parent, l), x) || parent == Some(x)
    decreases |messages| - at
  {
    if at < |messages| && messages[at].layer == parent {
      var one := messages[at := messages[at].(layer := Some(l))];
      if Labels(one, x) && x != l {
        var i :| 0 <= i < |one| && one[i].layer == Some(x);
        assert messages[i].layer == Some(x);
      }
      if Labels(messages, x) && parent != Some(x) {
        var i :| 0 <= i < |messages| && messages[i].layer == Some(x);
        assert one[i].layer == Some(x);
      }
      RelabelLabels(one, at + 1, parent, l, x);
    }
  }

  lemma SettleLabels(messages: seq<Message>, origin: Option<WireId>, parent: Option<LayerId>, l: LayerId, x: LayerId)
    ensures var settled := Settle(messages, origin, parent, l);
            && (Labels(settled, x) ==> Labels(messages, x) || x == l)
            && (Labels(messages, x) ==> Labels(settled, x) || parent == Some(x))
  {
    if origin.Some? { RelabelLabels(messages, FirstWire(messages, origin.value), parent, l, x); }
  }

  lemma RecordAt(db: DB, repl: ReplId, origin: Option<WireId>, whole: bool, chunks: seq<string>, id: LayerId,
                 x: LayerId)
    requires Inv(db) && repl in db.repls && id !in db.layers
    ensures RightAt(RecordLayer(db, repl, origin, whole, chunks, id), x)
  {
    var t := RecordLayer(db, repl, origin, whole, chunks, id);
    RecordReferences(db, repl, origin, whole, chunks, id, x);
    if x in t.layers { RecordDepth(db, t, id, x); }
    assert t.repls[repl].head == Some(id);
    assert IsHead(t, id) && Referenced(t, id);
    if x in db.layers && Owed(db, x) && Standing(db, repl) != Some(x) {
      RecordOwed(db, repl, origin, whole, chunks, id, x);
    }
  }

  lemma RecordOwed(db: DB, repl: ReplId, origin: Option<WireId>, whole: bool, chunks: seq<string>, id: LayerId,
                   x: LayerId)
    requires repl in db.repls && id !in db.layers && Owed(db, x) && Standing(db, repl) != Some(x)
    ensures Owed(RecordLayer(db, repl, origin, whole, chunks, id), x)
  {
    var job :| job in db.jobs && OwedBy(db, job, x);
    SettleLabels(Transcript(db, db.repls[repl].chat), origin, Standing(db, repl), id, x);
    assert OwedBy(RecordLayer(db, repl, origin, whole, chunks, id), job, x);
  }

  lemma RecordDepth(db: DB, t: DB, id: LayerId, x: LayerId)
    requires Safe(db) && id !in db.layers && id in t.layers && t.layers == db.layers[id := t.layers[id]]
    requires x in t.layers
    requires DepthRight(t, id)
    ensures DepthRight(t, x)
  {
    if x != id {
      assert DepthRight(db, x);
      if db.layers[x].parent.Some? {
        assert HasChild(db, db.layers[x].parent.value);
        assert Referenced(db, db.layers[x].parent.value);
      }
    }
  }

  lemma HeadThere(db: DB, repl: ReplId)
    requires Safe(db) && repl in db.repls
    ensures Standing(db, repl) == db.repls[repl].head
  {
    if db.repls[repl].head.Some? {
      assert IsHead(db, db.repls[repl].head.value);
      assert Referenced(db, db.repls[repl].head.value);
    }
  }

  lemma RecordReferences(db: DB, repl: ReplId, origin: Option<WireId>, whole: bool, chunks: seq<string>, id: LayerId,
                         x: LayerId)
    requires Safe(db) && repl in db.repls && id !in db.layers
    ensures var t := RecordLayer(db, repl, origin, whole, chunks, id);
            && (Referenced(t, x) ==> Referenced(db, x) || x == id)
            && (Referenced(db, x) || Standing(db, repl) == Some(x) ==> Referenced(t, x))
  {
    var t, parent, chat := RecordLayer(db, repl, origin, whole, chunks, id), Standing(db, repl), db.repls[repl].chat;
    HeadThere(db, repl);
    HeadsWith(db, t, repl, x);
    SettleLabels(Transcript(db, chat), origin, parent, id, x);
    if parent == Some(x) { assert t.layers[id].parent == Some(x) && IsHead(db, x); }
    RecordChildren(db, t, id, x);
    if chat in db.chats {
      LabelsWith(db, t, chat, x);
      if Labels(Transcript(db, chat), x) { assert IsLabel(db, x); }
    } else {
      LabelsStay(db, t, x);
      LabelsStay(t, db, x);
    }
  }

  lemma RecordChildren(db: DB, t: DB, id: LayerId, x: LayerId)
    requires id !in db.layers && id in t.layers && t.layers == db.layers[id := t.layers[id]]
    ensures HasChild(t, x) <==> HasChild(db, x) || t.layers[id].parent == Some(x)
  {
    if HasChild(db, x) {
      var c :| c in db.layers && db.layers[c].parent == Some(x);
      assert t.layers[c].parent == Some(x);
    }
    if HasChild(t, x) {
      var c :| c in t.layers && t.layers[c].parent == Some(x);
      assert c != id ==> db.layers[c].parent == Some(x);
    }
    assert t.layers[id].parent == Some(x) ==> HasChild(t, x);
  }

  lemma {:induction false} RunningFrom(own: seq<Option<LayerId>>, head: Option<LayerId>, x: LayerId)
    ensures Some(x) in Running(own, head) ==> Some(x) in own || head == Some(x)
  {
    if own != [] {
      var now := if own[0].Some? then own[0] else head;
      RunningFrom(own[1..], now, x);
      assert own == [own[0]] + own[1..];
    }
  }

  /** Every label given to an appended message names a layer that is there. */
  lemma LabelsThere(db: DB, chat: ChatId, entries: seq<(Option<WireId>, bool)>, own: seq<Option<LayerId>>, x: LayerId)
    requires Safe(db) && Enabled(db, Append(chat, entries, own)) && Some(x) in LabelsOf(db, chat, own)
    ensures x in db.layers
  {
    var repl := ReplOf(db, chat).value;
    var head := StartLabel(db, repl, own);
    RunningFrom(own, head, x);
    if Some(x) !in own {
      var first := FirstOwn(own);
      if first.None? {
        HeadThere(db, repl);
      } else {
        assert db.layers[first.value].parent == Some(x);
        assert HasChild(db, x) && Referenced(db, x);
      }
    }
  }

  lemma LabelsJoin(before: seq<Message>, entries: seq<(Option<WireId>, bool)>, labels: seq<Option<LayerId>>, x: LayerId)
    requires |entries| == |labels|
    ensures Labels(before, x) ==> Labels(before + NewMessages(entries, labels), x)
    ensures Labels(before + NewMessages(entries, labels), x) ==> Labels(before, x) || Some(x) in labels
  {
    var after := before + NewMessages(entries, labels);
    if Labels(before, x) {
      var i :| 0 <= i < |before| && before[i].layer == Some(x);
      assert after[i].layer == Some(x);
    }
    if Labels(after, x) {
      var i :| 0 <= i < |after| && after[i].layer == Some(x);
      if i < |before| { assert before[i].layer == Some(x); } else { assert labels[i - |before|] == Some(x); }
    }
  }

  lemma AppendAt(db: DB, chat: ChatId, entries: seq<(Option<WireId>, bool)>, own: seq<Option<LayerId>>, x: LayerId)
    requires Inv(db) && Enabled(db, Append(chat, entries, own))
    ensures RightAt(Next(db, Append(chat, entries, own)), x)
  {
    var t := Next(db, Append(chat, entries, own));
    var labels := LabelsOf(db, chat, own);
    var before, after := Transcript(db, chat), Transcript(t, chat);
    assert after == before + NewMessages(entries, labels);
    LabelsWith(db, t, chat, x);
    LabelsJoin(before, entries, labels, x);
    if Some(x) in labels { LabelsThere(db, chat, entries, own, x); }
    if Labels(before, x) { assert IsLabel(db, x); }
    assert IsHead(t, x) == IsHead(db, x) && HasChild(t, x) == HasChild(db, x);
    OwedStays(db, t, x);
    assert RightAt(db, x);
    GrowsAt(db, t, x);
  }

  lemma DropAt(db: DB, chat: ChatId, x: LayerId)
    requires Inv(db) && chat in db.chats
    ensures RightAt(Drop(db, chat), x)
  {
    var t := Drop(db, chat);
    assert HasChild(t, x) == HasChild(db, x);
    OwedStays(db, t, x);
    if IsLabel(db, x) {
      var c :| c in db.chats && Labels(Transcript(db, c), x);
      if c == chat {
        assert OwedBy(t, PurgeMessages(chat), x);
      } else {
        assert c in t.chats && Labels(Transcript(t, c), x);
      }
    }
    LabelsStay(t, db, x);
    var repl := ReplOf(db, chat);
    if IsHead(db, x) {
      var r :| r in db.repls && db.repls[r].head == Some(x);
      if repl == Some(r) {
        assert OwedBy(t, PurgeLayers(r, Some(x), None), x);
      } else {
        assert r in t.repls && t.repls[r].head == Some(x);
      }
    }
    if IsHead(t, x) {
      var r :| r in t.repls && t.repls[r].head == Some(x);
      assert db.repls[r].head == Some(x);
    }
    assert Referenced(t, x) ==> Referenced(db, x);
    assert x in db.layers ==> DepthRight(db, x) && DepthRight(t, x);
  }

  /** Collecting after some references were given up or are owed elsewhere. */
  lemma CollectedAt(db: DB, t: DB, x: LayerId)
    requires Safe(t) && Without(db, t) && (Unreferenced(t, x) ==> Owed(db, x))
    ensures RightAt(t, x)
  {
    if Unreferenced(t, x) {
      var job :| job in db.jobs && OwedBy(db, job, x);
      assert OwedBy(t, job, x);
    }
  }

  lemma StillOwed(db: DB, job: Job, page: seq<LayerId>, done: bool, x: LayerId)
    requires Enabled(db, PurgePage(job, page, done)) && Owed(db, x) && (done ==> job.head != Some(x))
    ensures Owed(Reschedule(db, job, page, done), x)
  {
    var start := Reschedule(db, job, page, done);
    var owing :| owing in db.jobs && OwedBy(db, owing, x);
    if owing != job {
      assert owing in start.jobs && OwedBy(start, owing, x);
    } else {
      assert OwedBy(start, PurgeLayers(job.repl, job.head, Some(page[|page| - 1])), x);
    }
  }

  lemma PageAt(db: DB, job: Job, page: seq<LayerId>, done: bool, x: LayerId)
    requires Inv(db) && Enabled(db, PurgePage(job, page, done))
    ensures RightAt(PurgeOne(db, job, page, done), x)
  {
    var start := Reschedule(db, job, page, done);
    SameReferences(db, start);
    CollectEachKeeps(start, SomeEach(page), x);
    var t := CollectEach(start, SomeEach(page));
    if done { CollectKeeps(t, job.head, x); }
    var end := PurgeOne(db, job, page, done);
    if Unreferenced(end, x) {
      assert Unreferenced(start, x) && Referenced(start, x) == Referenced(db, x);
      StillOwed(db, job, page, done, x);
    }
    CollectedAt(start, end, x);
  }

  /** What is referenced does not depend on what is scheduled. */
  lemma SameReferences(db: DB, t: DB)
    requires Safe(db) && t == db.(jobs := t.jobs)
    ensures Safe(t) && forall l {:trigger Referenced(t, l)} :: Referenced(t, l) == Referenced(db, l)
  {
    forall l ensures Referenced(t, l) == Referenced(db, l) {
      assert HasChild(t, l) == HasChild(db, l) && IsHead(t, l) == IsHead(db, l);
      LabelsStay(db, t, l);
      LabelsStay(t, db, l);
    }
    forall l | l in t.layers ensures DepthRight(t, l) { assert DepthRight(db, l); }
  }

  lemma LabelsSplit(messages: seq<Message>, n: nat, x: LayerId)
    requires n <= |messages|
    ensures Labels(messages, x) <==> Some(x) in LayersIn(messages[..n]) || Labels(messages[n..], x)
  {
    if Labels(messages, x) {
      var i :| 0 <= i < |messages| && messages[i].layer == Some(x);
      if i < n {
        assert LayersIn(messages[..n])[i] == Some(x);
      } else {
        assert messages[n..][i - n].layer == Some(x);
      }
    }
    if Labels(messages[n..], x) {
      var i :| 0 <= i < |messages[n..]| && messages[n..][i].layer == Some(x);
      assert messages[n + i].layer == Some(x);
    }
    if Some(x) in LayersIn(messages[..n]) {
      var i :| 0 <= i < n && LayersIn(messages[..n])[i] == Some(x);
      assert messages[i].layer == Some(x);
    }
  }

  lemma BatchStart(db: DB, start: DB, chat: ChatId, n: nat)
    requires Safe(db) && n <= |Transcript(db, chat)|
    requires start == db.(transcripts := db.transcripts[chat := Transcript(db, chat)[n..]], jobs := start.jobs)
    ensures Safe(start)
  {
    forall y ensures Referenced(start, y) ==> Referenced(db, y) { BatchReferences(db, start, chat, n, y); }
    forall l | l in start.layers ensures DepthRight(start, l) { assert DepthRight(db, l); }
  }

  lemma BatchAt(db: DB, chat: ChatId, x: LayerId)
    requires Inv(db) && PurgeMessages(chat) in db.jobs
    ensures RightAt(PurgeSome(db, chat), x)
  {
    var messages := Transcript(db, chat);
    var n := if |messages| < MESSAGE_BATCH then |messages| else MESSAGE_BATCH;
    var ids := Distinct(LayersIn(messages[..n]));
    var start := db.(transcripts := db.transcripts[chat := messages[n..]],
                     jobs := if n == MESSAGE_BATCH then db.jobs else db.jobs - {PurgeMessages(chat)});
    BatchStart(db, start, chat, n);
    CollectEachKeeps(start, ids, x);
    var end := CollectEach(start, ids);
    if Unreferenced(end, x) {
      assert Some(x) !in LayersIn(messages[..n]);
      BatchReferences(db, start, chat, n, x);
      var owing :| owing in db.jobs && OwedBy(db, owing, x);
      LabelsSplit(messages, n, x);
      assert Transcript(start, chat) == messages[n..];
      assert owing in start.jobs && OwedBy(start, owing, x);
    }
    CollectedAt(start, end, x);
  }

  lemma BatchReferences(db: DB, start: DB, chat: ChatId, n: nat, x: LayerId)
    requires n <= |Transcript(db, chat)|
    requires start == db.(transcripts := db.transcripts[chat := Transcript(db, chat)[n..]], jobs := start.jobs)
    ensures Referenced(start, x) ==> Referenced(db, x)
    ensures Referenced(db, x) ==> Referenced(start, x) || Some(x) in LayersIn(Transcript(db, chat)[..n])
  {
    assert HasChild(start, x) == HasChild(db, x) && IsHead(start, x) == IsHead(db, x);
    assert Transcript(start, chat) == Transcript(db, chat)[n..];
    LabelsSplit(Transcript(db, chat), n, x);
    if chat in db.chats {
      LabelsWith(db, start, chat, x);
    } else {
      LabelsStay(db, start, x);
      LabelsStay(start, db, x);
    }
  }

  /** Every mutation keeps both halves: nothing referenced is deleted, and nothing unreferenced
      is forgotten. */
  lemma StepKeeps(db: DB, step: Step)
    requires Inv(db) && Enabled(db, step)
    ensures Inv(Next(db, step))
  {
    var t := Next(db, step);
    forall x ensures RightAt(t, x) {
      assert RightAt(db, x);
      match step
      case CreateChat(chat) => CreateAt(db, chat, x);
      case OpenRepl(chat, repl) => OpenAt(db, chat, repl, x);
      case ForkChat(chat, at, forked, repl) => ForkAt(db, chat, at, forked, repl, x);
      case Record(repl, over, origin, whole, chunks, id) =>
        if Refused(db, repl, over, whole).None? { RecordAt(db, repl, origin, whole, chunks, id, x); }
      case Append(chat, entries, own) => AppendAt(db, chat, entries, own, x);
      case DropChat(chat) => DropAt(db, chat, x);
      case PurgePage(job, page, done) => PageAt(db, job, page, done, x);
      case PurgeBatch(chat) => BatchAt(db, chat, x);
    }
    forall x ensures Referenced(t, x) ==> x in t.layers { assert RightAt(t, x); }
    forall x | x in t.layers ensures DepthRight(t, x) && (Referenced(t, x) || Owed(t, x)) { assert RightAt(t, x); }
  }
}
