/** The store as an object whose tables change in place (`packages/backend/convex/repls.ts`,
    `messages.ts`, `chats.ts`): each method is one mutation. */
module CheckpointStore {
  import opened Wrappers
  import opened CheckpointLayers
  import opened CheckpointHistory

  class Store {
    var layers: map<LayerId, Layer>
    var repls: map<ReplId, Repl>
    var chats: map<ChatId, Option<ReplId>>
    var transcripts: map<ChatId, seq<Message>>
    var jobs: set<Job>

    constructor ()
      ensures Now() == EMPTY
    {
      layers, repls, chats, transcripts, jobs := map[], map[], map[], map[], {};
    }

    function Now(): DB
      reads this
    {
      DB(layers, repls, chats, transcripts, jobs)
    }

    method Open(chat: ChatId, fresh_: ReplId) returns (repl: ReplId)
      requires Enabled(Now(), OpenRepl(chat, fresh_))
      modifies this`repls, this`chats
      ensures Now() == Next(old(Now()), OpenRepl(chat, fresh_)) && chats[chat] == Some(repl)
    {
      if chats[chat].Some? { return chats[chat].value; }
      repls := repls[fresh_ := Repl(chat, None)];
      chats := chats[chat := Some(fresh_)];
      return fresh_;
    }

    /** `collect`: a loop up the parents. */
    method CollectFrom(layer: Option<LayerId>)
      modifies this`layers
      ensures Now() == Collect(old(Now()), layer)
    {
      var at := layer;
      while at.Some?
        invariant Now() == old(Now()).(layers := layers)
        invariant Collect(Now(), at) == Collect(old(Now()), layer)
        decreases |layers|, at.Some?
      {
        if at.value !in layers || Referenced(Now(), at.value) { return; }
        DeleteSmaller(Now(), at.value);
        var parent := layers[at.value].parent;
        layers := layers - {at.value};
        at := parent;
      }
    }

    method CollectAll(ids: seq<Option<LayerId>>)
      modifies this`layers
      ensures Now() == CollectEach(old(Now()), ids)
    {
      assert ids[..0] == [];
      for k := 0 to |ids|
        invariant Now() == CollectEach(old(Now()), ids[..k])
      {
        CollectFrom(ids[k]);
        assert ids[..k + 1][..k] == ids[..k];
      }
      assert ids[..|ids|] == ids;
    }

    /** The loop of `settleMessages`. */
    method SettleMessages(chat: ChatId, layer: LayerId)
      requires layer in layers
      modifies this`transcripts
      ensures Now() == old(Now()).(transcripts := transcripts)
      ensures transcripts == old(transcripts)
           || transcripts == old(transcripts)[chat := Settle(Transcript(old(Now()), chat), layers[layer].origin,
                                                             layers[layer].parent, layer)]
      ensures Transcript(Now(), chat)
           == Settle(Transcript(old(Now()), chat), layers[layer].origin, layers[layer].parent, layer)
    {
      var messages := Transcript(Now(), chat);
      if layers[layer].origin.None? { return; }
      var from := FirstWire(messages, layers[layer].origin.value);
      if from == |messages| { return; }
      ghost var start := messages;
      var at := from;
      while at < |messages| && messages[at].layer == layers[layer].parent
        invariant from <= at <= |messages| == |start|
        invariant Relabel(messages, at, layers[layer].parent, layer)
               == Relabel(start, from, layers[layer].parent, layer)
        decreases |messages| - at
      {
        messages := messages[at := messages[at].(layer := Some(layer))];
        at := at + 1;
      }
      transcripts := transcripts[chat := messages];
    }

    /** `record`, which says why it refuses. */
    method RecordOver(repl: ReplId, over: Option<LayerId>, origin: Option<WireId>, whole: bool, chunks: seq<string>,
                      id: LayerId)
      returns (refused: Option<Refusal>)
      requires id !in layers
      modifies this
      ensures refused == Refused(old(Now()), repl, over, whole)
      ensures SameTables(Now(), Next(old(Now()), Record(repl, over, origin, whole, chunks, id)))
    {
      if repl !in repls { return Some(NotFound); }
      if !whole && over != repls[repl].head { return Some(StaleHead); }
      var parent := Standing(Now(), repl);
      var depth := (if parent.Some? then layers[parent.value].depth else 0) + 1;
      layers := layers[id := Layer(repl, parent, origin, depth, whole, chunks)];
      var chat := repls[repl].chat;
      repls := repls[repl := repls[repl].(head := Some(id))];
      SettleMessages(chat, id);
      RecordedTables(old(Now()), Now(), repl, origin, whole, chunks, id);
      return None;
    }

    /** `layersOf`, then `appendTo`. */
    method AppendTo(chat: ChatId, entries: seq<(Option<WireId>, bool)>, own: seq<Option<LayerId>>)
      requires Enabled(Now(), Append(chat, entries, own))
      modifies this`transcripts
      ensures Now() == Next(old(Now()), Append(chat, entries, own))
    {
      var labels := seq(|own|, _ => None);
      var repl := ReplOf(Now(), chat);
      if repl.Some? { labels := LabelEach(own, StartLabel(Now(), repl.value, own)); }
      transcripts := transcripts[chat := Transcript(Now(), chat) + NewMessages(entries, labels)];
    }

    /** The running head of `layersOf`. */
    static method LabelEach(own: seq<Option<LayerId>>, start: Option<LayerId>) returns (labels: seq<Option<LayerId>>)
      ensures labels == Running(own, start)
    {
      var head := start;
      labels := [];
      for k := 0 to |own|
        invariant labels + Running(own[k..], head) == Running(own, start)
      {
        if own[k].Some? { head := own[k]; }
        labels := labels + [head];
        assert own[k..][1..] == own[k + 1..];
      }
    }

    method ForkFrom(chat: ChatId, at: nat, forked: ChatId, repl: ReplId) returns (made: bool)
      requires Enabled(Now(), ForkChat(chat, at, forked, repl))
      modifies this
      ensures made == Fork(old(Now()), chat, at, forked, repl).Some?
      ensures Now() == Next(old(Now()), ForkChat(chat, at, forked, repl))
    {
      var kept := Transcript(Now(), chat)[..at + 1];
      var head := LayerBefore(kept);
      if head.Some? && head.value !in layers { return false; }
      chats := chats[forked := None];
      if head.Some? {
        repls := repls[repl := Repl(forked, head)];
        chats := chats[forked := Some(repl)];
      }
      transcripts := transcripts[forked := kept];
      return true;
    }

    method DropWhole(chat: ChatId)
      requires chat in chats
      modifies this
      ensures Now() == Next(old(Now()), DropChat(chat))
    {
      var repl := ReplOf(Now(), chat);
      chats := chats - {chat};
      jobs := jobs + {PurgeMessages(chat)};
      if repl.Some? {
        jobs := jobs + {PurgeLayers(repl.value, repls[repl.value].head, None)};
        repls := repls - {repl.value};
      }
    }

    method PurgeLayersPage(job: Job, page: seq<LayerId>, done: bool)
      requires Enabled(Now(), PurgePage(job, page, done))
      modifies this
      ensures Now() == Next(old(Now()), PurgePage(job, page, done))
    {
      jobs := jobs - {job} + if done then {} else {PurgeLayers(job.repl, job.head, Some(page[|page| - 1]))};
      CollectAll(SomeEach(page));
      if done { CollectFrom(job.head); }
    }

    method PurgeMessagesBatch(chat: ChatId)
      requires Enabled(Now(), PurgeBatch(chat))
      modifies this
      ensures Now() == Next(old(Now()), PurgeBatch(chat))
    {
      var messages := Transcript(Now(), chat);
      var n := if |messages| < MESSAGE_BATCH then |messages| else MESSAGE_BATCH;
      transcripts := transcripts[chat := messages[n..]];
      if n != MESSAGE_BATCH { jobs := jobs - {PurgeMessages(chat)}; }
      CollectAll(Distinct(LayersIn(messages[..n])));
    }

    /** `latest`: the loop stops at a whole layer or a root, and never because a layer it needs
        is gone. */
    method Latest(repl: ReplId) returns (found: Option<seq<seq<string>>>)
      requires Safe(Now()) && repl in repls
      ensures found == LatestOf(Now(), repl)
    {
      HeadThere(Now(), repl);
      if repls[repl].head.None? { return None; }
      var at, chain := repls[repl].head.value, [];
      while !layers[at].whole && layers[at].parent.Some?
        invariant at in layers && Replay(Now(), at) + chain == LatestOf(Now(), repl).value
        decreases layers[at].depth
      {
        chain := [layers[at].chunks] + chain;
        at := ParentThere(at);
      }
      return Some([layers[at].chunks] + chain);
    }

    method ParentThere(l: LayerId) returns (p: LayerId)
      requires Safe(Now()) && l in layers && layers[l].parent.Some?
      ensures p == ParentOf(Now(), l)
    {
      p := layers[l].parent.value;
    }
  }

  /** Equal tables, where a chat with no messages may have an empty transcript or none. */
  lemma RecordedTables(db: DB, t: DB, repl: ReplId, origin: Option<WireId>, whole: bool, chunks: seq<string>,
                       id: LayerId)
    requires repl in db.repls && id !in db.layers
    requires var layer := RecordLayer(db, repl, origin, whole, chunks, id).layers[id];
             var chat := db.repls[repl].chat;
             var settled := Settle(Transcript(db, chat), origin, layer.parent, id);
             && t == db.(layers := db.layers[id := layer], repls := db.repls[repl := db.repls[repl].(head := Some(id))],
                         transcripts := t.transcripts)
             && (t.transcripts == db.transcripts || t.transcripts == db.transcripts[chat := settled])
             && Transcript(t, chat) == settled
    ensures SameTables(t, RecordLayer(db, repl, origin, whole, chunks, id))
  {
  }

  ghost predicate SameTables(db: DB, t: DB) {
    && db == t.(transcripts := db.transcripts)
    && forall chat :: Transcript(db, chat) == Transcript(t, chat)
  }
}
