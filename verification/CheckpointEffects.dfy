/** What each mutation of the checkpoint tables does to the labels of messages and to the chats, said
    message by message (`packages/backend/convex/messages.ts`, `packages/backend/convex/repls.ts`,
    `packages/backend/convex/chats.ts`). */
module CheckpointEffects {
  import opened Wrappers
  import opened CheckpointLayers
  import opened CheckpointHistory

  // ----- appended messages -----

  /** The last entry up to `i` that has a layer of its own. */
  predicate LastOwn(own: seq<Option<LayerId>>, i: nat, j: nat) {
    j <= i < |own| && own[j].Some? && forall k | j < k <= i :: own[k].None?
  }

  predicate FirstAt(own: seq<Option<LayerId>>, j: nat) {
    j < |own| && own[j].Some? && forall k | 0 <= k < j :: own[k].None?
  }

  predicate NoneOwn(own: seq<Option<LayerId>>, i: nat) {
    i < |own| && forall k | 0 <= k <= i :: own[k].None?
  }

  lemma {:induction false} RunningAt(own: seq<Option<LayerId>>, head: Option<LayerId>, i: nat, j: nat)
    requires i < |own|
    ensures LastOwn(own, i, j) ==> Running(own, head)[i] == own[j]
    ensures NoneOwn(own, i) ==> Running(own, head)[i] == head
    decreases i
  {
    if i > 0 {
      var now := if own[0].Some? then own[0] else head;
      if LastOwn(own, i, j) {
        if j > 0 { RunningAt(own[1..], now, i - 1, j - 1); } else { RunningAt(own[1..], now, i - 1, 0); }
      } else if NoneOwn(own, i) {
        RunningAt(own[1..], now, i - 1, 0);
      }
    }
  }

  lemma {:induction false} FirstOwnAt(own: seq<Option<LayerId>>, j: nat)
    ensures FirstAt(own, j) ==> FirstOwn(own) == own[j]
    ensures (forall k | 0 <= k < |own| :: own[k].None?) ==> FirstOwn(own) == None
    decreases |own|
  {
    if own != [] && own[0].None? { FirstOwnAt(own[1..], if j > 0 then j - 1 else 0); }
  }

  /** A message appended with a layer of its own carries it; one without, that of the last message
      before it that has one; before all of those, the layer the first of them was recorded over, and
      if none has one, the head of the chat's repl. A chat without a repl labels nothing. What was
      there stays as it was. */
  lemma AppendLabels(db: DB, chat: ChatId, entries: seq<(Option<WireId>, bool)>, own: seq<Option<LayerId>>, i: nat,
                     j: nat, first: nat)
    requires Enabled(db, Append(chat, entries, own)) && i < |entries|
    ensures var t, was := Next(db, Append(chat, entries, own)), Transcript(db, chat);
            var now := Transcript(t, chat);
            && |now| == |was| + |entries| && now[..|was|] == was
            && now[|was| + i].wire == entries[i].0 && now[|was| + i].ai == entries[i].1
            && (ReplOf(db, chat).None? ==> now[|was| + i].layer == None)
            && (ReplOf(db, chat).Some? ==>
                  && (LastOwn(own, i, j) ==> now[|was| + i].layer == own[j])
                  && (NoneOwn(own, i) && FirstAt(own, first) ==>
                        now[|was| + i].layer == db.layers[own[first].value].parent)
                  && (NoneOwn(own, |own| - 1) ==> now[|was| + i].layer == db.repls[ReplOf(db, chat).value].head))
  {
    FirstOwnAt(own, first);
    if ReplOf(db, chat).Some? {
      var start := StartLabel(db, ReplOf(db, chat).value, own);
      RunningAt(own, start, i, j);
      if FirstAt(own, first) { assert IsOwn(db, ReplOf(db, chat).value, entries[first], own[first]); }
    }
  }

  // ----- messages settled by a record -----

  /** The messages from the first one with that id on, as long as they carry the layer recorded over. */
  predicate RunOf(messages: seq<Message>, origin: Option<WireId>, parent: Option<LayerId>, at: nat, end: nat) {
    && at <= end <= |messages|
    && (origin.None? ==> at == end)
    && (origin.Some? ==>
          && (forall k | 0 <= k < at :: messages[k].wire != origin)
          && (at < |messages| ==> messages[at].wire == origin))
    && (forall k | at <= k < end :: messages[k].layer == parent)
    && (origin.Some? && end < |messages| ==> messages[end].layer != parent)
  }

  lemma {:induction false} RelabelRun(messages: seq<Message>, at: nat, parent: Option<LayerId>, l: LayerId)
    returns (end: nat)
    requires at <= |messages|
    ensures at <= end <= |messages| && (forall k | at <= k < end :: messages[k].layer == parent)
    ensures end < |messages| ==> messages[end].layer != parent
    ensures forall k | 0 <= k < |messages| ::
              Relabel(messages, at, parent, l)[k] ==
                if at <= k < end then messages[k].(layer := Some(l)) else messages[k]
    decreases |messages| - at
  {
    if at == |messages| || messages[at].layer != parent {
      end := at;
    } else {
      var next := messages[at := messages[at].(layer := Some(l))];
      end := RelabelRun(next, at + 1, parent, l);
      forall k | 0 <= k < |messages|
        ensures Relabel(messages, at, parent, l)[k] ==
                  if at <= k < end then messages[k].(layer := Some(l)) else messages[k]
      {
        if k != at { assert next[k] == messages[k]; }
      }
      assert forall k | at < k < end :: next[k] == messages[k];
    }
  }

  /** A record that is not refused makes a layer over the repl's head, which becomes the head, and
      gives it to the messages that waited for it: the run, from the first with its origin on, of those
      that carry the layer recorded over. Every other message, chat and repl is as it was. */
  lemma RecordLabels(db: DB, repl: ReplId, over: Option<LayerId>, origin: Option<WireId>, whole: bool,
                     chunks: seq<string>, id: LayerId) returns (at: nat, end: nat)
    requires Inv(db) && Enabled(db, Record(repl, over, origin, whole, chunks, id))
    requires repl in db.repls && (whole || over == db.repls[repl].head)
    ensures var t := Next(db, Record(repl, over, origin, whole, chunks, id));
            var parent, chat := db.repls[repl].head, db.repls[repl].chat;
            var was, now := Transcript(db, chat), Transcript(t, chat);
            && id in t.layers && t.layers == db.layers[id := t.layers[id]]
            && t.layers[id].repl == repl && t.layers[id].parent == parent && t.layers[id].origin == origin
            && t.layers[id].whole == whole && t.layers[id].chunks == chunks
            && t.repls == db.repls[repl := Repl(chat, Some(id))] && t.chats == db.chats && t.jobs == db.jobs
            && RunOf(was, origin, parent, at, end) && |now| == |was|
            && (forall k | 0 <= k < |was| :: now[k] == if at <= k < end then was[k].(layer := Some(id)) else was[k])
            && (forall other | other != chat :: Transcript(t, other) == Transcript(db, other))
  {
    var parent, chat := db.repls[repl].head, db.repls[repl].chat;
    if parent.Some? { assert IsHead(db, parent.value) && Referenced(db, parent.value); }
    assert Standing(db, repl) == parent;
    var was := Transcript(db, chat);
    if origin.Some? {
      at := FirstWire(was, origin.value);
      end := RelabelRun(was, at, parent, id);
    } else {
      at, end := 0, 0;
    }
  }

  /** A record of an unknown repl, or over a head that is not the repl's unless it is whole, changes
      nothing, and no other is refused. */
  lemma RecordRefused(db: DB, repl: ReplId, over: Option<LayerId>, origin: Option<WireId>, whole: bool,
                      chunks: seq<string>, id: LayerId)
    requires Enabled(db, Record(repl, over, origin, whole, chunks, id))
    ensures Next(db, Record(repl, over, origin, whole, chunks, id)) == db
       <==> repl !in db.repls || (!whole && over != db.repls[repl].head)
  {
    if repl in db.repls && (whole || over == db.repls[repl].head) {
      assert id in Next(db, Record(repl, over, origin, whole, chunks, id)).layers;
    }
  }

  // ----- chats and their purges -----

  /** A new chat has no repl; opening gives it one, empty, unless it has one. */
  lemma Opened(db: DB, chat: ChatId, repl: ReplId)
    requires Enabled(db, OpenRepl(chat, repl))
    ensures var t := Next(db, OpenRepl(chat, repl));
            && (db.chats[chat].Some? ==> t == db)
            && (db.chats[chat].None? ==>
                  && t.chats[chat] == Some(repl) && t.repls == db.repls[repl := Repl(chat, None)]
                  && ReplOf(t, chat) == Some(repl) && t.layers == db.layers && t.transcripts == db.transcripts)
  {
  }

  /** Dropping takes the chat and its repl away at once, and leaves its messages and layers to purges
      that are scheduled. */
  lemma Dropped(db: DB, chat: ChatId)
    requires Enabled(db, DropChat(chat))
    ensures var t := Next(db, DropChat(chat));
            && t.chats == db.chats - {chat} && t.layers == db.layers && t.transcripts == db.transcripts
            && PurgeMessages(chat) in t.jobs && db.jobs <= t.jobs
            && match ReplOf(db, chat)
               case None => t.repls == db.repls
               case Some(repl) =>
                 t.repls == db.repls - {repl} && PurgeLayers(repl, db.repls[repl].head, None) in t.jobs
  {
  }

  /** A batch takes the first messages of a dropped chat, and is scheduled again unless it was not full. */
  lemma BatchTakes(db: DB, chat: ChatId)
    requires Inv(db) && Enabled(db, PurgeBatch(chat))
    ensures var t, was := Next(db, PurgeBatch(chat)), Transcript(db, chat);
            && Transcript(t, chat) == (if |was| < 256 then [] else was[256..])
            && (PurgeMessages(chat) in t.jobs <==> |was| >= 256)
            && (forall other | other != chat :: Transcript(t, other) == Transcript(db, other))
            && t.chats == db.chats && t.repls == db.repls
  {
    var was := Transcript(db, chat);
    var n := if |was| < 256 then |was| else 256;
    var start := db.(transcripts := db.transcripts[chat := was[n..]],
                     jobs := if n == 256 then db.jobs else db.jobs - {PurgeMessages(chat)});
    BatchStart(db, start, chat, n);
    CollectEachKeeps(start, Distinct(LayersIn(was[..n])), 0);
  }
}
