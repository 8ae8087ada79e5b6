/** What the layer tables mean: which layers remain after any run of mutations, and what a repl
    restores from them. */
module CheckpointHistory {
  import opened Wrappers
  import opened CheckpointLayers

  // ----- what remains -----

  /** `l` is `root` or an ancestor of it. */
  ghost predicate OnChain(db: DB, root: LayerId, l: LayerId)
    requires Safe(db) && root in db.layers
    decreases db.layers[root].depth
  {
    l == root || (db.layers[root].parent.Some? && ParentOf(db, root) in db.layers && OnChain(db, ParentOf(db, root), l))
  }

  ghost function ParentOf(db: DB, l: LayerId): (p: LayerId)
    requires Safe(db) && l in db.layers && db.layers[l].parent.Some?
    ensures p in db.layers && db.layers[p].depth < db.layers[l].depth
  {
    var p := db.layers[l].parent.value;
    assert HasChild(db, p) && Referenced(db, p);
    assert DepthRight(db, l);
    p
  }

  /** A live repl's head, or the label of a live chat's message. */
  predicate Root(db: DB, l: LayerId) {
    IsHead(db, l) || IsLabel(db, l)
  }

  ghost predicate Reached(db: DB, l: LayerId)
    requires Safe(db)
  {
    exists root | root in db.layers :: (Root(db, root) || Owed(db, root)) && OnChain(db, root, l)
  }

  ghost predicate Live(db: DB, l: LayerId)
    requires Safe(db)
  {
    exists root | root in db.layers :: Root(db, root) && OnChain(db, root, l)
  }

  lemma {:induction false} ChainThere(db: DB, root: LayerId, l: LayerId)
    requires Safe(db) && root in db.layers && OnChain(db, root, l)
    ensures l in db.layers
    decreases db.layers[root].depth
  {
    if l != root { ChainThere(db, ParentOf(db, root), l); }
  }

  lemma {:induction false} ChainOn(db: DB, root: LayerId, c: LayerId, l: LayerId)
    requires Safe(db) && root in db.layers && c in db.layers && OnChain(db, root, c) && db.layers[c].parent == Some(l)
    ensures OnChain(db, root, l)
    decreases db.layers[root].depth
  {
    if c != root {
      ChainOn(db, ParentOf(db, root), c, l);
    } else {
      assert ParentOf(db, root) == l && OnChain(db, l, l);
    }
  }

  function Deeper(db: DB, l: LayerId): set<LayerId>
    requires l in db.layers
  {
    set x | x in db.layers && db.layers[x].depth > db.layers[l].depth
  }

  lemma {:induction false} LayerReached(db: DB, l: LayerId)
    requires Inv(db) && l in db.layers
    ensures Reached(db, l)
    decreases |Deeper(db, l)|
  {
    if Root(db, l) || Owed(db, l) {
      assert OnChain(db, l, l);
    } else {
      assert HasChild(db, l);
      var c :| c in db.layers && db.layers[c].parent == Some(l);
      assert DepthRight(db, c);
      assert c in Deeper(db, l) && c !in Deeper(db, c) && Deeper(db, c) <= Deeper(db, l);
      SmallerSet(Deeper(db, c), Deeper(db, l), c);
      LayerReached(db, c);
      var root :| root in db.layers && (Root(db, root) || Owed(db, root)) && OnChain(db, root, c);
      ChainOn(db, root, c, l);
    }
  }

  lemma SmallerSet(a: set<LayerId>, b: set<LayerId>, x: LayerId)
    requires a <= b && x in b && x !in a
    ensures |a| < |b|
  {
    assert a <= b - {x};
    Cardinality(a, b - {x});
  }

  lemma {:induction false} Cardinality(a: set<LayerId>, b: set<LayerId>)
    requires a <= b
    ensures |a| <= |b|
    decreases |a|
  {
    if a != {} {
      var x :| x in a;
      Cardinality(a - {x}, b - {x});
    }
  }

  // ----- every run -----

  predicate Runs(db: DB, steps: seq<Step>)
    decreases |steps|
  {
    steps == [] || (Enabled(db, steps[0]) && Runs(Next(db, steps[0]), steps[1..]))
  }

  function After(db: DB, steps: seq<Step>): DB
    requires Runs(db, steps)
    decreases |steps|
  {
    if steps == [] then db else After(Next(db, steps[0]), steps[1..])
  }

  lemma {:induction false} RunKeeps(db: DB, steps: seq<Step>)
    requires Inv(db) && Runs(db, steps)
    ensures Inv(After(db, steps))
    decreases |steps|
  {
    if steps != [] {
      StepKeeps(db, steps[0]);
      RunKeeps(Next(db, steps[0]), steps[1..]);
    }
  }

  /** After any run of mutations, whatever the interleaving of the purges' pages: everything on
      the parent chain of a live head or a live message's layer is there; everything there is on
      such a chain or on one a scheduled purge has yet to come to; and when no purge is
      scheduled, what is there is exactly what those chains need. */
  lemma LayersAreExact(steps: seq<Step>, l: LayerId)
    requires Runs(EMPTY, steps)
    ensures Inv(After(EMPTY, steps))
    ensures Live(After(EMPTY, steps), l) ==> l in After(EMPTY, steps).layers
    ensures l in After(EMPTY, steps).layers <==> Reached(After(EMPTY, steps), l)
    ensures After(EMPTY, steps).jobs == {} ==> (l in After(EMPTY, steps).layers <==> Live(After(EMPTY, steps), l))
  {
    RunKeeps(EMPTY, steps);
    var db := After(EMPTY, steps);
    if Reached(db, l) {
      var root :| root in db.layers && (Root(db, root) || Owed(db, root)) && OnChain(db, root, l);
      ChainThere(db, root, l);
    }
    if l in db.layers { LayerReached(db, l); }
    if Live(db, l) {
      var root :| root in db.layers && Root(db, root) && OnChain(db, root, l);
      assert Reached(db, l);
    }
    if Reached(db, l) && db.jobs == {} {
      var root :| root in db.layers && (Root(db, root) || Owed(db, root)) && OnChain(db, root, l);
      assert Root(db, root);
    }
  }

  // ----- one purge pass -----

  /** The purge of a repl run page by page with nothing in between. */
  predicate PassRuns(db: DB, job: Job, pages: seq<seq<LayerId>>)
    decreases |pages|
  {
    && pages != [] && Enabled(db, PurgePage(job, pages[0], |pages| == 1))
    && (|pages| > 1 ==> PassRuns(PurgeOne(db, job, pages[0], false), NextJob(job, pages[0]), pages[1..]))
  }

  function NextJob(job: Job, page: seq<LayerId>): Job
    requires job.PurgeLayers?
  {
    if page == [] then job else PurgeLayers(job.repl, job.head, Some(page[|page| - 1]))
  }

  function PassEnd(db: DB, job: Job, pages: seq<seq<LayerId>>): DB
    requires PassRuns(db, job, pages)
    decreases |pages|
  {
    if |pages| == 1 then PurgeOne(db, job, pages[0], true)
    else PassEnd(PurgeOne(db, job, pages[0], false), NextJob(job, pages[0]), pages[1..])
  }

  /** One pass leaves no layer of the repl unreferenced, whatever was left before it. */
  lemma {:induction false} PassComplete(db: DB, job: Job, pages: seq<seq<LayerId>>, l: LayerId)
    requires Safe(db) && PassRuns(db, job, pages)
    requires Unreferenced(db, l) && db.layers[l].repl == job.repl ==> Later(db, job.repl, job.cursor, l)
    ensures var t := PassEnd(db, job, pages); Unreferenced(t, l) ==> t.layers[l].repl != job.repl
    decreases |pages|
  {
    var done := |pages| == 1;
    var page := pages[0];
    var start := Reschedule(db, job, page, done);
    SameReferences(db, start);
    CollectEachKeeps(start, SomeEach(page), l);
    var t := CollectEach(start, SomeEach(page));
    if l in page {
      var i :| 0 <= i < |page| && page[i] == l;
      assert SomeEach(page)[i] == Some(l);
    }
    assert Unreferenced(t, l) ==> Unreferenced(db, l) && l !in page;
    if done {
      CollectKeeps(t, job.head, l);
    } else {
      PassComplete(t, NextJob(job, page), pages[1..], l);
    }
  }

  // ----- what a repl restores -----

  /** What `latest` reads from a head: the layers down to the last whole one, oldest first. */
  ghost function Replay(db: DB, l: LayerId): seq<seq<string>>
    requires Safe(db) && l in db.layers
    decreases db.layers[l].depth
  {
    var layer := db.layers[l];
    if layer.whole || layer.parent.None? then [layer.chunks]
    else Replay(db, ParentOf(db, l)) + [layer.chunks]
  }

  ghost function LatestOf(db: DB, repl: ReplId): Option<seq<seq<string>>>
    requires Safe(db) && repl in db.repls
  {
    HeadThere(db, repl);
    if db.repls[repl].head.None? then None else Some(Replay(db, db.repls[repl].head.value))
  }

  predicate Agree(db: DB, t: DB) {
    forall l | l in db.layers && l in t.layers :: db.layers[l] == t.layers[l]
  }

  lemma {:induction false} ReplayStays(db: DB, t: DB, l: LayerId)
    requires Safe(db) && Safe(t) && Agree(db, t) && l in db.layers && l in t.layers
    ensures Replay(t, l) == Replay(db, l)
    decreases db.layers[l].depth
  {
    if !db.layers[l].whole && db.layers[l].parent.Some? {
      assert ParentOf(db, l) == ParentOf(t, l);
      ReplayStays(db, t, ParentOf(db, l));
    }
  }

  lemma StepAgrees(db: DB, step: Step)
    requires Inv(db) && Enabled(db, step)
    ensures Agree(db, Next(db, step))
  {
    match step
    case PurgePage(job, page, done) =>
      var start := Reschedule(db, job, page, done);
      SameReferences(db, start);
      CollectEachKeeps(start, SomeEach(page), 0);
      CollectKeeps(CollectEach(start, SomeEach(page)), job.head, 0);
    case PurgeBatch(chat) => BatchAgrees(db, chat);
    case _ =>
  }

  lemma BatchAgrees(db: DB, chat: ChatId)
    requires Inv(db) && PurgeMessages(chat) in db.jobs
    ensures Without(db.(transcripts := PurgeSome(db, chat).transcripts, jobs := PurgeSome(db, chat).jobs),
                    PurgeSome(db, chat))
    ensures PurgeSome(db, chat).repls == db.repls
  {
    var messages := Transcript(db, chat);
    var n := if |messages| < MESSAGE_BATCH then |messages| else MESSAGE_BATCH;
    var start := db.(transcripts := db.transcripts[chat := messages[n..]],
                     jobs := if n == MESSAGE_BATCH then db.jobs else db.jobs - {PurgeMessages(chat)});
    BatchStart(db, start, chat, n);
    CollectEachKeeps(start, Distinct(LayersIn(messages[..n])), 0);
  }

  predicate Records(db: DB, step: Step, repl: ReplId) {
    step.Record? && step.repl == repl && repl in db.repls && (step.whole || step.over == db.repls[repl].head)
  }

  lemma HeadStays(db: DB, step: Step, repl: ReplId)
    requires Inv(db) && Enabled(db, step) && repl in db.repls && !Records(db, step, repl)
    ensures repl in Next(db, step).repls ==> Next(db, step).repls[repl] == db.repls[repl]
  {
    match step
    case PurgePage(job, page, done) =>
      var start := Reschedule(db, job, page, done);
      SameReferences(db, start);
      CollectEachKeeps(start, SomeEach(page), 0);
      CollectKeeps(CollectEach(start, SomeEach(page)), job.head, 0);
    case PurgeBatch(chat) => BatchAgrees(db, chat);
    case _ =>
  }

  /** What a live repl restores is never changed by anything but a record of its own: not by
      other repls' records or forks that share its layers, nor by any purge. */
  lemma LatestStays(db: DB, step: Step, repl: ReplId)
    requires Inv(db) && Enabled(db, step) && repl in db.repls && repl in Next(db, step).repls
    requires !Records(db, step, repl)
    ensures Safe(Next(db, step)) && LatestOf(Next(db, step), repl) == LatestOf(db, repl)
  {
    var t := Next(db, step);
    StepKeeps(db, step);
    StepAgrees(db, step);
    HeadStays(db, step, repl);
    if db.repls[repl].head.Some? {
      HeadThere(db, repl);
      HeadThere(t, repl);
      ReplayStays(db, t, db.repls[repl].head.value);
    }
  }

  /** A record adds its chunks to what the repl restores, or replaces it when it is whole. */
  lemma LatestRecorded(db: DB, step: Step, repl: ReplId)
    requires Inv(db) && Enabled(db, step) && Records(db, step, repl)
    ensures Safe(Next(db, step))
    ensures var was := LatestOf(db, repl);
            LatestOf(Next(db, step), repl) ==
              Some(if step.whole || was.None? then [step.chunks] else was.value + [step.chunks])
  {
    var t := Next(db, step);
    StepKeeps(db, step);
    StepAgrees(db, step);
    HeadThere(db, repl);
    HeadThere(t, repl);
    if db.repls[repl].head.Some? { ReplayStays(db, t, db.repls[repl].head.value); }
  }

  /** The forked chat has a repl that restores what the layer restores, or none if there is no layer. */
  ghost predicate StartsFrom(db: DB, t: DB, forked: ChatId, repl: ReplId, layer: Option<LayerId>)
    requires Safe(db) && Safe(t)
  {
    && forked in t.chats
    && if layer.None? then t.chats[forked] == None
       else
         && layer.value in db.layers && t.chats[forked] == Some(repl)
         && repl in t.repls && t.repls[repl].chat == forked && LatestOf(t, repl) == Some(Replay(db, layer.value))
  }

  /** A chat forked at a message that is no answer restores what that message's layer restores; one
      forked at an answer, what the layer of the message before it restores, or nothing if the answer
      comes first. It is never refused for want of the layer; it has the messages up to there with
      their labels, and every other chat and repl is as it was. */
  lemma ForkRestores(db: DB, chat: ChatId, at: nat, forked: ChatId, repl: ReplId)
    requires Inv(db) && Enabled(db, ForkChat(chat, at, forked, repl))
    ensures Fork(db, chat, at, forked, repl).Some? && Safe(Next(db, ForkChat(chat, at, forked, repl)))
    ensures var t, messages := Next(db, ForkChat(chat, at, forked, repl)), Transcript(db, chat);
            && (!messages[at].ai ==> StartsFrom(db, t, forked, repl, messages[at].layer))
            && (messages[at].ai && at > 0 ==> StartsFrom(db, t, forked, repl, messages[at - 1].layer))
            && (messages[at].ai && at == 0 ==> StartsFrom(db, t, forked, repl, None))
            && Transcript(t, forked) == messages[..at + 1]
            && (forall other | other != forked :: Transcript(t, other) == Transcript(db, other))
            && (forall other | other in db.chats :: other in t.chats && t.chats[other] == db.chats[other])
            && (forall other | other in db.repls :: other in t.repls && t.repls[other] == db.repls[other])
            && t.layers == db.layers
  {
    var messages := Transcript(db, chat);
    var kept := messages[..at + 1];
    var head := LayerBefore(kept);
    var t := Next(db, ForkChat(chat, at, forked, repl));
    StepKeeps(db, ForkChat(chat, at, forked, repl));
    StepAgrees(db, ForkChat(chat, at, forked, repl));
    if head.Some? {
      var i := if messages[at].ai then at - 1 else at;
      assert messages[i].layer == head;
      assert Labels(messages, head.value) && IsLabel(db, head.value) && Referenced(db, head.value);
      ReplayStays(db, t, head.value);
      HeadThere(t, repl);
    }
  }
}
