/** `extract` and `implant`: moving the part of an image that one global reaches
    (`packages/interpreter/src/image.ts`). */
module ImageExtract {
  import opened Wrappers
  import opened ImageFormat
  import opened ImageWriter
  import opened ImageRestore

  /** The entry is the first of that name. */
  predicate FirstNamed(globals: seq<(Json, Json)>, name: string, i: nat) {
    && i < |globals| && globals[i].0 == JSym(name)
    && forall j | 0 <= j < i :: globals[j].0 != JSym(name)
  }

  datatype Fragment = Fragment(objects: seq<Node<Json>>, root: Json)

  datatype Refusal = NotDefined | BadReference | HoldsPending

  datatype Extracted = Done(fragment: Fragment) | Refused(why: Refusal)

  /** The variables `renumber` closes over; `order` lists the references as they are met. */
  datatype Log = Log(objects: seq<Option<Node<Json>>>, ids: map<nat, nat>, pending: seq<(nat, nat)>, order: seq<nat>)

  const START := Log([], map[], [], [])

  function Meet(ref: nat, log: Log): Log {
    if ref in log.ids then log
    else Log(log.objects + [None], log.ids[ref := |log.objects|],
             log.pending + [(|log.objects|, ref)], log.order + [ref])
  }

  /** `renumber` on one value: its reference is met, and replaced by its new number. */
  function RenumberOne(j: Json, log: Log): (Json, Log) {
    match j
    case JRef(id) => var l := Meet(id, log); (if id in l.ids then JRef(l.ids[id]) else JNull, l)
    case JArg(level, offset, sym) => var (s, l) := RenumberOne(sym, log); (JArg(level, offset, s), l)
    case _ => (j, log)
  }

  function RenumberAll(js: seq<Json>, log: Log): (r: (seq<Json>, Log))
    ensures |r.0| == |js|
  {
    if js == [] then ([], log)
    else
      var (j, l) := RenumberOne(js[0], log);
      var (rest, m) := RenumberAll(js[1..], l);
      ([j] + rest, m)
  }

  function RenumberObject(n: Node<Json>, log: Log): (Node<Json>, Log) {
    var (js, l) := RenumberAll(Slots(n), log);
    (WithSlots(n, js), l)
  }

  function RenumberNode(n: Node<Json>, ids: map<nat, nat>): Node<Json> {
    MapNode((j: Json) => Renumber(j, ids), n)
  }

  function JsonEdges(objects: seq<Node<Json>>): map<nat, set<nat>> {
    map k | 0 <= k < |objects| :: AllJsonRefs(Slots(objects[k]))
  }

  /** The log between turns of the worklist; `busy` is the object being renumbered. */
  predicate Tidy(log: Log, objects: seq<Node<Json>>, busy: set<nat>) {
    && Numbers(log.ids, log.order) && |log.objects| == |log.order|
    && (forall i | 0 <= i < |log.order| && log.objects[i].Some? :: Taken(log, objects, i))
    && (forall i | 0 <= i < |log.order| && log.objects[i].None? :: i in busy || (i, log.order[i]) in log.pending)
    && (forall e | e in log.pending :: e.0 < |log.order| && log.order[e.0] == e.1)
  }

  predicate Taken(log: Log, objects: seq<Node<Json>>, i: nat)
    requires i < |log.objects| && i < |log.order| && log.objects[i].Some?
  {
    && log.order[i] < |objects| && !objects[log.order[i]].Pending?
    && AllJsonRefs(Slots(objects[log.order[i]])) <= log.ids.Keys
    && log.objects[i].value == RenumberNode(objects[log.order[i]], log.ids)
  }

  /** More references met; nothing met or taken before is changed. */
  predicate Later(log: Log, more: Log, refs: set<nat>) {
    && Extends(log.ids, more.ids) && more.ids.Keys == log.ids.Keys + refs
    && (more.ids.Keys == log.ids.Keys ==> more.pending == log.pending)
  }

  lemma RenumberNodeGrow(n: Node<Json>, ids: map<nat, nat>, more: map<nat, nat>)
    requires AllJsonRefs(Slots(n)) <= ids.Keys && Extends(ids, more)
    ensures RenumberNode(n, more) == RenumberNode(n, ids)
  {
    forall i | 0 <= i < |Slots(n)| ensures Renumber(Slots(n)[i], more) == Renumber(Slots(n)[i], ids) {
      InAllJsonRefs(Slots(n), i);
      RenumberGrow(Slots(n)[i], ids, more);
    }
    MapNodeAgree((j: Json) => Renumber(j, more), (j: Json) => Renumber(j, ids), n);
  }

  lemma MeetTidy(ref: nat, log: Log, objects: seq<Node<Json>>, busy: set<nat>)
    requires Tidy(log, objects, busy)
    ensures Tidy(Meet(ref, log), objects, busy) && Later(log, Meet(ref, log), {ref})
  {
    if ref !in log.ids {
      var l := Meet(ref, log);
      assert Numbers(l.ids, l.order);
      forall i | 0 <= i < |l.order| && l.objects[i].Some? ensures Taken(l, objects, i) {
        assert Taken(log, objects, i);
        RenumberNodeGrow(objects[log.order[i]], log.ids, l.ids);
      }
      assert l.pending[|log.pending|] == (|log.objects|, ref);
      assert forall e | e in log.pending :: e in l.pending;
    }
  }

  lemma {:induction false} RenumberOneTidy(j: Json, log: Log, objects: seq<Node<Json>>, busy: set<nat>)
    requires Tidy(log, objects, busy)
    ensures var (r, l) := RenumberOne(j, log);
            Tidy(l, objects, busy) && Later(log, l, JsonRefs(j)) && r == Renumber(j, l.ids)
  {
    match j
    case JRef(id) => MeetTidy(id, log, objects, busy);
    case JArg(_, _, sym) => RenumberOneTidy(sym, log, objects, busy);
    case _ =>
  }

  lemma {:induction false} RenumberAllTidy(js: seq<Json>, log: Log, objects: seq<Node<Json>>, busy: set<nat>)
    requires Tidy(log, objects, busy)
    ensures var (rs, l) := RenumberAll(js, log);
            && Tidy(l, objects, busy) && Later(log, l, AllJsonRefs(js))
            && forall i | 0 <= i < |js| :: rs[i] == Renumber(js[i], l.ids)
  {
    if js != [] {
      RenumberOneTidy(js[0], log, objects, busy);
      var (j, l) := RenumberOne(js[0], log);
      RenumberAllTidy(js[1..], l, objects, busy);
      var (rest, m) := RenumberAll(js[1..], l);
      RenumberGrow(js[0], l.ids, m.ids);
      RenumberedCons(js, j, rest, m.ids);
      LaterCons(js, log, l, m);
    }
  }

  lemma LaterCons(js: seq<Json>, log: Log, l: Log, m: Log)
    requires js != [] && Later(log, l, JsonRefs(js[0])) && Later(l, m, AllJsonRefs(js[1..]))
    ensures Later(log, m, AllJsonRefs(js))
  {
  }

  lemma RenumberedCons(js: seq<Json>, j: Json, rest: seq<Json>, ids: map<nat, nat>)
    requires js != [] && |rest| == |js| - 1 && j == Renumber(js[0], ids)
    requires forall i | 0 <= i < |rest| :: rest[i] == Renumber(js[1..][i], ids)
    ensures forall i | 0 <= i < |js| :: ([j] + rest)[i] == Renumber(js[i], ids)
  {
    assert forall i | 0 <= i < |rest| :: js[1..][i] == js[i + 1];
  }

  lemma RenumberObjectTidy(n: Node<Json>, log: Log, objects: seq<Node<Json>>, busy: set<nat>)
    requires Tidy(log, objects, busy)
    ensures var (r, l) := RenumberObject(n, log);
            Tidy(l, objects, busy) && Later(log, l, AllJsonRefs(Slots(n))) && r == RenumberNode(n, l.ids)
  {
    RenumberAllTidy(Slots(n), log, objects, busy);
    var (js, l) := RenumberAll(Slots(n), log);
    match n
    case Vector(items) => assert RenumberNode(n, l.ids).items == js;
    case Frame(slots) => assert RenumberNode(n, l.ids).slots == js;
    case _ =>
  }

  /** The fragment holds exactly the objects reachable from the root, each once, renumbered
      by one bijection, none of them a pending promise and none of them missing. */
  ghost predicate FragmentOf(objects: seq<Node<Json>>, root: Json, f: Fragment, ids: map<nat, nat>, order: seq<nat>) {
    && Numbers(ids, order) && |f.objects| == |order|
    && (forall r {:trigger Reachable(JsonEdges(objects), JsonRefs(root), r)} ::
          r in ids <==> Reachable(JsonEdges(objects), JsonRefs(root), r))
    && JsonRefs(root) <= ids.Keys
    && (forall i | 0 <= i < |order| :: FragmentAt(objects, f.objects, ids, order, i))
    && f.root == Renumber(root, ids)
  }

  predicate FragmentAt(objects: seq<Node<Json>>, taken: seq<Node<Json>>, ids: map<nat, nat>, order: seq<nat>, i: nat)
    requires i < |order| && i < |taken|
  {
    && order[i] < |objects| && !objects[order[i]].Pending?
    && AllJsonRefs(Slots(objects[order[i]])) <= ids.Keys
    && taken[i] == RenumberNode(objects[order[i]], ids)
  }

  function FindGlobal(globals: seq<(Json, Json)>, name: string): Option<Json> {
    if globals == [] then None
    else if globals[0].0 == JSym(name) then Some(globals[0].1)
    else FindGlobal(globals[1..], name)
  }

  lemma {:induction false} FindGlobalIs(globals: seq<(Json, Json)>, name: string)
    ensures FindGlobal(globals, name).None? <==> forall i | 0 <= i < |globals| :: globals[i].0 != JSym(name)
    ensures FindGlobal(globals, name).Some? ==>
              exists i | 0 <= i < |globals| ::
                FirstNamed(globals, name, i) && globals[i].1 == FindGlobal(globals, name).value
  {
    if globals != [] && globals[0].0 != JSym(name) {
      FindGlobalIs(globals[1..], name);
      if FindGlobal(globals, name).Some? {
        var i :| 0 <= i < |globals[1..]| && FirstNamed(globals[1..], name, i)
                 && globals[1..][i].1 == FindGlobal(globals, name).value;
        assert FirstNamed(globals, name, i + 1) by {
          assert forall j | 1 <= j < i + 1 :: globals[j] == globals[1..][j - 1];
        }
      } else {
        assert forall i | 1 <= i < |globals| :: globals[i] == globals[1..][i - 1];
      }
    } else if globals != [] {
      assert FirstNamed(globals, name, 0);
    }
  }

  /** A reachable reference that no image object stands for, or a reachable pending promise. */
  ghost predicate Broken(objects: seq<Node<Json>>, root: Json, r: nat) {
    Reachable(JsonEdges(objects), JsonRefs(root), r) && r >= |objects|
  }

  ghost predicate Waiting(objects: seq<Node<Json>>, root: Json, r: nat) {
    Reachable(JsonEdges(objects), JsonRefs(root), r) && r < |objects| && objects[r].Pending?
  }

  /** Why an extraction is refused, besides an unknown name. */
  ghost predicate Justified(objects: seq<Node<Json>>, root: Json, why: Refusal) {
    match why
    case NotDefined => false
    case BadReference => exists x :: Broken(objects, root, x)
    case HoldsPending => exists x :: Waiting(objects, root, x)
  }

  /** `extract`. It succeeds exactly when the name is a global from which every reference is
      in range and no pending promise is reached. */
  method Extract(image: Image, name: string) returns (r: Extracted, ghost ids: map<nat, nat>, ghost order: seq<nat>)
    ensures r == Refused(NotDefined) <==> forall i | 0 <= i < |image.globals| :: image.globals[i].0 != JSym(name)
    ensures r != Refused(NotDefined) ==>
              exists i | 0 <= i < |image.globals| :: FirstNamed(image.globals, name, i)
                && var entry := image.globals[i].1;
                   && (r.Done? ==> FragmentOf(image.objects, entry, r.fragment, ids, order))
                   && (r.Done? && entry.JRef? ==> r.fragment.root == JRef(0))
                   && (r.Refused? ==> Justified(image.objects, entry, r.why))
  {
    FindGlobalIs(image.globals, name);
    var entry := FindGlobal(image.globals, name);
    if entry.None? { return Refused(NotDefined), map[], []; }
    r, ids, order := ExtractFrom(image.objects, entry.value);
  }

  method ExtractFrom(objects: seq<Node<Json>>, entry: Json)
    returns (r: Extracted, ghost ids: map<nat, nat>, ghost order: seq<nat>)
    ensures r.Done? ==> FragmentOf(objects, entry, r.fragment, ids, order)
    ensures r.Done? && entry.JRef? ==> r.fragment.root == JRef(0)
    ensures r.Refused? ==> Justified(objects, entry, r.why)
  {
    GoingStart(objects, entry);
    var (root, met) := RenumberOne(entry, START);
    var why, log := DrainPending(objects, entry, root, met);
    if why.Some? { return Refused(why.value), map[], []; }
    Finished(objects, entry, log);
    r, ids, order := Done(Fragment(AllTaken(log, objects), root)), log.ids, log.order;
  }

  method DrainPending(objects: seq<Node<Json>>, entry: Json, ghost root: Json, start: Log)
    returns (why: Option<Refusal>, log: Log)
    requires Tidy(start, objects, {}) && Met(objects, entry, root, start.ids)
    ensures why.Some? ==> Justified(objects, entry, why.value)
    ensures why.None? ==> log.pending == [] && Tidy(log, objects, {}) && Met(objects, entry, root, log.ids)
  {
    log := start;
    ghost var unmet := Unmet(objects, log);
    while log.pending != []
      invariant Tidy(log, objects, {}) && Met(objects, entry, root, log.ids)
      invariant unmet == Unmet(objects, log)
      decreases unmet, |log.pending|
    {
      var next;
      why, next := Turn(objects, entry, root, log);
      if why.Some? { return; }
      log, unmet := next, Unmet(objects, next);
    }
    why := None;
  }

  /** The references not yet met: a set that only shrinks. */
  function Unmet(objects: seq<Node<Json>>, log: Log): set<nat> {
    JsonRange(objects) - log.ids.Keys
  }

  /** One turn of the worklist. */
  method Turn(objects: seq<Node<Json>>, entry: Json, ghost root: Json, log: Log)
    returns (why: Option<Refusal>, next: Log)
    requires Tidy(log, objects, {}) && Met(objects, entry, root, log.ids) && log.pending != []
    ensures why.Some? ==> Justified(objects, entry, why.value)
    ensures why.None? ==> Tidy(next, objects, {}) && Met(objects, entry, root, next.ids)
    ensures why.None? ==> Unmet(objects, next) <= Unmet(objects, log)
    ensures why.None? && Unmet(objects, next) == Unmet(objects, log) ==> |next.pending| < |log.pending|
  {
    var ref: nat := log.pending[|log.pending| - 1].1;
    PendingMet(log, objects);
    next := log;
    if ref >= |objects| {
      assert Broken(objects, entry, ref);
      return Some(BadReference), next;
    }
    if objects[ref].Pending? {
      assert Waiting(objects, entry, ref);
      return Some(HoldsPending), next;
    }
    next := TakeNext(objects, log);
    MeetOn(objects, entry, root, log.ids, next.ids, ref);
    InRange(objects, ref);
    Shrinks(JsonRange(objects), log.ids.Keys, next.ids.Keys);
    why := None;
  }

  /** What every reference met so far is: reachable, the root's own among them. */
  ghost predicate Met(objects: seq<Node<Json>>, entry: Json, root: Json, ids: map<nat, nat>) {
    && JsonRefs(entry) <= ids.Keys && root == Renumber(entry, ids)
    && forall x {:trigger Reachable(JsonEdges(objects), JsonRefs(entry), x)} ::
         x in ids.Keys ==> Reachable(JsonEdges(objects), JsonRefs(entry), x)
  }

  lemma PendingMet(log: Log, objects: seq<Node<Json>>)
    requires Tidy(log, objects, {}) && log.pending != []
    ensures log.pending[|log.pending| - 1].1 in log.ids
  {
  }

  lemma GoingStart(objects: seq<Node<Json>>, entry: Json)
    ensures var (root, log) := RenumberOne(entry, START);
            Tidy(log, objects, {}) && Met(objects, entry, root, log.ids)
  {
    RenumberOneTidy(entry, START, objects, {});
    var (root, log) := RenumberOne(entry, START);
    forall x | x in log.ids ensures Reachable(JsonEdges(objects), JsonRefs(entry), x) {
      RootReachable(JsonEdges(objects), JsonRefs(entry), x);
    }
  }

  lemma MeetOn(objects: seq<Node<Json>>, entry: Json, root: Json, ids: map<nat, nat>, more: map<nat, nat>, ref: nat)
    requires Met(objects, entry, root, ids) && Extends(ids, more)
    requires ref < |objects| && ref in ids && more.Keys == ids.Keys + AllJsonRefs(Slots(objects[ref]))
    ensures Met(objects, entry, root, more)
  {
    StepAll(JsonEdges(objects), JsonRefs(entry), ids.Keys, ref, more.Keys);
    RenumberGrow(entry, ids, more);
  }

  lemma Shrinks(bound: set<nat>, met: set<nat>, more: set<nat>)
    requires met <= more <= met + bound
    ensures bound - more <= bound - met
    ensures bound - more == bound - met ==> more == met
  {
    if bound - more == bound - met {
      assert forall x | x in more :: x !in bound - more;
    }
  }

  method TakeNext(objects: seq<Node<Json>>, log: Log) returns (next: Log)
    requires Tidy(log, objects, {}) && log.pending != []
    requires var ref := log.pending[|log.pending| - 1].1; ref < |objects| && !objects[ref].Pending?
    ensures Tidy(next, objects, {}) && Extends(log.ids, next.ids)
    ensures next.ids.Keys == log.ids.Keys + AllJsonRefs(Slots(objects[log.pending[|log.pending| - 1].1]))
    ensures next.ids.Keys == log.ids.Keys ==> |next.pending| < |log.pending|
  {
    var n := |log.pending| - 1;
    var (id: nat, ref: nat) := log.pending[n];
    var popped := log.(pending := log.pending[..n]);
    PoppedTidy(log, objects);
    RenumberObjectTidy(objects[ref], popped, objects, {id});
    var (json, l) := RenumberObject(objects[ref], popped);
    assert log.order[id] == ref && ref in log.ids && log.ids[ref] == id;
    assert l.ids[ref] == id && l.order[id] == ref;
    PlacedTidy(l, objects, id, json);
    next := l.(objects := l.objects[id := Some(json)]);
  }

  function AllTaken(log: Log, objects: seq<Node<Json>>): seq<Node<Json>>
    requires Tidy(log, objects, {}) && log.pending == []
  {
    seq(|log.objects|, i requires 0 <= i < |log.objects| && log.objects[i].Some? => log.objects[i].value)
  }

  lemma TakenClosed(objects: seq<Node<Json>>, log: Log)
    requires Tidy(log, objects, {}) && log.pending == []
    ensures forall y | y in log.ids :: y in JsonEdges(objects) && JsonEdges(objects)[y] <= log.ids.Keys
  {
    forall y | y in log.ids ensures y in JsonEdges(objects) && JsonEdges(objects)[y] <= log.ids.Keys {
      assert log.objects[log.ids[y]].Some?;
      assert Taken(log, objects, log.ids[y]);
    }
  }

  lemma Finished(objects: seq<Node<Json>>, root: Json, log: Log)
    requires Tidy(log, objects, {}) && log.pending == [] && JsonRefs(root) <= log.ids.Keys
    requires forall x | x in log.ids :: Reachable(JsonEdges(objects), JsonRefs(root), x)
    ensures FragmentOf(objects, root, Fragment(AllTaken(log, objects), Renumber(root, log.ids)), log.ids, log.order)
  {
    var taken, ids := AllTaken(log, objects), log.ids;
    forall x | Reachable(JsonEdges(objects), JsonRefs(root), x)
      ensures x in ids
    {
      FinishedCovers(objects, root, log, x);
    }
    forall i | 0 <= i < |log.order|
      ensures FragmentAt(objects, taken, ids, log.order, i)
    {
      FinishedAt(objects, log, i);
    }
  }

  lemma FinishedCovers(objects: seq<Node<Json>>, root: Json, log: Log, x: nat)
    requires Tidy(log, objects, {}) && log.pending == [] && JsonRefs(root) <= log.ids.Keys
    requires Reachable(JsonEdges(objects), JsonRefs(root), x)
    ensures x in log.ids
  {
    TakenClosed(objects, log);
    ClosedCovers(JsonEdges(objects), JsonRefs(root), log.ids.Keys, x);
  }

  lemma FinishedAt(objects: seq<Node<Json>>, log: Log, i: nat)
    requires Tidy(log, objects, {}) && log.pending == [] && i < |log.order|
    ensures |AllTaken(log, objects)| == |log.order|
    ensures FragmentAt(objects, AllTaken(log, objects), log.ids, log.order, i)
  {
    assert Taken(log, objects, i);
  }

  /** Every reference an image holds: the bound that makes the worklist end. */
  function JsonRange(objects: seq<Node<Json>>): set<nat> {
    if objects == [] then {} else AllJsonRefs(Slots(objects[0])) + JsonRange(objects[1..])
  }

  lemma {:induction false} InRange(objects: seq<Node<Json>>, k: nat)
    requires k < |objects|
    ensures AllJsonRefs(Slots(objects[k])) <= JsonRange(objects)
  {
    if k > 0 { InRange(objects[1..], k - 1); }
  }

  lemma PoppedTidy(log: Log, objects: seq<Node<Json>>)
    requires Tidy(log, objects, {}) && log.pending != []
    ensures var n := |log.pending| - 1;
            Tidy(log.(pending := log.pending[..n]), objects, {log.pending[n].0})
  {
    var n := |log.pending| - 1;
    var popped := log.(pending := log.pending[..n]);
    forall i | 0 <= i < |log.order| && popped.objects[i].Some? ensures Taken(popped, objects, i) {
      assert Taken(log, objects, i);
    }
    LastPopped(log.pending);
  }

  lemma LastPopped(pending: seq<(nat, nat)>)
    requires pending != []
    ensures var n := |pending| - 1;
            && (forall e | e in pending :: e == pending[n] || e in pending[..n])
            && (forall e | e in pending[..n] :: e in pending)
  {
  }

  lemma PlacedTidy(log: Log, objects: seq<Node<Json>>, id: nat, json: Node<Json>)
    requires Tidy(log, objects, {id}) && id < |log.order| && log.order[id] < |objects|
    requires !objects[log.order[id]].Pending? && AllJsonRefs(Slots(objects[log.order[id]])) <= log.ids.Keys
    requires json == RenumberNode(objects[log.order[id]], log.ids)
    ensures Tidy(log.(objects := log.objects[id := Some(json)]), objects, {})
  {
    var l := log.(objects := log.objects[id := Some(json)]);
    forall i | 0 <= i < |l.order| && l.objects[i].Some? ensures Taken(l, objects, i) {
      if i != id { assert Taken(log, objects, i); }
    }
  }

  /** When the fragment is there, nothing reachable was broken or waiting, and every reference
      in it is in range. */
  lemma FragmentWhole(objects: seq<Node<Json>>, root: Json, f: Fragment, ids: map<nat, nat>, order: seq<nat>, x: nat)
    requires FragmentOf(objects, root, f, ids, order)
    ensures !Broken(objects, root, x) && !Waiting(objects, root, x)
  {
    if x in ids { assert FragmentAt(objects, f.objects, ids, order, ids[x]); }
  }
}
