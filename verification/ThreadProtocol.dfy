/** One thread's mailbox and its driver (`packages/ai/src/thread.ts`). Each step is one
    stretch of code between two awaits, or one act of the mailbox, which may be remote and so
    answers at any moment after it was asked. */
module ThreadProtocol {
  import opened Outcomes
  import opened Wrappers

  type Id = nat

  const WITHDRAWN := Stopped("withdrawn before a turn took it")

  /** The four ways out of the mailbox. */
  datatype Exit = Opened | Steered | Withdrew | Cancelled(why: Outcome)

  /** A `post` that awaits the mailbox, or whose envelope the mailbox has but which has not
      yet bumped the counter. */
  datatype Posting = Sending | Sent

  /** A `drive` that awaits `take`; that was given an answer; or that runs a turn, whose inbox
      may have been answered but not yet read. */
  datatype Driver =
    | Taking(seen: nat)
    | Took(seen: nat, got: Option<Id>)
    | Turning(consumed: seq<Id>, inbox: Option<seq<Id>>)

  /** Envelopes a `cancel` or a `withdraw` took out and has not yet released. */
  datatype Hand = Hand(ids: seq<Id>, why: Outcome)

  datatype State = State(
    running: bool,
    posted: nat,
    tracked: set<Id>,
    queue: seq<Id>,
    posting: map<Id, Posting>,
    drivers: seq<Driver>,
    hands: seq<Hand>,
    ended: map<Id, Outcome>,
    exits: map<Id, Exit>,      // how each envelope left the mailbox
    known: set<Id>,            // every id ever posted
    lost: set<Id>,             // taken by a drive that failed
    faulted: bool)             // a drive has failed since the last one was started

  const FRESH := State(false, 0, {}, [], map[], [], [], map[], map[], {}, {}, false)

  datatype Step =
    | PostBegin(id: Id)
    | Accept(id: Id)
    | PostResume(id: Id)
    | Take(d: nat)
    | Resume(d: nat)
    | InboxTake(d: nat)
    | InboxResume(d: nat)
    | EndTurn(d: nat, outcome: Outcome)
    | Fail(d: nat)
    | CancelTake(why: Outcome)
    | WithdrawTake(id: Id)
    | Release(h: nat)

  predicate Enabled(s: State, step: Step) {
    match step
    case PostBegin(id) => id !in s.known
    case Accept(id) => id in s.posting && s.posting[id] == Sending
    case PostResume(id) => id in s.posting && s.posting[id] == Sent
    case Take(d) => d < |s.drivers| && s.drivers[d].Taking?
    case Resume(d) => d < |s.drivers| && s.drivers[d].Took?
    case InboxTake(d) => d < |s.drivers| && s.drivers[d].Turning? && s.drivers[d].inbox.None?
    case InboxResume(d) => d < |s.drivers| && s.drivers[d].Turning? && s.drivers[d].inbox.Some?
    case EndTurn(d, _) => d < |s.drivers| && s.drivers[d].Turning? && s.drivers[d].inbox.None?
    case Fail(d) => d < |s.drivers| && !s.drivers[d].Took?
    case CancelTake(_) => true
    case WithdrawTake(id) => true
    case Release(h) => h < |s.hands|
  }

  function Without<T>(xs: seq<T>, i: nat): (r: seq<T>)
    requires i < |xs|
    ensures |r| == |xs| - 1
  {
    xs[..i] + xs[i + 1..]
  }

  function Leave(exits: map<Id, Exit>, ids: seq<Id>, exit: Exit): map<Id, Exit> {
    exits + map id | id in ids :: exit
  }

  /** `release` on each id: an end is called only while it is tracked. */
  function ReleaseAll(s: State, ids: seq<Id>, outcome: Outcome): State {
    s.(ended := Endings(s.ended, s.tracked, ids, outcome), tracked := Untracked(s.tracked, ids))
  }

  function Endings(ended: map<Id, Outcome>, tracked: set<Id>, ids: seq<Id>, outcome: Outcome): map<Id, Outcome> {
    ended + map id | id in ids && id in tracked :: outcome
  }

  function Untracked(tracked: set<Id>, ids: seq<Id>): set<Id> {
    tracked - set id | id in ids
  }

  function IndexOf(queue: seq<Id>, id: Id): (at: nat)
    ensures at <= |queue| && (at < |queue| ==> queue[at] == id)
    ensures at == |queue| <==> id !in queue
  {
    if queue == [] || queue[0] == id then 0 else 1 + IndexOf(queue[1..], id)
  }

  function Next(s: State, step: Step): State
    requires Enabled(s, step)
  {
    match step
    case PostBegin(id) =>
      s.(tracked := s.tracked + {id}, posting := s.posting[id := Sending], known := s.known + {id})
    case Accept(id) => s.(posting := s.posting[id := Sent], queue := s.queue + [id])
    case PostResume(id) =>
      var bumped := s.(posting := s.posting - {id}, posted := s.posted + 1);
      if s.running then bumped
      else bumped.(running := true, drivers := s.drivers + [Taking(s.posted + 1)], faulted := false)
    case Take(d) =>
      var seen := s.drivers[d].seen;
      if s.queue == [] then s.(drivers := s.drivers[d := Took(seen, None)])
      else s.(drivers := s.drivers[d := Took(seen, Some(s.queue[0]))], queue := s.queue[1..],
              exits := Leave(s.exits, [s.queue[0]], Opened))
    case Resume(d) =>
      (match s.drivers[d].got
       case Some(id) => s.(drivers := s.drivers[d := Turning([id], None)])
       case None =>
         if s.posted != s.drivers[d].seen then s.(drivers := s.drivers[d := Taking(s.posted)])
         else s.(running := false, drivers := Without(s.drivers, d)))
    case InboxTake(d) =>
      s.(drivers := s.drivers[d := Turning(s.drivers[d].consumed, Some(s.queue))], queue := [],
         exits := Leave(s.exits, s.queue, Steered))
    case InboxResume(d) =>
      s.(drivers := s.drivers[d := Turning(s.drivers[d].consumed + s.drivers[d].inbox.value, None)])
    case EndTurn(d, outcome) =>
      ReleaseAll(s, s.drivers[d].consumed, outcome).(drivers := s.drivers[d := Taking(s.posted)])
    case Fail(d) =>
      s.(running := false, drivers := Without(s.drivers, d), faulted := true,
         lost := s.lost + set id | id in InDriver(s.drivers[d]))
    case CancelTake(why) =>
      s.(hands := s.hands + [Hand(s.queue, why)], queue := [], exits := Leave(s.exits, s.queue, Cancelled(why)))
    case WithdrawTake(id) =>
      var at := IndexOf(s.queue, id);
      if at == |s.queue| then s
      else s.(hands := s.hands + [Hand([id], WITHDRAWN)], queue := Without(s.queue, at),
              exits := Leave(s.exits, [id], Withdrew))
    case Release(h) =>
      ReleaseAll(s, s.hands[h].ids, s.hands[h].why).(hands := Without(s.hands, h))
  }

  // ----- where an envelope is -----

  function InDriver(d: Driver): seq<Id> {
    match d
    case Taking(_) => []
    case Took(_, got) => if got.Some? then [got.value] else []
    case Turning(consumed, inbox) => if inbox.Some? then consumed + inbox.value else consumed
  }

  function Count(ids: seq<Id>, id: Id): nat {
    multiset(ids)[id]
  }

  function InDrivers(ds: seq<Driver>, id: Id): nat {
    if ds == [] then 0 else Count(InDriver(ds[0]), id) + InDrivers(ds[1..], id)
  }

  function InHands(hs: seq<Hand>, id: Id): nat {
    if hs == [] then 0 else Count(hs[0].ids, id) + InHands(hs[1..], id)
  }

  function BeingSent(s: State): set<Id> {
    set id | id in s.posting && s.posting[id] == Sending
  }

  /** How often an envelope is in some place: being sent, waiting, in the hands of a drive, of
      a cancel or a withdrawal, released, or lost. */
  function Places(s: State, id: Id): nat {
    (if id in BeingSent(s) then 1 else 0) + Count(s.queue, id) + InDrivers(s.drivers, id) + InHands(s.hands, id)
    + (if id in s.ended then 1 else 0) + (if id in s.lost then 1 else 0)
  }

  // ----- what every step keeps -----

  /** One driver at most, and it is there exactly while `running` says so. */
  predicate Single(s: State) {
    |s.drivers| == (if s.running then 1 else 0)
  }

  predicate Unbumped(s: State) {
    forall id | id in s.queue :: id in s.posting && s.posting[id] == Sent
  }

  predicate Watching(s: State, d: Driver) {
    match d
    case Taking(seen) => seen <= s.posted
    case Took(seen, got) => seen <= s.posted && (got.None? && seen == s.posted ==> Unbumped(s))
    case Turning(_, _) => true
  }

  /** No lost wakeup: a driver about to stop with the counter unchanged, and a thread that
      stopped without failing, leave no envelope whose post has completed. */
  predicate Awake(s: State) {
    && (forall i | 0 <= i < |s.drivers| :: Watching(s, s.drivers[i]))
    && (!s.running && !s.faulted ==> Unbumped(s))
  }

  /** Every id ever posted is in exactly one place: being sent, waiting, taken, released or
      lost to a failed drive. */
  ghost predicate Conserved(s: State) {
    && (forall id {:trigger Places(s, id)} :: Places(s, id) == if id in s.known then 1 else 0)
    && s.tracked == s.known - s.ended.Keys
    && s.posting.Keys <= s.known
  }

  predicate ExitOf(s: State, id: Id, way: Exit) {
    id in s.exits && s.exits[id] == way
  }

  predicate HasLeft(s: State, id: Id) {
    id in s.exits <==> id in s.known && id !in BeingSent(s) && id !in s.queue
  }

  /** An envelope has an exit exactly when it is no longer being sent or waiting, and what a
      withdrawal or a cancel has in hand left by it. */
  ghost predicate Accounted(s: State) {
    && (forall id {:trigger HasLeft(s, id)} :: HasLeft(s, id))
    && HandsRight(s) && EndsRight(s)
  }

  /** What is in hand left by the way that will end it. */
  predicate HandsRight(s: State) {
    && (forall i | 0 <= i < |s.hands| :: HandRight(s, s.hands[i]))
    && (forall i | 0 <= i < |s.drivers| :: DriverRight(s, s.drivers[i]))
  }

  predicate HandRight(s: State, h: Hand) {
    forall id | id in h.ids :: ExitOf(s, id, Cancelled(h.why)) || (ExitOf(s, id, Withdrew) && h.why == WITHDRAWN)
  }

  predicate DriverRight(s: State, d: Driver) {
    forall id | id in InDriver(d) :: ExitOf(s, id, Opened) || ExitOf(s, id, Steered)
  }

  /** An envelope ends by the way it left: withdrawn, or for the reason of the cancel that
      took it, and otherwise with the outcome of the turn that took it. */
  predicate EndsRight(s: State) {
    forall id | id in s.ended :: EndRight(s, id)
  }

  predicate EndRight(s: State, id: Id)
    requires id in s.ended
  {
    && id in s.exits
    && (s.exits[id].Withdrew? ==> s.ended[id] == WITHDRAWN)
    && (s.exits[id].Cancelled? ==> s.ended[id] == s.exits[id].why)
  }

  ghost predicate Inv(s: State) {
    Single(s) && Awake(s) && Conserved(s) && Accounted(s)
  }

  // ----- facts about places -----

  lemma OneDriver(d: Driver, id: Id)
    ensures InDrivers([d], id) == Count(InDriver(d), id) && InDrivers([], id) == 0
  {
    assert [d][1..] == [];
  }

  lemma {:induction false} HandsAt(hs: seq<Hand>, i: nat, id: Id)
    requires i < |hs|
    ensures InHands(hs, id) == Count(hs[i].ids, id) + InHands(Without(hs, i), id)
  {
    if i == 0 {
      assert Without(hs, 0) == hs[1..];
    } else {
      HandsAt(hs[1..], i - 1, id);
      var others := Without(hs, i);
      assert others[0] == hs[0] && others[1..] == Without(hs[1..], i - 1);
    }
  }

  lemma HandsSnoc(hs: seq<Hand>, h: Hand, id: Id)
    ensures InHands(hs + [h], id) == InHands(hs, id) + Count(h.ids, id)
  {
    HandsAt(hs + [h], |hs|, id);
    assert Without(hs + [h], |hs|) == hs;
  }

  lemma CountWithout(xs: seq<Id>, i: nat, id: Id)
    requires i < |xs|
    ensures Count(xs, id) == Count(Without(xs, i), id) + (if xs[i] == id then 1 else 0)
  {
    assert xs == xs[..i] + [xs[i]] + xs[i + 1..];
  }

  lemma CountIn(xs: seq<Id>, id: Id)
    ensures id in xs <==> Count(xs, id) > 0
  {
  }

  // ----- one step -----

  /** At most one driver: only a post that finds none running starts one, and a driver that
      stops, by finding nothing or by failing, says so at once. */
  lemma SingleKept(s: State, step: Step)
    requires Enabled(s, step) && Single(s)
    ensures Single(Next(s, step))
  {
  }

  lemma AwakeKept(s: State, step: Step)
    requires Enabled(s, step) && Single(s) && Awake(s) && s.posting.Keys <= s.known
    ensures Awake(Next(s, step))
  {
    var t := Next(s, step);
    forall i | 0 <= i < |t.drivers| ensures Watching(t, t.drivers[i]) {
      assert i == 0;
      if s.drivers != [] {
        assert Watching(s, s.drivers[0]);
        WatchingKept(s, step);
      }
    }
    if !t.running && !t.faulted { StoppedClean(s, step); }
  }

  lemma QueueShrinks(s: State, step: Step)
    requires Enabled(s, step) && !step.Accept? && !step.PostResume?
    ensures forall id | id in Next(s, step).queue :: id in s.queue
    ensures step.PostBegin? || Next(s, step).posting == s.posting
  {
    if !step.PostBegin? { PostingStays(s, step); }
  }

  lemma PostingStays(s: State, step: Step)
    requires Enabled(s, step) && !step.PostBegin? && !step.Accept? && !step.PostResume?
    ensures Next(s, step).posting == s.posting
  {
    match step
    case Take(_) =>
    case Resume(d) => if s.drivers[d].got.Some? {}
    case InboxTake(_) =>
    case InboxResume(_) =>
    case EndTurn(_, _) =>
    case Fail(_) =>
    case CancelTake(_) =>
    case WithdrawTake(_) =>
    case Release(_) =>
  }

  lemma WatchingKept(s: State, step: Step)
    requires Enabled(s, step) && |s.drivers| == 1 && Watching(s, s.drivers[0]) && s.running && s.posting.Keys <= s.known
    ensures Next(s, step).drivers != [] ==> Watching(Next(s, step), Next(s, step).drivers[0])
  {
    if !step.Accept? && !step.PostResume? { QueueShrinks(s, step); }
  }

  lemma StoppedClean(s: State, step: Step)
    requires Enabled(s, step) && Single(s) && Awake(s) && s.posting.Keys <= s.known
    requires !Next(s, step).running && !Next(s, step).faulted
    ensures Unbumped(Next(s, step))
  {
    if !step.Accept? && !step.PostResume? { QueueShrinks(s, step); }
    if step.Resume? { assert Watching(s, s.drivers[step.d]); }
  }

  // Conservation, for one envelope at a time.

  ghost predicate Balanced(s: State, id: Id) {
    && Places(s, id) == (if id in s.known then 1 else 0)
    && s.tracked == s.known - s.ended.Keys
    && s.posting.Keys <= s.known
  }

  lemma BeginKept(s: State, x: Id, id: Id)
    requires Enabled(s, PostBegin(x)) && Balanced(s, id) && Places(s, x) == 0
    ensures Balanced(Next(s, PostBegin(x)), id)
  {
    assert id in BeingSent(Next(s, PostBegin(x))) <==> id in BeingSent(s) || id == x;
  }

  lemma AcceptKept(s: State, x: Id, id: Id)
    requires Enabled(s, Accept(x)) && Balanced(s, id)
    ensures Balanced(Next(s, Accept(x)), id)
  {
    var t := Next(s, Accept(x));
    assert Count(t.queue, id) == Count(s.queue, id) + (if x == id then 1 else 0);
    assert id in BeingSent(t) <==> id in BeingSent(s) && id != x;
  }

  lemma PostedKept(s: State, x: Id, id: Id)
    requires Enabled(s, PostResume(x)) && Single(s) && Balanced(s, id)
    ensures Balanced(Next(s, PostResume(x)), id)
  {
    var t := Next(s, PostResume(x));
    assert id in BeingSent(t) <==> id in BeingSent(s);
    if !s.running {
      OneDriver(Taking(s.posted + 1), id);
      assert t.drivers == [Taking(s.posted + 1)];
    }
  }

  /** The lone driver's part of the sum, before and after a step of that driver. */
  lemma DriverTurns(s: State, t: State, id: Id)
    requires |s.drivers| == 1 && |t.drivers| <= 1
    ensures InDrivers(s.drivers, id) == Count(InDriver(s.drivers[0]), id)
    ensures InDrivers(t.drivers, id) == if t.drivers == [] then 0 else Count(InDriver(t.drivers[0]), id)
  {
    OneDriver(s.drivers[0], id);
    assert s.drivers == [s.drivers[0]];
    if t.drivers != [] {
      OneDriver(t.drivers[0], id);
      assert t.drivers == [t.drivers[0]];
    }
  }

  lemma Rebalanced(s: State, t: State, id: Id)
    requires Balanced(s, id)
    requires t.posting == s.posting && t.ended == s.ended && t.lost == s.lost && t.hands == s.hands
    requires t.known == s.known && t.tracked == s.tracked
    requires Count(t.queue, id) + InDrivers(t.drivers, id) == Count(s.queue, id) + InDrivers(s.drivers, id)
    ensures Balanced(t, id)
  {
  }

  lemma TakeKept(s: State, d: nat, id: Id)
    requires Enabled(s, Take(d)) && Single(s) && Balanced(s, id)
    ensures Balanced(Next(s, Take(d)), id)
  {
    var t := Next(s, Take(d));
    DriverTurns(s, t, id);
    if s.queue == [] {
      assert InDriver(t.drivers[0]) == [];
    } else {
      assert InDriver(t.drivers[0]) == [s.queue[0]];
      assert s.queue == [s.queue[0]] + t.queue;
    }
    Rebalanced(s, t, id);
  }

  lemma OpenKept(s: State, d: nat, id: Id)
    requires Enabled(s, Resume(d)) && Single(s) && Balanced(s, id) && s.drivers[d].got.Some?
    ensures Balanced(Next(s, Resume(d)), id)
  {
    DriverTurns(s, Next(s, Resume(d)), id);
    assert InDriver(Turning([s.drivers[0].got.value], None)) == InDriver(s.drivers[0]);
    Rebalanced(s, Next(s, Resume(d)), id);
  }

  lemma ResumeKept(s: State, d: nat, id: Id)
    requires Enabled(s, Resume(d)) && Single(s) && Balanced(s, id)
    ensures Balanced(Next(s, Resume(d)), id)
  {
    if s.drivers[d].got.Some? {
      OpenKept(s, d, id);
    } else {
      IdleKept(s, d, id);
    }
  }

  lemma IdleKept(s: State, d: nat, id: Id)
    requires Enabled(s, Resume(d)) && Single(s) && Balanced(s, id) && s.drivers[d].got.None?
    ensures Balanced(Next(s, Resume(d)), id)
  {
    var t := Next(s, Resume(d));
    assert InDriver(s.drivers[0]) == [];
    if s.posted != s.drivers[d].seen {
      assert t.drivers == [Taking(s.posted)];
    } else {
      assert t.drivers == [];
    }
    DriverTurns(s, t, id);
    Rebalanced(s, t, id);
  }

  lemma InboxKept(s: State, step: Step, id: Id)
    requires Enabled(s, step) && Single(s) && Balanced(s, id) && (step.InboxTake? || step.InboxResume?)
    ensures Balanced(Next(s, step), id)
  {
    DriverTurns(s, Next(s, step), id);
    Rebalanced(s, Next(s, step), id);
  }

  lemma CancelKept(s: State, why: Outcome, id: Id)
    requires Balanced(s, id)
    ensures Balanced(Next(s, CancelTake(why)), id)
  {
    HandsSnoc(s.hands, Hand(s.queue, why), id);
  }

  lemma WithdrawKept(s: State, x: Id, id: Id)
    requires Balanced(s, id)
    ensures Balanced(Next(s, WithdrawTake(x)), id)
  {
    var at := IndexOf(s.queue, x);
    if at < |s.queue| {
      CountWithout(s.queue, at, id);
      HandsSnoc(s.hands, Hand([x], WITHDRAWN), id);
    }
  }

  /** An envelope in hand has not ended, so releasing it ends it. */
  lemma Released(s: State, ids: seq<Id>, outcome: Outcome, id: Id)
    requires Balanced(s, id) && Count(ids, id) + (if id in s.ended then 1 else 0) <= Places(s, id)
    ensures var t := ReleaseAll(s, ids, outcome);
            && (if id in t.ended then 1 else 0) == (if id in s.ended then 1 else 0) + Count(ids, id)
            && t.tracked == t.known - t.ended.Keys
  {
    CountIn(ids, id);
  }

  lemma EndKept(s: State, d: nat, outcome: Outcome, id: Id)
    requires Enabled(s, EndTurn(d, outcome)) && Single(s) && Balanced(s, id)
    ensures Balanced(Next(s, EndTurn(d, outcome)), id)
  {
    DriverTurns(s, Next(s, EndTurn(d, outcome)), id);
    Released(s, s.drivers[d].consumed, outcome, id);
  }

  lemma HandKept(s: State, h: nat, id: Id)
    requires Enabled(s, Release(h)) && Balanced(s, id)
    ensures Balanced(Next(s, Release(h)), id)
  {
    HandsAt(s.hands, h, id);
    Released(s, s.hands[h].ids, s.hands[h].why, id);
    var t := Next(s, Release(h));
    assert t.hands == Without(s.hands, h) && t.posting == s.posting && t.queue == s.queue && t.drivers == s.drivers;
  }

  lemma FailKept(s: State, d: nat, id: Id)
    requires Enabled(s, Fail(d)) && Single(s) && Balanced(s, id)
    ensures Balanced(Next(s, Fail(d)), id)
  {
    OneDriver(s.drivers[0], id);
    assert s.drivers == [s.drivers[0]] && Without(s.drivers, d) == [];
    CountIn(InDriver(s.drivers[d]), id);
  }

  /** Conservation: a step moves envelopes between places and only `post` adds one. */
  lemma ConservedKept(s: State, step: Step)
    requires Enabled(s, step) && Single(s) && Conserved(s)
    ensures Conserved(Next(s, step))
  {
    var t := Next(s, step);
    forall id ensures Balanced(t, id) {
      assert Balanced(s, id);
      match step
      case PostBegin(x) => assert Places(s, x) == 0; BeginKept(s, x, id);
      case Accept(x) => AcceptKept(s, x, id);
      case PostResume(x) => PostedKept(s, x, id);
      case EndTurn(d, outcome) => EndKept(s, d, outcome, id);
      case Release(h) => HandKept(s, h, id);
      case Fail(d) => FailKept(s, d, id);
      case CancelTake(why) => CancelKept(s, why, id);
      case WithdrawTake(x) => WithdrawKept(s, x, id);
      case Take(d) => TakeKept(s, d, id);
      case Resume(d) => ResumeKept(s, d, id);
      case InboxTake(_) => InboxKept(s, step, id);
      case InboxResume(_) => InboxKept(s, step, id);
    }
    assert Balanced(t, 0);
    forall id ensures Places(t, id) == (if id in t.known then 1 else 0) { assert Balanced(t, id); }
  }

  // ----- how an envelope left -----

  /** Leaving gives an envelope that has no exit yet the one it takes. */
  lemma LeaveOnce(s: State, ids: seq<Id>, exit: Exit, id: Id)
    requires Conserved(s) && HasLeft(s, id) && forall x | x in ids :: x in s.queue
    ensures id in Leave(s.exits, ids, exit) <==> id in s.exits || id in ids
    ensures id in s.exits ==> Leave(s.exits, ids, exit)[id] == s.exits[id]
    ensures id in ids ==> Leave(s.exits, ids, exit)[id] == exit
  {
  }

  predicate Leaves(step: Step) {
    step.Take? || step.InboxTake? || step.CancelTake? || step.WithdrawTake?
  }

  function LeftBy(s: State, step: Step): (seq<Id>, Exit)
    requires Enabled(s, step) && Leaves(step)
  {
    match step
    case Take(_) => (if s.queue == [] then [] else [s.queue[0]], Opened)
    case InboxTake(_) => (s.queue, Steered)
    case CancelTake(why) => (s.queue, Cancelled(why))
    case WithdrawTake(id) => (if id in s.queue then [id] else [], Withdrew)
  }

  lemma LeavesQueue(s: State, step: Step, id: Id)
    requires Enabled(s, step) && Leaves(step) && Conserved(s)
    ensures var (ids, exit) := LeftBy(s, step); var t := Next(s, step);
            && t.exits == Leave(s.exits, ids, exit)
            && (forall x | x in ids :: x in s.queue)
            && (id in t.queue <==> id in s.queue && id !in ids)
            && t.known == s.known && t.posting == s.posting
  {
    match step
    case Take(d) => TakeLeaves(s, d, id);
    case WithdrawTake(x) => WithdrawLeaves(s, x, id);
    case _ =>
  }

  lemma TakeLeaves(s: State, d: nat, id: Id)
    requires Enabled(s, Take(d)) && Conserved(s)
    ensures var t := Next(s, Take(d));
            && t.exits == Leave(s.exits, if s.queue == [] then [] else [s.queue[0]], Opened)
            && (id in t.queue <==> id in s.queue && id != s.queue[0])
            && t.known == s.known && t.posting == s.posting
  {
    if s.queue == [] {
      assert Leave(s.exits, [], Opened) == s.exits;
    } else {
      OncePlaced(s, s.queue[0]);
      WithoutIn(s.queue, 0, id);
      assert Without(s.queue, 0) == s.queue[1..];
    }
  }

  lemma WithdrawLeaves(s: State, x: Id, id: Id)
    requires Conserved(s)
    ensures var t := Next(s, WithdrawTake(x));
            && t.exits == Leave(s.exits, if x in s.queue then [x] else [], Withdrew)
            && (id in t.queue <==> id in s.queue && id != x)
            && t.known == s.known && t.posting == s.posting
  {
    var at := IndexOf(s.queue, x);
    if at < |s.queue| {
      OncePlaced(s, x);
      WithoutIn(s.queue, at, id);
    } else {
      assert Leave(s.exits, [], Withdrew) == s.exits;
    }
  }

  lemma WithoutIn(xs: seq<Id>, i: nat, id: Id)
    requires i < |xs| && Count(xs, xs[i]) == 1
    ensures id in Without(xs, i) <==> id in xs && id != xs[i]
  {
    CountWithout(xs, i, id);
    CountWithout(xs, i, xs[i]);
    CountIn(xs, id);
    CountIn(Without(xs, i), id);
  }

  /** An envelope in the mailbox, still being sent or not yet posted has no exit; each way out
      gives it one, and no step gives it another. */
  lemma LeftKept(s: State, step: Step, id: Id)
    requires Enabled(s, step) && Conserved(s) && HasLeft(s, id)
    ensures HasLeft(Next(s, step), id)
    ensures id in s.exits ==> id in Next(s, step).exits && Next(s, step).exits[id] == s.exits[id]
  {
    if Leaves(step) {
      OncePlaced(s, id);
      var (ids, exit) := LeftBy(s, step);
      LeavesQueue(s, step, id);
      LeaveOnce(s, ids, exit, id);
    } else {
      StaysKept(s, step, id);
    }
  }

  lemma StaysKept(s: State, step: Step, id: Id)
    requires Enabled(s, step) && Conserved(s) && HasLeft(s, id) && !Leaves(step)
    ensures HasLeft(Next(s, step), id) && Next(s, step).exits == s.exits
  {
    if step.PostBegin? || step.Accept? || step.PostResume? {
      PostStays(s, step, id);
    } else {
      DriverStays(s, step);
    }
  }

  lemma PostStays(s: State, step: Step, id: Id)
    requires Enabled(s, step) && Conserved(s) && HasLeft(s, id) && (step.PostBegin? || step.Accept? || step.PostResume?)
    ensures HasLeft(Next(s, step), id) && Next(s, step).exits == s.exits
  {
    match step
    case PostBegin(x) => OncePlaced(s, x);
    case Accept(x) => assert id in Next(s, step).queue <==> id in s.queue || id == x;
    case _ =>
  }

  lemma DriverStays(s: State, step: Step)
    requires Enabled(s, step) && !Leaves(step) && !step.PostBegin? && !step.Accept? && !step.PostResume?
    ensures var t := Next(s, step);
            t.exits == s.exits && t.queue == s.queue && t.known == s.known && t.posting == s.posting
  {
    match step
    case Resume(d) =>
    case EndTurn(d, outcome) =>
    case Release(h) =>
    case _ =>
  }

  lemma OncePlaced(s: State, id: Id)
    requires Conserved(s)
    ensures Places(s, id) == if id in s.known then 1 else 0
    ensures id in s.queue ==> Count(s.queue, id) == 1 && id in s.known && id !in BeingSent(s)
    ensures id !in s.known ==> id !in s.queue
  {
    CountIn(s.queue, id);
  }

  lemma AccountedKept(s: State, step: Step)
    requires Enabled(s, step) && Single(s) && Conserved(s) && Accounted(s)
    ensures Accounted(Next(s, step))
  {
    var t := Next(s, step);
    forall id ensures HasLeft(t, id) {
      assert HasLeft(s, id);
      LeftKept(s, step, id);
    }
    forall id | id in s.exits ensures id in t.exits && t.exits[id] == s.exits[id] {
      assert HasLeft(s, id);
      LeftKept(s, step, id);
    }
    HandsRightKept(s, step);
    EndsRightKept(s, step);
  }

  predicate Remembers(s: State, t: State) {
    forall id | id in s.exits :: id in t.exits && t.exits[id] == s.exits[id]
  }

  lemma HandsRightKept(s: State, step: Step)
    requires Enabled(s, step) && Single(s) && Conserved(s) && Accounted(s) && Remembers(s, Next(s, step))
    ensures HandsRight(Next(s, step))
  {
    var t := Next(s, step);
    forall i | 0 <= i < |t.hands| ensures HandRight(t, t.hands[i]) { HandRightKept(s, step, i); }
    forall i | 0 <= i < |t.drivers| ensures DriverRight(t, t.drivers[i]) { DriverRightKept(s, step); }
  }

  lemma HandRightKept(s: State, step: Step, i: nat)
    requires Enabled(s, step) && Conserved(s) && HandsRight(s) && Remembers(s, Next(s, step))
    requires i < |Next(s, step).hands|
    ensures HandRight(Next(s, step), Next(s, step).hands[i])
  {
    var t := Next(s, step);
    match step
    case Release(h) => HandRemembered(s, t, s.hands[if i < h then i else i + 1]);
    case CancelTake(why) => CancelHands(s, why, i);
    case WithdrawTake(x) => WithdrawHands(s, x, i);
    case _ =>
      HandsSame(s, step);
      HandRemembered(s, t, s.hands[i]);
  }

  lemma HandRemembered(s: State, t: State, h: Hand)
    requires HandRight(s, h) && Remembers(s, t)
    ensures HandRight(t, h)
  {
  }

  lemma HandsSame(s: State, step: Step)
    requires Enabled(s, step) && !step.Release? && !step.CancelTake? && !step.WithdrawTake?
    ensures Next(s, step).hands == s.hands
  {
  }

  lemma CancelHands(s: State, why: Outcome, i: nat)
    requires HandsRight(s) && Remembers(s, Next(s, CancelTake(why))) && i < |Next(s, CancelTake(why)).hands|
    ensures HandRight(Next(s, CancelTake(why)), Next(s, CancelTake(why)).hands[i])
  {
    if i < |s.hands| { HandRemembered(s, Next(s, CancelTake(why)), s.hands[i]); }
  }

  lemma WithdrawHands(s: State, x: Id, i: nat)
    requires HandsRight(s) && Remembers(s, Next(s, WithdrawTake(x))) && i < |Next(s, WithdrawTake(x)).hands|
    ensures HandRight(Next(s, WithdrawTake(x)), Next(s, WithdrawTake(x)).hands[i])
  {
    if i < |s.hands| { HandRemembered(s, Next(s, WithdrawTake(x)), s.hands[i]); }
  }

  lemma DriverRightKept(s: State, step: Step)
    requires Enabled(s, step) && Single(s) && HandsRight(s) && Remembers(s, Next(s, step))
    requires Next(s, step).drivers != []
    ensures DriverRight(Next(s, step), Next(s, step).drivers[0])
  {
    var t := Next(s, step);
    if s.drivers != [] {
      assert DriverRight(s, s.drivers[0]);
      forall id | id in InDriver(t.drivers[0]) ensures ExitOf(t, id, Opened) || ExitOf(t, id, Steered) {
        if id in InDriver(s.drivers[0]) {
          assert id in s.exits;
        } else if step.Take? || step.InboxTake? {
          NewlyTaken(s, step, id);
        } else {
          NothingTaken(s, step, id);
        }
      }
    } else {
      assert InDriver(t.drivers[0]) == [];
    }
  }

  lemma NothingTaken(s: State, step: Step, id: Id)
    requires Enabled(s, step) && |s.drivers| == 1 && Next(s, step).drivers != [] && !step.Take? && !step.InboxTake?
    ensures id in InDriver(Next(s, step).drivers[0]) ==> id in InDriver(s.drivers[0])
  {
  }

  lemma NewlyTaken(s: State, step: Step, id: Id)
    requires Enabled(s, step) && |s.drivers| == 1 && (step.Take? || step.InboxTake?)
    requires Next(s, step).drivers != [] && id in InDriver(Next(s, step).drivers[0]) && id !in InDriver(s.drivers[0])
    ensures ExitOf(Next(s, step), id, Opened) || ExitOf(Next(s, step), id, Steered)
  {
  }

  lemma EndedSame(s: State, step: Step)
    requires Enabled(s, step) && !step.EndTurn? && !step.Release?
    ensures Next(s, step).ended == s.ended
  {
    if step.Take? || step.Resume? || step.InboxTake? || step.InboxResume? || step.Fail? {
      DriverEndsNone(s, step);
    } else {
      OthersEndNone(s, step);
    }
  }

  lemma DriverEndsNone(s: State, step: Step)
    requires Enabled(s, step) && (step.Take? || step.Resume? || step.InboxTake? || step.InboxResume? || step.Fail?)
    ensures Next(s, step).ended == s.ended
  {
  }

  lemma OthersEndNone(s: State, step: Step)
    requires Enabled(s, step)
    requires (step.PostBegin? || step.Accept? || step.PostResume? || step.CancelTake? || step.WithdrawTake?)
    ensures Next(s, step).ended == s.ended
  {
  }

  lemma EndsRightKept(s: State, step: Step)
    requires Enabled(s, step) && Single(s) && Conserved(s) && Accounted(s) && Remembers(s, Next(s, step))
    ensures EndsRight(Next(s, step))
  {
    var t := Next(s, step);
    if !step.EndTurn? && !step.Release? { EndedSame(s, step); }
    forall id | id in t.ended ensures EndRight(t, id) {
      if id in s.ended { assert EndRight(s, id); }
      EndRightKept(s, step, id);
    }
  }

  lemma EndRightKept(s: State, step: Step, id: Id)
    requires Enabled(s, step) && Single(s) && Conserved(s) && HandsRight(s) && Remembers(s, Next(s, step))
    requires id in Next(s, step).ended && (id in s.ended ==> EndRight(s, id))
    requires id in s.ended || step.EndTurn? || step.Release?
    ensures EndRight(Next(s, step), id)
  {
    if id in s.ended {
      EndedStays(s, step, id);
    } else if step.EndTurn? {
      var d := s.drivers[step.d];
      assert DriverRight(s, d) && InDriver(d) == d.consumed;
      assert id in d.consumed;
      assert ExitOf(s, id, Opened) || ExitOf(s, id, Steered);
    } else {
      assert HandRight(s, s.hands[step.h]);
    }
  }

  /** `ended` is resolved at most once: no step resolves it again or changes what it was. */
  lemma EndedStays(s: State, step: Step, id: Id)
    requires Enabled(s, step) && Conserved(s) && id in s.ended
    ensures id in Next(s, step).ended && Next(s, step).ended[id] == s.ended[id]
    ensures id !in s.tracked && id !in Next(s, step).tracked
  {
    OncePlaced(s, id);
    if step.PostBegin? { OncePlaced(s, step.id); }
  }

  // ----- every run -----

  lemma InvKept(s: State, step: Step)
    requires Inv(s) && Enabled(s, step)
    ensures Inv(Next(s, step))
  {
    SingleKept(s, step);
    AwakeKept(s, step);
    ConservedKept(s, step);
    AccountedKept(s, step);
  }

  predicate Runs(s: State, steps: seq<Step>)
    decreases steps
  {
    steps == [] || (Enabled(s, steps[0]) && Runs(Next(s, steps[0]), steps[1..]))
  }

  function After(s: State, steps: seq<Step>): State
    requires Runs(s, steps)
    decreases steps
  {
    if steps == [] then s else After(Next(s, steps[0]), steps[1..])
  }

  lemma {:induction false} RunKeeps(s: State, steps: seq<Step>)
    requires Inv(s) && Runs(s, steps)
    ensures Inv(After(s, steps))
    decreases steps
  {
    if steps != [] {
      InvKept(s, steps[0]);
      RunKeeps(Next(s, steps[0]), steps[1..]);
    }
  }

  lemma FreshInv()
    ensures Inv(FRESH)
  {
    forall id ensures Places(FRESH, id) == 0 && HasLeft(FRESH, id) {}
  }

  /** Over every interleaving: one driver at most; and when none runs, none having failed, the
      mailbox holds only envelopes whose post has not bumped the counter, so that post's own
      continuation will start a driver. */
  lemma NoLostWakeup(steps: seq<Step>)
    requires Runs(FRESH, steps)
    ensures var s := After(FRESH, steps);
            && |s.drivers| <= 1 && (s.running <==> |s.drivers| == 1)
            && (!s.running && !s.faulted ==> forall id | id in s.queue :: id in s.posting && s.posting[id] == Sent)
  {
    FreshInv();
    RunKeeps(FRESH, steps);
  }

  /** Once ended, an envelope stays ended with the same outcome, whatever follows. */
  lemma {:induction false} EndedForever(s: State, steps: seq<Step>, id: Id)
    requires Inv(s) && Runs(s, steps) && id in s.ended
    ensures id in After(s, steps).ended && After(s, steps).ended[id] == s.ended[id]
    decreases steps
  {
    if steps != [] {
      EndedStays(s, steps[0], id);
      InvKept(s, steps[0]);
      EndedForever(Next(s, steps[0]), steps[1..], id);
    }
  }

  lemma QueuedIsPosting(s: State)
    requires Unbumped(s) && s.queue != []
    ensures s.posting != map[]
  {
    assert s.queue[0] in s.queue;
  }

  /** When nothing is under way any more, every envelope posted has been released, save those
      that a failed drive took with it. */
  lemma QuietMeansReleased(steps: seq<Step>)
    requires Runs(FRESH, steps)
    requires var s := After(FRESH, steps); !s.running && !s.faulted && s.posting == map[] && s.hands == []
    ensures var s := After(FRESH, steps); s.queue == [] && s.known == s.ended.Keys + s.lost
  {
    FreshInv();
    RunKeeps(FRESH, steps);
    var s := After(FRESH, steps);
    if s.queue != [] { QueuedIsPosting(s); }
    forall id ensures id in s.known <==> id in s.ended || id in s.lost {
      assert Places(s, id) == if id in s.known then 1 else 0;
      CountIn(s.queue, id);
    }
  }

  /** The one way to strand a completed post is a drive that fails: nothing restarts it until
      the next post. */
  lemma FailureStrands(id: Id)
    ensures var steps := [PostBegin(id)] + ([Accept(id)] + ([PostResume(id)] + ([Fail(0)] + [])));
            && Runs(FRESH, steps)
            && var s := After(FRESH, steps);
            && !s.running && s.posting == map[] && s.queue == [id] && s.ended == map[]
  {
    var s1 := Next(FRESH, PostBegin(id));
    var s2 := Next(s1, Accept(id));
    var s3 := Next(s2, PostResume(id));
    assert s3.drivers == [Taking(1)];
    RunCons(s3, Fail(0), []);
    RunCons(s2, PostResume(id), [Fail(0)] + []);
    RunCons(s1, Accept(id), [PostResume(id)] + ([Fail(0)] + []));
    RunCons(FRESH, PostBegin(id), [Accept(id)] + ([PostResume(id)] + ([Fail(0)] + [])));
  }

  lemma RunCons(s: State, step: Step, rest: seq<Step>)
    requires Enabled(s, step) && Runs(Next(s, step), rest)
    ensures Runs(s, [step] + rest) && After(s, [step] + rest) == After(Next(s, step), rest)
  {
    assert ([step] + rest)[1..] == rest;
  }
}
