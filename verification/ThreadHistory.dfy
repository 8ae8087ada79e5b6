/** What a run of a thread's mailbox and driver amounts to, said of the steps taken rather than of
    the state they lead to (`packages/ai/src/thread.ts`). */
module ThreadHistory {
  import opened Outcomes
  import opened Wrappers
  import opened ThreadProtocol

  lemma {:induction false} RunSnoc(s: State, steps: seq<Step>, last: Step)
    ensures Runs(s, steps + [last]) <==> Runs(s, steps) && Enabled(After(s, steps), last)
    ensures Runs(s, steps + [last]) ==> After(s, steps + [last]) == Next(After(s, steps), last)
    decreases |steps|
  {
    if steps == [] {
      assert [] + [last] == [last] && [last][1..] == [];
    } else {
      assert (steps + [last])[0] == steps[0] && (steps + [last])[1..] == steps[1..] + [last];
      if Enabled(s, steps[0]) { RunSnoc(Next(s, steps[0]), steps[1..], last); }
    }
  }

  /** The run without its last step. */
  lemma RunInit(steps: seq<Step>)
    requires Runs(FRESH, steps) && steps != []
    ensures var n := |steps| - 1;
            && Runs(FRESH, steps[..n]) && Inv(After(FRESH, steps[..n])) && Enabled(After(FRESH, steps[..n]), steps[n])
            && After(FRESH, steps) == Next(After(FRESH, steps[..n]), steps[n])
  {
    var n := |steps| - 1;
    assert steps == steps[..n] + [steps[n]];
    RunSnoc(FRESH, steps[..n], steps[n]);
    FreshInv();
    RunKeeps(FRESH, steps[..n]);
  }

  // ----- how an envelope ends -----

  /** The step that ends an envelope, and how: the end of the turn that consumed it, or the release
      of what a cancel or a withdrawal took. */
  predicate EndedBy(s: State, step: Step, id: Id, outcome: Outcome) {
    match step
    case EndTurn(d, given) =>
      d < |s.drivers| && s.drivers[d].Turning? && id in s.drivers[d].consumed && outcome == given
    case Release(h) => h < |s.hands| && id in s.hands[h].ids && outcome == s.hands[h].why
    case _ => false
  }

  lemma EndsWith(s: State, step: Step, id: Id)
    requires Enabled(s, step) && id !in s.ended && id in Next(s, step).ended
    ensures EndedBy(s, step, id, Next(s, step).ended[id])
  {
    if !step.EndTurn? && !step.Release? { EndedSame(s, step); }
  }

  /** The way out and the step that ended it agree. */
  lemma WayEnds(s: State, step: Step, id: Id)
    requires Inv(s) && Enabled(s, step) && id in Next(s, step).ended
    requires EndedBy(s, step, id, Next(s, step).ended[id])
    ensures id in s.exits && (step.EndTurn? <==> s.exits[id].Opened? || s.exits[id].Steered?)
  {
    match step
    case EndTurn(d, _) => assert DriverRight(s, s.drivers[d]) && id in InDriver(s.drivers[d]);
    case Release(h) => assert HandRight(s, s.hands[h]);
  }

  /** The step of a run that ended an envelope. */
  ghost predicate EndedAt(steps: seq<Step>, j: nat, id: Id, outcome: Outcome)
  {
    && j < |steps| && Runs(FRESH, steps[..j])
    && EndedBy(After(FRESH, steps[..j]), steps[j], id, outcome)
  }

  /** Over every run: an envelope that has ended was ended by one of its steps, with that step's
      outcome; and it is the end of the turn that consumed it exactly if it was opened or steered. */
  lemma {:induction false} EndedByItsTurn(steps: seq<Step>, id: Id)
    requires Runs(FRESH, steps) && id in After(FRESH, steps).ended
    ensures var s := After(FRESH, steps);
            exists j: nat :: EndedAt(steps, j, id, s.ended[id]) && id in s.exits
              && (steps[j].EndTurn? <==> s.exits[id].Opened? || s.exits[id].Steered?)
    decreases |steps|
  {
    if steps != [] {
      RunInit(steps);
      var n := |steps| - 1;
      var before, s := After(FRESH, steps[..n]), After(FRESH, steps);
      AccountedKept(before, steps[n]);
      if id in before.ended {
        EndedByItsTurn(steps[..n], id);
        EndedStays(before, steps[n], id);
        var j: nat :| EndedAt(steps[..n], j, id, before.ended[id]) && id in before.exits
                      && (steps[..n][j].EndTurn? <==> before.exits[id].Opened? || before.exits[id].Steered?);
        assert steps[..n][..j] == steps[..j];
        assert HasLeft(before, id);
        LeftKept(before, steps[n], id);
        assert EndedAt(steps, j, id, s.ended[id]);
      } else {
        EndsWith(before, steps[n], id);
        WayEnds(before, steps[n], id);
        assert HasLeft(before, id);
        LeftKept(before, steps[n], id);
        assert EndedAt(steps, n, id, s.ended[id]);
      }
    }
  }

  /** Over every interleaving, each posted envelope is in exactly one place; it has left the
      mailbox by one way; and if it has ended, some step ended it by that way: the end of the turn
      that consumed it, with the turn's outcome, or the release of what a cancel or a withdrawal
      took, with the reason. */
  lemma ExactlyOnce(steps: seq<Step>, id: Id)
    requires Runs(FRESH, steps) && id in After(FRESH, steps).known
    ensures var s := After(FRESH, steps);
            && Places(s, id) == 1
            && (id in s.tracked <==> id !in s.ended)
            && (id in s.exits <==> id !in BeingSent(s) && id !in s.queue)
            && (id in s.ended ==>
                  && EndRight(s, id)
                  && exists j: nat :: EndedAt(steps, j, id, s.ended[id])
                       && (steps[j].EndTurn? <==> s.exits[id].Opened? || s.exits[id].Steered?))
  {
    FreshInv();
    RunKeeps(FRESH, steps);
    var s := After(FRESH, steps);
    assert HasLeft(s, id) && Places(s, id) == 1;
    if id in s.ended {
      assert EndRight(s, id);
      EndedByItsTurn(steps, id);
    }
  }

  /** A turn's end ends everything the turn consumed, with the turn's outcome. */
  lemma TurnEndsAll(s: State, d: nat, outcome: Outcome, id: Id)
    requires Inv(s) && Enabled(s, EndTurn(d, outcome)) && id in s.drivers[d].consumed
    ensures var t := Next(s, EndTurn(d, outcome)); id in t.ended && t.ended[id] == outcome && id !in t.tracked
  {
    OneDriver(s.drivers[0], id);
    assert s.drivers == [s.drivers[0]];
    CountIn(s.drivers[0].consumed, id);
    assert Places(s, id) == if id in s.known then 1 else 0;
  }

  /** A release ends everything that was in hand, for the reason it was taken. */
  lemma ReleaseEndsAll(s: State, h: nat, id: Id)
    requires Inv(s) && Enabled(s, Release(h)) && id in s.hands[h].ids
    ensures var t := Next(s, Release(h)); id in t.ended && t.ended[id] == s.hands[h].why && id !in t.tracked
  {
    HandsAt(s.hands, h, id);
    CountIn(s.hands[h].ids, id);
    assert Places(s, id) == if id in s.known then 1 else 0;
  }

  lemma TakenInHand(s: State, t: State, id: Id)
    requires |t.hands| == |s.hands| + 1 && t.hands[..|s.hands|] == s.hands && Inv(t)
    requires id in t.hands[|s.hands|].ids
    ensures var u := Next(t, Release(|s.hands|));
            && id in u.ended && u.ended[id] == t.hands[|s.hands|].why && id !in u.queue
            && u.hands == s.hands && u.drivers == t.drivers && u.queue == t.queue
  {
    ReleaseEndsAll(t, |s.hands|, id);
    assert Places(t, id) == if id in t.known then 1 else 0;
    HandsAt(t.hands, |s.hands|, id);
    CountIn(t.hands[|s.hands|].ids, id);
    if id in t.queue { CountIn(t.queue, id); }
  }

  /** A cancel, once it has released what it took, has ended everything that waited, for its reason;
      the running turn and what it consumed are as they were. */
  lemma CancelReleases(s: State, why: Outcome, id: Id)
    requires Inv(s)
    ensures var u := Next(Next(s, CancelTake(why)), Release(|s.hands|));
            && (id in s.queue ==> id in u.ended && u.ended[id] == why)
            && u.queue == [] && u.hands == s.hands && u.drivers == s.drivers
  {
    var t := Next(s, CancelTake(why));
    InvKept(s, CancelTake(why));
    if id in s.queue { TakenInHand(s, t, id); }
    assert Without(t.hands, |s.hands|) == s.hands;
  }

  /** A withdrawal of an envelope that waits ends that one, as withdrawn, and no other; of one that
      does not, it changes nothing. */
  lemma WithdrawReleases(s: State, id: Id, other: Id)
    requires Inv(s)
    ensures id !in s.queue ==> Next(s, WithdrawTake(id)) == s
    ensures id in s.queue ==>
              var u := Next(Next(s, WithdrawTake(id)), Release(|s.hands|));
              && id in u.ended && u.ended[id] == Stopped("withdrawn before a turn took it")
              && id !in u.queue && u.hands == s.hands && u.drivers == s.drivers
              && (other != id ==> (other in u.queue <==> other in s.queue) && (other in u.ended <==> other in s.ended))
  {
    if id in s.queue {
      var t := Next(s, WithdrawTake(id));
      InvKept(s, WithdrawTake(id));
      WithdrawTook(s, id, other);
      TakenInHand(s, t, id);
      if other != id { ReleasesOnly(t, |s.hands|, other); }
    }
  }

  lemma ReleasesOnly(t: State, h: nat, other: Id)
    requires h < |t.hands| && other !in t.hands[h].ids
    ensures other in Next(t, Release(h)).ended <==> other in t.ended
  {
  }

  lemma WithdrawTook(s: State, id: Id, other: Id)
    requires id in s.queue
    ensures var t := Next(s, WithdrawTake(id));
            && |t.hands| == |s.hands| + 1 && t.hands[..|s.hands|] == s.hands
            && t.hands[|s.hands|] == Hand([id], WITHDRAWN) && t.drivers == s.drivers && t.ended == s.ended
            && (other != id ==> (other in t.queue <==> other in s.queue))
  {
    if other != id { OthersWait(s.queue, IndexOf(s.queue, id), other); }
  }

  lemma OthersWait(xs: seq<Id>, at: nat, other: Id)
    requires at < |xs| && other != xs[at]
    ensures other in Without(xs, at) <==> other in xs
  {
    if other in xs {
      var i :| 0 <= i < |xs| && xs[i] == other;
      assert Without(xs, at)[if i < at then i else i - 1] == other;
    }
  }

  /** What waits when a turn looks into its inbox ends with that turn, as what it began with does. */
  lemma InboxEnds(s: State, d: nat, outcome: Outcome, id: Id)
    requires Inv(s) && Enabled(s, InboxTake(d)) && (id in s.queue || id in s.drivers[d].consumed)
    ensures var t := Next(s, InboxTake(d));
            && Enabled(t, InboxResume(d)) && Enabled(Next(t, InboxResume(d)), EndTurn(d, outcome))
            && var u := Next(Next(t, InboxResume(d)), EndTurn(d, outcome));
            && id in u.ended && u.ended[id] == outcome && u.queue == []
  {
    var t := Next(s, InboxTake(d));
    InvKept(s, InboxTake(d));
    InvKept(t, InboxResume(d));
    TurnEndsAll(Next(t, InboxResume(d)), d, outcome, id);
  }

  // ----- who was posted, and whose post is over -----

  /** The envelopes known are those a post began with; a post is open from its beginning to the bump
      of the counter; and a drive has failed if one has since the last post that bumped it. */
  predicate Recalls(steps: seq<Step>, s: State, id: Id) {
    && (id in s.known <==> PostBegin(id) in steps)
    && (id in s.posting <==> PostBegin(id) in steps && PostResume(id) !in steps)
    && (PostResume(id) in steps ==> PostBegin(id) in steps)
    && (s.faulted <==> FailedLast(steps)) && (s.faulted ==> !s.running)
  }

  function FailedLast(steps: seq<Step>): bool
    decreases |steps|
  {
    steps != [] && (steps[|steps| - 1].Fail? || (!steps[|steps| - 1].PostResume? && FailedLast(steps[..|steps| - 1])))
  }

  /** No drive has failed since the last post bumped the counter. */
  lemma {:induction false} FailedLastIs(steps: seq<Step>)
    ensures FailedLast(steps) <==>
            exists j | 0 <= j < |steps| :: steps[j].Fail? && forall k | j < k < |steps| :: !steps[k].PostResume?
    decreases |steps|
  {
    if steps != [] {
      var n := |steps| - 1;
      var before := steps[..n];
      FailedLastIs(before);
      if FailedLast(before) && !steps[n].PostResume? {
        var j :| 0 <= j < n && before[j].Fail? && forall k | j < k < n :: !before[k].PostResume?;
        assert steps[j].Fail? && forall k | j < k < |steps| :: !steps[k].PostResume? by {
          assert forall k | 0 <= k < n :: steps[k] == before[k];
        }
      }
      if j :| 0 <= j < |steps| && steps[j].Fail? && forall k | j < k < |steps| :: !steps[k].PostResume? {
        if j < n {
          assert before[j].Fail? && forall k | j < k < n :: !before[k].PostResume? by {
            assert forall k | 0 <= k < n :: steps[k] == before[k];
          }
        }
      }
    }
  }

  lemma {:induction false} RunRecalls(steps: seq<Step>, id: Id)
    requires Runs(FRESH, steps)
    ensures Recalls(steps, After(FRESH, steps), id)
    decreases |steps|
  {
    if steps != [] {
      RunInit(steps);
      var n := |steps| - 1;
      RunRecalls(steps[..n], id);
      assert steps == steps[..n] + [steps[n]];
      StepRecalls(steps[..n], After(FRESH, steps[..n]), steps[n], id);
    }
  }

  /** Who is known, who is posting and whether a drive has failed, after one more step. */
  lemma StepPosts(s: State, last: Step, id: Id)
    requires Inv(s) && Enabled(s, last)
    ensures var t := Next(s, last);
            && (id in t.known <==> id in s.known || last == PostBegin(id))
            && (id in t.posting <==> (id in s.posting || last == PostBegin(id)) && last != PostResume(id))
            && (last == PostResume(id) ==> id in s.posting)
            && (last == PostBegin(id) ==> id !in s.known)
  {
  }

  lemma StepFaults(s: State, last: Step)
    requires Inv(s) && Enabled(s, last) && (s.faulted ==> !s.running)
    ensures var t := Next(s, last);
            && (t.faulted <==> last.Fail? || (!last.PostResume? && s.faulted))
            && (t.faulted ==> !t.running)
  {
  }

  lemma StepRecalls(steps: seq<Step>, s: State, last: Step, id: Id)
    requires Recalls(steps, s, id) && Inv(s) && Enabled(s, last)
    ensures Recalls(steps + [last], Next(s, last), id)
  {
    StepPosts(s, last, id);
    StepFaults(s, last);
    RecallsSnoc(steps, s, last, Next(s, last), id);
  }

  lemma RecallsSnoc(steps: seq<Step>, s: State, last: Step, t: State, id: Id)
    requires Recalls(steps, s, id)
    requires id in t.known <==> id in s.known || last == PostBegin(id)
    requires id in t.posting <==> (id in s.posting || last == PostBegin(id)) && last != PostResume(id)
    requires (last == PostResume(id) ==> id in s.posting) && (last == PostBegin(id) ==> id !in s.known)
    requires t.faulted <==> last.Fail? || (!last.PostResume? && s.faulted)
    requires t.faulted ==> !t.running
    ensures Recalls(steps + [last], t, id)
  {
    var all := steps + [last];
    assert all[|all| - 1] == last && all[..|all| - 1] == steps;
    assert PostBegin(id) in all <==> PostBegin(id) in steps || last == PostBegin(id);
    assert PostResume(id) in all <==> PostResume(id) in steps || last == PostResume(id);
  }

  // ----- first in, first out -----

  /** The envelopes the mailbox has taken in, in order. */
  function Accepted(steps: seq<Step>): seq<Id>
    decreases |steps|
  {
    if steps == [] then []
    else
      var before, last := Accepted(steps[..|steps| - 1]), steps[|steps| - 1];
      if last.Accept? then before + [last.id] else before
  }

  /** `a` came into the mailbox before `b`. */
  predicate Earlier(acc: seq<Id>, a: Id, b: Id) {
    exists i, j | 0 <= i < j < |acc| :: acc[i] == a && acc[j] == b
  }

  predicate InTurn(acc: seq<Id>, xs: seq<Id>) {
    forall i, j | 0 <= i < j < |xs| :: Earlier(acc, xs[i], xs[j])
  }

  predicate Once(acc: seq<Id>) {
    forall i, j | 0 <= i < j < |acc| :: acc[i] != acc[j]
  }

  /** What waits is in order; what a drive has taken is too; and while an envelope waits, none that
      came after it has left except by a withdrawal. */
  ghost predicate Fair(acc: seq<Id>, s: State) {
    && Once(acc) && (forall id :: id in acc <==> id in s.known && id !in BeingSent(s))
    && InTurn(acc, s.queue)
    && (forall i | 0 <= i < |s.drivers| :: InTurn(acc, InDriver(s.drivers[i])))
    && (forall a, b :: Earlier(acc, a, b) && a in s.queue ==> b in s.queue || ExitOf(s, b, Withdrew))
  }

  lemma EarlierOne(acc: seq<Id>, a: Id, b: Id)
    requires Once(acc) && Earlier(acc, a, b)
    ensures !Earlier(acc, b, a) && a != b && a in acc && b in acc
  {
  }

  lemma EarlierOr(acc: seq<Id>, a: Id, b: Id)
    requires a in acc && b in acc && a != b
    ensures Earlier(acc, a, b) || Earlier(acc, b, a)
  {
    var i :| 0 <= i < |acc| && acc[i] == a;
    var j :| 0 <= j < |acc| && acc[j] == b;
  }

  lemma EarlierSnoc(acc: seq<Id>, x: Id, a: Id, b: Id)
    requires x !in acc
    ensures Earlier(acc + [x], a, b) <==> Earlier(acc, a, b) || (a in acc && b == x)
  {
    var more := acc + [x];
    if Earlier(acc, a, b) {
      var i, j :| 0 <= i < j < |acc| && acc[i] == a && acc[j] == b;
      assert more[i] == a && more[j] == b;
    }
    if a in acc && b == x {
      var i :| 0 <= i < |acc| && acc[i] == a;
      assert more[i] == a && more[|acc|] == x;
    }
  }

  lemma InTurnSnoc(acc: seq<Id>, x: Id, xs: seq<Id>)
    requires x !in acc && InTurn(acc, xs)
    ensures InTurn(acc + [x], xs)
    ensures (forall id | id in xs :: id in acc) ==> InTurn(acc + [x], xs + [x])
  {
    forall i, j | 0 <= i < j < |xs| ensures Earlier(acc + [x], xs[i], xs[j]) { EarlierSnoc(acc, x, xs[i], xs[j]); }
    if forall id | id in xs :: id in acc {
      forall i, j | 0 <= i < j < |xs + [x]| ensures Earlier(acc + [x], (xs + [x])[i], (xs + [x])[j]) {
        EarlierSnoc(acc, x, xs[i], (xs + [x])[j]);
      }
    }
  }

  lemma FairAccept(acc: seq<Id>, s: State, x: Id)
    requires Fair(acc, s) && Inv(s) && Enabled(s, Accept(x))
    ensures Fair(acc + [x], Next(s, Accept(x)))
  {
    var t := Next(s, Accept(x));
    assert x in BeingSent(s) && x !in acc;
    forall id ensures id in acc + [x] <==> id in t.known && id !in BeingSent(t) {
      assert id in BeingSent(t) <==> id in BeingSent(s) && id != x;
    }
    forall id | id in s.queue ensures id in acc { assert HasLeft(s, id); OncePlaced(s, id); }
    InTurnSnoc(acc, x, s.queue);
    forall i | 0 <= i < |t.drivers| ensures InTurn(acc + [x], InDriver(t.drivers[i])) {
      InTurnSnoc(acc, x, InDriver(s.drivers[i]));
    }
    forall a, b | Earlier(acc + [x], a, b) && a in t.queue ensures b in t.queue || ExitOf(t, b, Withdrew) {
      EarlierSnoc(acc, x, a, b);
    }
  }

  lemma HeadFirst(acc: seq<Id>, xs: seq<Id>, a: Id)
    requires Once(acc) && InTurn(acc, xs) && xs != [] && a in xs[1..]
    ensures !Earlier(acc, a, xs[0])
  {
    var i :| 0 <= i < |xs[1..]| && xs[1..][i] == a;
    assert Earlier(acc, xs[0], xs[i + 1]);
    EarlierOne(acc, xs[0], xs[i + 1]);
  }

  lemma InTurnWithout(acc: seq<Id>, xs: seq<Id>, at: nat)
    requires InTurn(acc, xs) && at < |xs|
    ensures InTurn(acc, Without(xs, at))
  {
    var ys := Without(xs, at);
    forall i, j | 0 <= i < j < |ys| ensures Earlier(acc, ys[i], ys[j]) {
      assert Earlier(acc, xs[if i < at then i else i + 1], xs[if j < at then j else j + 1]);
    }
  }

  lemma FairTake(acc: seq<Id>, s: State, d: nat)
    requires Fair(acc, s) && Inv(s) && Enabled(s, Take(d))
    ensures Fair(acc, Next(s, Take(d)))
  {
    var t := Next(s, Take(d));
    LeavesKeeps(acc, s, Take(d));
    assert t.queue == if s.queue == [] then [] else s.queue[1..];
    forall i, j | 0 <= i < j < |t.queue| ensures Earlier(acc, t.queue[i], t.queue[j]) {
      assert Earlier(acc, s.queue[i + 1], s.queue[j + 1]);
    }
    forall a, b | Earlier(acc, a, b) && a in t.queue ensures b in t.queue || ExitOf(t, b, Withdrew) {
      HeadFirst(acc, s.queue, a);
    }
  }

  /** Leaving keeps who is known, who is being sent, and how others left. */
  lemma LeavesKeeps(acc: seq<Id>, s: State, step: Step)
    requires Fair(acc, s) && Inv(s) && Enabled(s, step) && Leaves(step)
    ensures var t := Next(s, step);
            && t.known == s.known && BeingSent(t) == BeingSent(s)
            && (forall id | ExitOf(s, id, Withdrew) :: ExitOf(t, id, Withdrew))
  {
    var t := Next(s, step);
    LeavesQueue(s, step, 0);
    forall id | ExitOf(s, id, Withdrew) ensures ExitOf(t, id, Withdrew) {
      assert HasLeft(s, id);
      LeftKept(s, step, id);
    }
  }

  lemma FairInbox(acc: seq<Id>, s: State, d: nat)
    requires Fair(acc, s) && Inv(s) && Enabled(s, InboxTake(d))
    ensures Fair(acc, Next(s, InboxTake(d)))
  {
    var t := Next(s, InboxTake(d));
    LeavesKeeps(acc, s, InboxTake(d));
    var before := s.drivers[d].consumed;
    assert InDriver(s.drivers[d]) == before && InDriver(t.drivers[0]) == before + s.queue;
    forall i, j | 0 <= i < j < |before + s.queue|
      ensures Earlier(acc, (before + s.queue)[i], (before + s.queue)[j])
    {
      if i < |before| <= j { TakenFirst(acc, s, d, before[i], s.queue[j - |before|]); }
    }
  }

  /** What a turn has taken came before everything that waits. */
  lemma TakenFirst(acc: seq<Id>, s: State, d: nat, a: Id, b: Id)
    requires Fair(acc, s) && Inv(s) && d < |s.drivers| && a in InDriver(s.drivers[d]) && b in s.queue
    ensures Earlier(acc, a, b)
  {
    assert DriverRight(s, s.drivers[d]);
    assert HasLeft(s, a) && HasLeft(s, b);
    OncePlaced(s, b);
    EarlierOr(acc, a, b);
    if Earlier(acc, b, a) { assert a in s.queue || ExitOf(s, a, Withdrew); }
  }

  lemma FairWithdraw(acc: seq<Id>, s: State, x: Id)
    requires Fair(acc, s) && Inv(s)
    ensures Fair(acc, Next(s, WithdrawTake(x)))
  {
    var t := Next(s, WithdrawTake(x));
    LeavesKeeps(acc, s, WithdrawTake(x));
    var at := IndexOf(s.queue, x);
    if at < |s.queue| {
      InTurnWithout(acc, s.queue, at);
      forall a, b | Earlier(acc, a, b) && a in t.queue ensures b in t.queue || ExitOf(t, b, Withdrew) {
        assert a in s.queue;
        WithdrawLeaves(s, x, b);
      }
    }
  }

  lemma FairOther(acc: seq<Id>, s: State, step: Step)
    requires Fair(acc, s) && Inv(s) && Enabled(s, step) && !Leaves(step) && !step.Accept?
    ensures Fair(acc, Next(s, step))
  {
    var t := Next(s, step);
    forall id ensures id in t.known && id !in BeingSent(t) <==> id in s.known && id !in BeingSent(s) {
      AcceptedSame(s, step, id);
    }
    forall i | 0 <= i < |t.drivers| ensures InTurn(acc, InDriver(t.drivers[i])) { FairDriver(acc, s, step); }
    StaysKept(s, step, 0);
  }

  lemma AcceptedSame(s: State, step: Step, id: Id)
    requires Inv(s) && Enabled(s, step) && !Leaves(step) && !step.Accept?
    ensures var t := Next(s, step);
            id in t.known && id !in BeingSent(t) <==> id in s.known && id !in BeingSent(s)
  {
    var t := Next(s, step);
    if step.PostBegin? {
      assert id in BeingSent(t) <==> id in BeingSent(s) || id == step.id;
    } else if step.PostResume? {
      assert id in BeingSent(t) <==> id in BeingSent(s);
    } else {
      DriverStays(s, step);
    }
  }

  lemma FairDriver(acc: seq<Id>, s: State, step: Step)
    requires Fair(acc, s) && Inv(s) && Enabled(s, step) && !Leaves(step) && !step.Accept? && Next(s, step).drivers != []
    ensures InTurn(acc, InDriver(Next(s, step).drivers[0]))
  {
    var t := Next(s, step);
    if s.drivers != [] {
      assert InDriver(t.drivers[0]) == InDriver(s.drivers[0]) || InDriver(t.drivers[0]) == [];
    } else {
      assert InDriver(t.drivers[0]) == [];
    }
  }

  lemma {:induction false} RunFair(steps: seq<Step>)
    requires Runs(FRESH, steps)
    ensures Fair(Accepted(steps), After(FRESH, steps))
    decreases |steps|
  {
    if steps != [] {
      RunInit(steps);
      var n := |steps| - 1;
      RunFair(steps[..n]);
      var acc, s := Accepted(steps[..n]), After(FRESH, steps[..n]);
      match steps[n]
      case Accept(x) => FairAccept(acc, s, x);
      case Take(d) => FairTake(acc, s, d);
      case InboxTake(d) => FairInbox(acc, s, d);
      case WithdrawTake(x) => FairWithdraw(acc, s, x);
      case CancelTake(_) => LeavesKeeps(acc, s, steps[n]);
      case _ => FairOther(acc, s, steps[n]);
    }
  }

  /** Over every run, first in, first out: what waits, and what a turn has taken, is in the order in
      which the mailbox took it in; and nothing is taken or cancelled before what came earlier. */
  lemma FirstInFirstOut(steps: seq<Step>, a: Id, b: Id)
    requires Runs(FRESH, steps) && Earlier(Accepted(steps), a, b)
    ensures var s := After(FRESH, steps);
            && (a in s.queue ==> b in s.queue || ExitOf(s, b, Withdrew))
            && InTurn(Accepted(steps), s.queue)
            && forall i | 0 <= i < |s.drivers| :: InTurn(Accepted(steps), InDriver(s.drivers[i]))
  {
    RunFair(steps);
  }
}
