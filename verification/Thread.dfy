/** The thread and its in-memory mailbox as objects that change in place
    (`packages/ai/src/thread.ts`, `packages/ai/src/mailbox.ts`): each method is one step. */
module ThreadObjects {
  import opened Outcomes
  import opened Wrappers
  import opened ThreadProtocol
  import opened ThreadHistory

  /** `MemoryMailbox`: a queue per thread, and no entry for an empty one. */
  class MemoryMailbox {
    var waiting: map<string, seq<Id>>

    constructor ()
      ensures Valid() && forall t :: Queue(t) == []
    {
      waiting := map[];
    }

    ghost predicate Valid()
      reads this
    {
      forall t | t in waiting :: waiting[t] != []
    }

    function Queue(thread: string): seq<Id>
      reads this
    {
      if thread in waiting then waiting[thread] else []
    }

    method Post(thread: string, id: Id)
      requires Valid()
      modifies this
      ensures Valid() && Queue(thread) == old(Queue(thread)) + [id]
      ensures forall t | t != thread :: Queue(t) == old(Queue(t))
    {
      if thread !in waiting {
        waiting := waiting[thread := [id]];
      } else {
        waiting := waiting[thread := waiting[thread] + [id]];
      }
    }

    /** The first `max` envelopes, or all of them. */
    method TakeUpTo(thread: string, max: Option<nat>) returns (taken: seq<Id>)
      requires Valid()
      modifies this
      ensures Valid() && taken + Queue(thread) == old(Queue(thread))
      ensures max.None? ==> Queue(thread) == []
      ensures max.Some? ==> |taken| == if |old(Queue(thread))| < max.value then |old(Queue(thread))| else max.value
      ensures forall t | t != thread :: Queue(t) == old(Queue(t))
    {
      if thread !in waiting { return []; }
      var queue := waiting[thread];
      var n := if max.None? || |queue| < max.value then |queue| else max.value;
      taken := queue[..n];
      if n == |queue| {
        waiting := waiting - {thread};
      } else {
        waiting := waiting[thread := queue[n..]];
      }
    }

    method Withdraw(thread: string, id: Id) returns (found: bool)
      requires Valid()
      modifies this
      ensures Valid() && found == (id in old(Queue(thread)))
      ensures var at := IndexOf(old(Queue(thread)), id);
              Queue(thread) == if found then Without(old(Queue(thread)), at) else old(Queue(thread))
      ensures forall t | t != thread :: Queue(t) == old(Queue(t))
    {
      if thread !in waiting { return false; }
      var queue := waiting[thread];
      var at := IndexOf(queue, id);
      if at == |queue| { return false; }
      var rest := Without(queue, at);
      if rest == [] {
        waiting := waiting - {thread};
      } else {
        waiting := waiting[thread := rest];
      }
      return true;
    }
  }

  /** Releasing one id after others is releasing them all. */
  lemma ReleaseOneMore(ended: map<Id, Outcome>, tracked: set<Id>, ids: seq<Id>, id: Id, outcome: Outcome)
    ensures Untracked(Untracked(tracked, ids), [id]) == Untracked(tracked, ids + [id])
    ensures Endings(Endings(ended, tracked, ids, outcome), Untracked(tracked, ids), [id], outcome)
         == Endings(ended, tracked, ids + [id], outcome)
  {
    var once := Endings(Endings(ended, tracked, ids, outcome), Untracked(tracked, ids), [id], outcome);
    assert once.Keys == Endings(ended, tracked, ids + [id], outcome).Keys;
  }

  lemma EndOne(ended: map<Id, Outcome>, tracked: set<Id>, id: Id, outcome: Outcome)
    ensures (if id in tracked then ended[id := outcome] else ended) == Endings(ended, tracked, [id], outcome)
    ensures tracked - {id} == Untracked(tracked, [id])
  {
  }

  /** `Thread`, with the mailbox's queue and the calls under way beside its own fields. */
  class Thread {
    var running: bool
    var posted: nat
    var tracked: set<Id>
    var queue: seq<Id>
    var posting: map<Id, Posting>
    var drivers: seq<Driver>
    var hands: seq<Hand>
    var ended: map<Id, Outcome>
    var halting: Option<Option<Outcome>>   // the turn that can be stopped, and why it was
    ghost var exits: map<Id, Exit>
    ghost var known: set<Id>
    ghost var lost: set<Id>
    ghost var faulted: bool

    constructor ()
      ensures Now() == FRESH && Inv(Now()) && halting == None
    {
      running, posted, tracked, queue, posting := false, 0, {}, [], map[];
      drivers, hands, ended, exits := [], [], map[], map[];
      known, lost, faulted, halting := {}, {}, false, None;
      new;
      FreshInv();
    }

    ghost function Now(): State
      reads this
    {
      State(running, posted, tracked, queue, posting, drivers, hands, ended, exits, known, lost, faulted)
    }

    /** `post`, up to the mailbox call. */
    method Post(id: Id)
      requires Inv(Now()) && Enabled(Now(), PostBegin(id))
      modifies this
      ensures Inv(Now()) && Now() == Next(old(Now()), PostBegin(id))
    {
      InvKept(Now(), PostBegin(id));
      tracked := tracked + {id};
      posting := posting[id := Sending];
      known := known + {id};
    }

    method MailboxAccepts(id: Id)
      requires Inv(Now()) && Enabled(Now(), Accept(id))
      modifies this
      ensures Inv(Now()) && Now() == Next(old(Now()), Accept(id))
    {
      InvKept(Now(), Accept(id));
      posting := posting[id := Sent];
      queue := queue + [id];
    }

    /** `post`, after the mailbox call: the counter is bumped before `running` is looked at. */
    method PostContinues(id: Id)
      requires Inv(Now()) && Enabled(Now(), PostResume(id))
      modifies this
      ensures Inv(Now()) && Now() == Next(old(Now()), PostResume(id))
    {
      InvKept(Now(), PostResume(id));
      posting := posting - {id};
      posted := posted + 1;
      if !running {
        running := true;
        drivers := drivers + [Taking(posted)];
        faulted := false;
      }
    }

    method MailboxAnswers(d: nat)
      requires Inv(Now()) && Enabled(Now(), Take(d))
      modifies this
      ensures Inv(Now()) && Now() == Next(old(Now()), Take(d))
    {
      InvKept(Now(), Take(d));
      var seen := drivers[d].seen;
      if queue == [] {
        drivers := drivers[d := Took(seen, None)];
      } else {
        exits := Leave(exits, [queue[0]], Opened);
        drivers := drivers[d := Took(seen, Some(queue[0]))];
        queue := queue[1..];
      }
    }

    /** `drive`, after its `take`: open a turn, look again, or stop. */
    method DriveContinues(d: nat)
      requires Inv(Now()) && Enabled(Now(), Resume(d))
      modifies this
      ensures Inv(Now()) && Now() == Next(old(Now()), Resume(d))
    {
      InvKept(Now(), Resume(d));
      match drivers[d].got
      case Some(id) =>
        drivers := drivers[d := Turning([id], None)];
        halting := Some(None);
      case None =>
        if posted != drivers[d].seen {
          drivers := drivers[d := Taking(posted)];
        } else {
          running := false;
          drivers := Without(drivers, d);
        }
    }

    method InboxAnswers(d: nat)
      requires Inv(Now()) && Enabled(Now(), InboxTake(d))
      modifies this
      ensures Inv(Now()) && Now() == Next(old(Now()), InboxTake(d))
    {
      InvKept(Now(), InboxTake(d));
      exits := Leave(exits, queue, Steered);
      drivers := drivers[d := Turning(drivers[d].consumed, Some(queue))];
      queue := [];
    }

    method InboxContinues(d: nat)
      requires Inv(Now()) && Enabled(Now(), InboxResume(d))
      modifies this
      ensures Inv(Now()) && Now() == Next(old(Now()), InboxResume(d))
    {
      InvKept(Now(), InboxResume(d));
      var consumed, k := drivers[d].consumed, 0;
      var taken := drivers[d].inbox.value;
      while k < |taken|
        invariant 0 <= k <= |taken| && consumed == drivers[d].consumed + taken[..k]
      {
        consumed := consumed + [taken[k]];
        k := k + 1;
      }
      assert taken[..k] == taken;
      drivers := drivers[d := Turning(consumed, None)];
    }

    /** `release`: the end of an envelope is called if it is tracked, and forgotten. */
    method ReleaseOne(id: Id, outcome: Outcome, ghost before: seq<Id>,
                      ghost ended0: map<Id, Outcome>, ghost tracked0: set<Id>)
      requires ended == Endings(ended0, tracked0, before, outcome) && tracked == Untracked(tracked0, before)
      modifies this`ended, this`tracked
      ensures ended == Endings(ended0, tracked0, before + [id], outcome)
      ensures tracked == Untracked(tracked0, before + [id])
    {
      ReleaseOneMore(ended0, tracked0, before, id, outcome);
      EndOne(ended, tracked, id, outcome);
      ended := if id in tracked then ended[id := outcome] else ended;
      tracked := tracked - {id};
    }

    method ReleaseEach(ids: seq<Id>, outcome: Outcome)
      modifies this`ended, this`tracked
      ensures ended == Endings(old(ended), old(tracked), ids, outcome)
      ensures tracked == Untracked(old(tracked), ids)
    {
      var k := 0;
      assert ids[..0] == [];
      while k < |ids|
        invariant 0 <= k <= |ids|
        invariant ended == Endings(old(ended), old(tracked), ids[..k], outcome)
        invariant tracked == Untracked(old(tracked), ids[..k])
      {
        ReleaseOne(ids[k], outcome, ids[..k], old(ended), old(tracked));
        assert ids[..k + 1] == ids[..k] + [ids[k]];
        k := k + 1;
      }
      assert ids[..k] == ids;
    }

    method TurnEnds(d: nat, outcome: Outcome)
      requires Inv(Now()) && Enabled(Now(), EndTurn(d, outcome))
      modifies this
      ensures Inv(Now()) && Now() == Next(old(Now()), EndTurn(d, outcome))
      ensures forall id | id in old(drivers[d].consumed) :: id in ended && ended[id] == outcome && id !in tracked
    {
      forall id | id in drivers[d].consumed
        ensures var t := Next(Now(), EndTurn(d, outcome)); id in t.ended && t.ended[id] == outcome && id !in t.tracked
      {
        TurnEndsAll(Now(), d, outcome, id);
      }
      InvKept(Now(), EndTurn(d, outcome));
      ReleaseEach(drivers[d].consumed, outcome);
      drivers := drivers[d := Taking(posted)];
      halting := None;
    }

    method DriveFails(d: nat)
      requires Inv(Now()) && Enabled(Now(), Fail(d))
      modifies this
      ensures Inv(Now()) && Now() == Next(old(Now()), Fail(d))
    {
      InvKept(Now(), Fail(d));
      lost := lost + set id | id in InDriver(drivers[d]);
      faulted := true;
      running := false;
      drivers := Without(drivers, d);
    }

    /** `stop`: the turn that runs, if one does and was not stopped before, is aborted. */
    method Stop(why: Outcome) returns (stopped: bool)
      modifies this`halting
      ensures stopped == (old(halting) == Some(None))
      ensures halting == if stopped then Some(Some(why)) else old(halting)
    {
      if halting.None? || halting.value.Some? { return false; }
      halting := Some(Some(why));
      return true;
    }

    /** `cancel`, from the mailbox's answer on; the turn was stopped before it was asked. */
    method CancelTakes(why: Outcome)
      requires Inv(Now())
      modifies this
      ensures Inv(Now()) && Now() == Next(old(Now()), CancelTake(why))
    {
      InvKept(Now(), CancelTake(why));
      exits := Leave(exits, queue, Cancelled(why));
      hands := hands + [Hand(queue, why)];
      queue := [];
    }

    method WithdrawTakes(id: Id) returns (withdrawn: bool)
      requires Inv(Now())
      modifies this
      ensures Inv(Now()) && Now() == Next(old(Now()), WithdrawTake(id)) && withdrawn == (id in old(queue))
    {
      InvKept(Now(), WithdrawTake(id));
      var at := IndexOf(queue, id);
      if at == |queue| { return false; }
      exits := Leave(exits, [id], Withdrew);
      hands := hands + [Hand([id], WITHDRAWN)];
      queue := Without(queue, at);
      return true;
    }

    /** What was taken is released; a cancel did something if it stopped a turn or took any. */
    method HandContinues(h: nat, stopped: bool) returns (done: bool)
      requires Inv(Now()) && Enabled(Now(), Release(h))
      modifies this
      ensures Inv(Now()) && Now() == Next(old(Now()), Release(h))
      ensures done == (stopped || old(hands)[h].ids != [])
      ensures forall id | id in old(hands)[h].ids :: id in ended && ended[id] == old(hands)[h].why && id !in tracked
    {
      forall id | id in hands[h].ids
        ensures var t := Next(Now(), Release(h)); id in t.ended && t.ended[id] == hands[h].why && id !in t.tracked
      {
        ReleaseEndsAll(Now(), h, id);
      }
      InvKept(Now(), Release(h));
      done := stopped || hands[h].ids != [];
      ReleaseEach(hands[h].ids, hands[h].why);
      hands := Without(hands, h);
    }
  }
}
