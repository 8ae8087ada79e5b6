/** `Threads` as an object whose maps change in place (`packages/ai/src/threads.ts`): each
    method is one step of the job machine, and `settle`, `release` and `halt` are shared by
    several of them as they are in the source. */
module ThreadsObject {
  import opened Outcomes
  import opened Wrappers
  import opened JobMachine
  import opened JobHistory

  class Threads {
    var jobs: map<JobId, Job>
    var asking: map<ThreadId, JobId>
    var onward: map<ThreadId, ThreadId>
    var pushes: seq<Push>
    var forwarded: set<nat>
    const roots: map<ThreadId, ThreadId>

    constructor (roots: map<ThreadId, ThreadId>)
      ensures Now() == Fresh(roots) && Inv(Now())
    {
      jobs, asking, onward, pushes, forwarded := map[], map[], map[], [], {};
      this.roots := roots;
    }

    ghost function Now(): State
      reads this
    {
      State(jobs, asking, onward, pushes, forwarded, roots)
    }

    /** `ask`, with the `run` it starts. */
    method AskOf(id: JobId, to: ThreadId, replyTo: Option<ThreadId>)
      requires Inv(Now()) && Enabled(Now(), Ask(id, to, replyTo))
      modifies this
      ensures Inv(Now()) && Grown(old(Now()), Now())
      ensures Now() == Next(old(Now()), Ask(id, to, replyTo))
    {
      StepKeeps(Now(), Ask(id, to, replyTo));
      jobs := jobs[id := Job(to, replyTo, Pending, None, None, Posted)];
      if replyTo.Some? { onward := onward[to := replyTo.value]; }
    }

    /** A message for `target` resumes the job held there, or is posted on its own. */
    method Follow(target: ThreadId) returns (resumed: bool)
      requires Inv(Now())
      modifies this
      ensures Inv(Now()) && Grown(old(Now()), Now())
      ensures Now() == Next(old(Now()), FollowUp(target)) && resumed == Asking(old(Now()), target).Some?
    {
      StepKeeps(Now(), FollowUp(target));
      if target !in asking { return false; }
      var id := asking[target];
      if id !in jobs || !jobs[id].state.Holding? { return false; }
      asking := asking - {target};
      jobs := jobs[id := jobs[id].(state := Pending, run := Posted)];
      return true;
    }

    /** The part of `settle` that sets the outcome and hands it out. */
    method FinishJob(id: JobId, outcome: Outcome)
      requires id in jobs
      modifies this`jobs, this`pushes
      ensures Now() == Finish(old(Now()), id, outcome)
    {
      var job := jobs[id].(outcome := Some(outcome), run := Idle);
      if !job.state.Revoked? {
        job := job.(state := if outcome.Held? then Holding else if outcome.Answer? then Done else Failed);
      }
      jobs := jobs[id := job];
      if job.waiter.Some? {
        pushes := pushes + [Push(id, Waiter(job.waiter.value), outcome)];
        return;
      }
      if job.replyTo.None? || job.state.Revoked? { return; }
      var text := ReplyText(outcome);
      if text.Some? {
        pushes := pushes + [Push(id, Event(job.replyTo.value, text.value, outcome.Stopped?), outcome)];
      }
    }

    /** `settle`, up to the lookup of the thread's root. */
    method EnvelopeEnds(id: JobId, outcome: Outcome)
      requires Inv(Now()) && Enabled(Now(), Settle(id, outcome))
      modifies this
      ensures Inv(Now()) && Grown(old(Now()), Now())
      ensures Now() == Next(old(Now()), Settle(id, outcome))
      ensures !outcome.Held? || old(jobs)[id].state.Revoked? ==> SettledAs(old(Now()), Now(), id, outcome)
    {
      if !outcome.Held? || jobs[id].state.Revoked? { SettlementSets(Now(), id, outcome); }
      StepKeeps(Now(), Settle(id, outcome));
      if outcome.Held? && !jobs[id].state.Revoked? {
        jobs := jobs[id := jobs[id].(run := Rooting(outcome))];
      } else {
        FinishJob(id, outcome);
      }
    }

    /** The lookup of a thread's root, which `settle` awaits. */
    method LookUpRoot(thread: ThreadId) returns (root: ThreadId)
      ensures root == RootOf(Now(), thread)
    {
      root := if thread in roots then roots[thread] else thread;
    }

    /** `settle`, after the lookup. */
    method RootFound(id: JobId, root: ThreadId)
      requires Inv(Now()) && Enabled(Now(), SettleRooted(id)) && root == RootOf(Now(), jobs[id].thread)
      modifies this
      ensures Inv(Now()) && Grown(old(Now()), Now())
      ensures Now() == Next(old(Now()), SettleRooted(id))
      ensures root == old(jobs)[id].thread ==> SettledAs(old(Now()), Now(), id, old(jobs)[id].run.held)
      ensures root != old(jobs)[id].thread ==> Asking(Now(), old(jobs)[id].thread) == Some(id)
    {
      if root == jobs[id].thread { RootedSets(Now(), id); } else { RootedHolds(Now(), id); }
      StepKeeps(Now(), SettleRooted(id));
      var job := jobs[id];
      if root != job.thread {
        jobs := jobs[id := job.(state := Holding, run := Idle)];
        asking := asking[job.thread := id];
      } else {
        FinishJob(id, job.run.held);
      }
    }

    /** The outcome at once when there is one, or a new waiter in place of any earlier one. */
    method WaitFor(id: JobId, waiter: WaiterId) returns (known: Option<Outcome>)
      requires Inv(Now())
      modifies this`jobs
      ensures Inv(Now()) && Grown(old(Now()), Now())
      ensures Now() == Next(old(Now()), Wait(id, waiter))
      ensures known == if id !in jobs then Some(Stopped("lost in a restart")) else old(jobs)[id].outcome
    {
      StepKeeps(Now(), Wait(id, waiter));
      if id !in jobs { return Some(Stopped("lost in a restart")); }
      if jobs[id].outcome.Some? { return jobs[id].outcome; }
      jobs := jobs[id := jobs[id].(waiter := Some(waiter))];
      return None;
    }

    method WaiterGivesUp(id: JobId)
      requires Inv(Now())
      modifies this`jobs
      ensures Inv(Now()) && Grown(old(Now()), Now())
      ensures Now() == Next(old(Now()), GiveUp(id))
    {
      StepKeeps(Now(), GiveUp(id));
      if id in jobs { jobs := jobs[id := jobs[id].(waiter := None)]; }
    }

    method Release(id: JobId)
      requires id in jobs
      modifies this`jobs, this`asking, this`pushes
      ensures Now() == ReleaseJob(old(Now()), id)
    {
      var job := jobs[id];
      asking := asking - {job.thread};
      jobs := jobs[id := job.(state := Revoked, outcome := Some(CANCELLED))];
      if job.waiter.Some? { pushes := pushes + [Push(id, Waiter(job.waiter.value), CANCELLED)]; }
    }

    /** `cancel` of a job, up to the withdrawal of its envelope. */
    method CancelJob(id: JobId) returns (ended: bool)
      requires id in jobs
      requires Inv(Now())
      modifies this
      ensures Inv(Now()) && Grown(old(Now()), Now())
      ensures Now() == Next(old(Now()), Cancel(id))
      ensures ended == (old(jobs)[id].outcome.Some? || old(jobs)[id].state.Holding?)
    {
      StepKeeps(Now(), Cancel(id));
      if jobs[id].outcome.Some? { return true; }
      if jobs[id].state.Holding? {
        Release(id);
        return true;
      }
      jobs := jobs[id := jobs[id].(state := Revoked)];
      return false;
    }

    method HaltThread(thread: ThreadId, settling: Option<seq<ThreadId>>) returns (released: bool)
      modifies this
      ensures Now() == HaltOne(old(Now()), thread, settling) && released == Asking(old(Now()), thread).Some?
    {
      if thread !in asking { return false; }
      var id := asking[thread];
      if id !in jobs || !jobs[id].state.Holding? { return false; }
      if settling.None? || (jobs[id].replyTo.Some? && jobs[id].replyTo.value in settling.value) {
        Release(id);
      } else {
        asking := asking - {jobs[id].thread};
        FinishJob(id, STOPPED);
      }
      return true;
    }

    /** `halt`, up to the cancelling of the threads' mailboxes. */
    method HaltThreads(doomed: seq<ThreadId>, settling: Option<seq<ThreadId>>)
      modifies this
      ensures Now() == HaltEach(old(Now()), doomed, settling)
    {
      var k := 0;
      assert doomed[..0] == [];
      while k < |doomed|
        invariant 0 <= k <= |doomed|
        invariant Now() == HaltEach(old(Now()), doomed[..k], settling)
      {
        var _ := HaltThread(doomed[k], settling);
        assert doomed[..k + 1][..k] == doomed[..k];
        k := k + 1;
      }
      assert doomed[..k] == doomed;
    }

    /** `cancel` of a thread, over it and the threads below it. */
    method CancelThreads(doomed: seq<ThreadId>)
      requires Inv(Now())
      modifies this
      ensures Inv(Now()) && Grown(old(Now()), Now())
      ensures Now() == Next(old(Now()), Halt(doomed))
    {
      StepKeeps(Now(), Halt(doomed));
      HaltThreads(doomed, None);
    }

    method MarkUnheard(doomed: seq<ThreadId>)
      modifies this`jobs
      ensures Now() == MarkAll(old(Now()), doomed)
    {
      var todo := jobs.Keys;
      while todo != {}
        invariant todo <= jobs.Keys == old(jobs).Keys
        invariant forall id | id in jobs ::
                    jobs[id] == if id in todo then old(jobs)[id] else Mark(old(jobs)[id], doomed)
        decreases |todo|
      {
        var id :| id in todo;
        var job := jobs[id];
        if job.state.Pending? && job.thread in doomed && job.replyTo.Some? && job.replyTo.value in doomed {
          jobs := jobs[id := job.(state := Revoked)];
        }
        todo := todo - {id};
      }
      assert jobs == MarkAll(old(Now()), doomed).jobs;
    }

    /** `stop`, over the threads it found to stop. */
    method StopThreads(doomed: seq<ThreadId>)
      requires Inv(Now())
      modifies this
      ensures Inv(Now()) && Grown(old(Now()), Now())
      ensures Now() == Next(old(Now()), Stop(doomed))
    {
      StepKeeps(Now(), Stop(doomed));
      MarkUnheard(doomed);
      HaltThreads(doomed, Some(doomed));
    }

    /** `deliver`, after its lookup: the event is posted to the asker, or asked of it in turn
        when the asker itself owes a reply. */
    method DeliverEvent(push: nat, id: JobId)
      requires Inv(Now()) && Enabled(Now(), Forward(push, id))
      modifies this
      ensures Inv(Now()) && Grown(old(Now()), Now())
      ensures Now() == Next(old(Now()), Forward(push, id))
    {
      StepKeeps(Now(), Forward(push, id));
      forwarded := forwarded + {push};
      var to := pushes[push].target.to;
      if to in onward { AskOf(id, to, Some(onward[to])); }
    }
  }
}
