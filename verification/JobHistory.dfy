/** What a run of the supervisor's jobs amounts to, said of the steps taken rather than of the state
    they lead to (`packages/ai/src/threads.ts`). */
module JobHistory {
  import opened Outcomes
  import opened Wrappers
  import opened JobMachine

  lemma OneStep(s: State, last: Step)
    requires Runs(s, [last])
    ensures Enabled(s, last) && After(s, [last]) == Next(s, last)
  {
    assert [last][1..] == [];
  }

  lemma RunSnoc(s: State, steps: seq<Step>, last: Step)
    requires Runs(s, steps + [last]) && Inv(s)
    ensures Runs(s, steps) && Inv(After(s, steps)) && Enabled(After(s, steps), last)
    ensures After(s, steps + [last]) == Next(After(s, steps), last)
  {
    RunSplits(s, steps, [last]);
    OneStep(After(s, steps), last);
    RunKeeps(s, steps);
  }

  lemma RunLast(s: State, steps: seq<Step>)
    requires Runs(s, steps) && Inv(s) && steps != []
    ensures var n := |steps| - 1;
            && Runs(s, steps[..n]) && Inv(After(s, steps[..n])) && Enabled(After(s, steps[..n]), steps[n])
            && After(s, steps) == Next(After(s, steps[..n]), steps[n])
  {
    var n := |steps| - 1;
    assert steps == steps[..n] + [steps[n]];
    RunSnoc(s, steps[..n], steps[n]);
  }

  /** The run without its last step. */
  lemma RunInit(roots: map<ThreadId, ThreadId>, steps: seq<Step>)
    requires Runs(Fresh(roots), steps) && steps != []
    ensures var n := |steps| - 1;
            && Runs(Fresh(roots), steps[..n]) && Inv(After(Fresh(roots), steps[..n]))
            && Enabled(After(Fresh(roots), steps[..n]), steps[n])
            && After(Fresh(roots), steps) == Next(After(Fresh(roots), steps[..n]), steps[n])
  {
    RunLast(Fresh(roots), steps);
  }

  // ----- where an outcome comes from -----

  /** The step that sets an outcome, and which: a settlement sets the one its envelope ended with,
      unless it holds the job; one that looked up the root and found none above sets what it held;
      a cancel, a halt or a stop ends a job that is held. */
  predicate Sets(s: State, step: Step, id: JobId, outcome: Outcome) {
    && id in s.jobs
    && var job := s.jobs[id];
       match step
       case Settle(x, given) => x == id && outcome == given && (!given.Held? || job.state.Revoked?)
       case SettleRooted(x) => x == id && job.run == Rooting(outcome) && RootOf(s, job.thread) == job.thread
       case Cancel(x) => x == id && job.state.Holding? && outcome == Stopped("cancelled")
       case Halt(doomed) => job.state.Holding? && job.thread in doomed && outcome == Stopped("cancelled")
       case Stop(doomed) =>
         && job.state.Holding? && job.thread in doomed
         && outcome == Stopped(if job.replyTo.Some? && job.replyTo.value in doomed then "cancelled"
                               else "stopped by the user")
       case _ => false
  }

  lemma HaltOneSets(s: State, thread: ThreadId, settling: Option<seq<ThreadId>>, id: JobId)
    requires Inv(s) && id in s.jobs && s.jobs[id].outcome.None?
    ensures var t := HaltOne(s, thread, settling);
            && id in t.jobs && t.jobs[id].replyTo == s.jobs[id].replyTo && t.jobs[id].thread == s.jobs[id].thread
            && (t.jobs[id].outcome.None? ==> t.jobs[id] == s.jobs[id])
            && (t.jobs[id].outcome.Some? ==>
                  && s.jobs[id].state.Holding? && s.jobs[id].thread == thread
                  && t.jobs[id].outcome.value == HaltOutcome(s.jobs[id], settling))
  {
    if thread in s.asking { assert AskingRight(s, thread); }
  }

  lemma {:induction false} HaltSets(s: State, threads: seq<ThreadId>, settling: Option<seq<ThreadId>>, id: JobId)
    requires Inv(s) && id in s.jobs && s.jobs[id].outcome.None?
    ensures var t := HaltEach(s, threads, settling);
            && id in t.jobs
            && (t.jobs[id].outcome.None? ==> t.jobs[id] == s.jobs[id])
            && (t.jobs[id].outcome.Some? ==>
                  && s.jobs[id].state.Holding? && s.jobs[id].thread in threads
                  && t.jobs[id].outcome.value == HaltOutcome(s.jobs[id], settling))
    decreases |threads|
  {
    if threads != [] {
      var n := |threads| - 1;
      var before := HaltEach(s, threads[..n], settling);
      HaltSets(s, threads[..n], settling, id);
      HaltEachKeeps(s, threads[..n], settling);
      HaltOneKeeps(before, threads[n], settling);
      if before.jobs[id].outcome.None? { HaltOneSets(before, threads[n], settling, id); }
    }
  }

  lemma StepSets(s: State, step: Step, id: JobId)
    requires Inv(s) && Enabled(s, step) && id in Next(s, step).jobs && Next(s, step).jobs[id].outcome.Some?
    requires id in s.jobs ==> s.jobs[id].outcome.None?
    ensures Sets(s, step, id, Next(s, step).jobs[id].outcome.value)
  {
    match step
    case Halt(doomed) =>
      HaltNoNew(s, doomed, None, id);
      HaltSets(s, doomed, None, id);
    case Stop(doomed) => StopSets(s, doomed, id);
    case SettleRooted(x) => RootedOne(s, x, id);
    case Cancel(x) => CancelOne(s, x, id);
    case _ => OtherSets(s, step, id);
  }

  lemma RootedOne(s: State, x: JobId, id: JobId)
    requires Inv(s) && Enabled(s, SettleRooted(x))
    requires id in Next(s, SettleRooted(x)).jobs && Next(s, SettleRooted(x)).jobs[id].outcome.Some?
    requires id in s.jobs ==> s.jobs[id].outcome.None?
    ensures Sets(s, SettleRooted(x), id, Next(s, SettleRooted(x)).jobs[id].outcome.value)
  {
  }

  lemma CancelOne(s: State, x: JobId, id: JobId)
    requires Inv(s) && id in Next(s, Cancel(x)).jobs && Next(s, Cancel(x)).jobs[id].outcome.Some?
    requires id in s.jobs ==> s.jobs[id].outcome.None?
    ensures Sets(s, Cancel(x), id, Next(s, Cancel(x)).jobs[id].outcome.value)
  {
  }

  lemma StopSets(s: State, doomed: seq<ThreadId>, id: JobId)
    requires Inv(s) && id in Next(s, Stop(doomed)).jobs && Next(s, Stop(doomed)).jobs[id].outcome.Some?
    requires id in s.jobs ==> s.jobs[id].outcome.None?
    ensures Sets(s, Stop(doomed), id, Next(s, Stop(doomed)).jobs[id].outcome.value)
  {
    var marked := MarkAll(s, doomed);
    MarkKeeps(s, doomed);
    HaltNoNew(marked, doomed, Some(doomed), id);
    HaltSets(marked, doomed, Some(doomed), id);
  }

  lemma OtherSets(s: State, step: Step, id: JobId)
    requires Inv(s) && Enabled(s, step) && !step.Halt? && !step.Stop? && !step.SettleRooted? && !step.Cancel?
    requires id in Next(s, step).jobs && Next(s, step).jobs[id].outcome.Some?
    requires id in s.jobs ==> s.jobs[id].outcome.None?
    ensures Sets(s, step, id, Next(s, step).jobs[id].outcome.value)
  {
  }

  lemma {:induction false} HaltNoNew(s: State, threads: seq<ThreadId>, settling: Option<seq<ThreadId>>, id: JobId)
    ensures id in HaltEach(s, threads, settling).jobs ==> id in s.jobs
    decreases |threads|
  {
    if threads != [] { HaltNoNew(s, threads[..|threads| - 1], settling, id); }
  }

  ghost predicate SetAt(roots: map<ThreadId, ThreadId>, steps: seq<Step>, j: nat, id: JobId, outcome: Outcome) {
    j < |steps| && Runs(Fresh(roots), steps[..j]) && Sets(After(Fresh(roots), steps[..j]), steps[j], id, outcome)
  }

  /** Over every run, an outcome is the one that some step set. */
  lemma {:induction false} OutcomeFrom(roots: map<ThreadId, ThreadId>, steps: seq<Step>, id: JobId)
    requires Runs(Fresh(roots), steps)
    requires id in After(Fresh(roots), steps).jobs && After(Fresh(roots), steps).jobs[id].outcome.Some?
    ensures exists j: nat :: SetAt(roots, steps, j, id, After(Fresh(roots), steps).jobs[id].outcome.value)
    decreases |steps|
  {
    if steps != [] {
      RunInit(roots, steps);
      var n := |steps| - 1;
      var before, s := After(Fresh(roots), steps[..n]), After(Fresh(roots), steps);
      StepKeeps(before, steps[n]);
      if id in before.jobs && before.jobs[id].outcome.Some? {
        OutcomeFrom(roots, steps[..n], id);
        var j: nat :| SetAt(roots, steps[..n], j, id, before.jobs[id].outcome.value);
        assert steps[..n][..j] == steps[..j];
        assert SetAt(roots, steps, j, id, s.jobs[id].outcome.value);
      } else {
        StepSets(before, steps[n], id);
        assert SetAt(roots, steps, n, id, s.jobs[id].outcome.value);
      }
    }
  }

  // ----- what a settlement does -----

  /** What goes out when an outcome is set: to the waiter the outcome itself; else, unless the job was
      cancelled, to the thread it replies to the answer, or why there is none; nothing for a question
      that is held. */
  function Said(id: JobId, job: Job, outcome: Outcome): seq<Push> {
    match (job.waiter, job.replyTo, outcome)
    case (Some(w), _, _) => [Push(id, Waiter(w), outcome)]
    case (None, Some(to), Answer(text)) =>
      if job.state.Revoked? then [] else [Push(id, Event(to, text, false), outcome)]
    case (None, Some(to), Stopped(why)) =>
      if job.state.Revoked? then [] else [Push(id, Event(to, "failed: " + why, true), outcome)]
    case _ => []
  }

  function StateAfter(job: Job, outcome: Outcome): JobState {
    if job.state.Revoked? then Revoked
    else match outcome case Answer(_) => Done case Stopped(_) => Failed case Held(_) => Holding
  }

  predicate SettledAs(s: State, t: State, id: JobId, outcome: Outcome) {
    && id in s.jobs && id in t.jobs
    && t.jobs[id].outcome == Some(outcome) && t.jobs[id].state == StateAfter(s.jobs[id], outcome)
    && t.pushes == s.pushes + Said(id, s.jobs[id], outcome)
    && forall x | x in s.jobs && x != id :: x in t.jobs && t.jobs[x] == s.jobs[x]
  }

  /** A settlement that does not hold its job sets exactly the outcome its envelope ended with, and
      says it. */
  lemma SettlementSets(s: State, id: JobId, outcome: Outcome)
    requires Inv(s) && Enabled(s, Settle(id, outcome)) && (!outcome.Held? || s.jobs[id].state.Revoked?)
    ensures SettledAs(s, Next(s, Settle(id, outcome)), id, outcome)
  {
  }

  /** One that held a question and finds no root above sets the question. */
  lemma RootedSets(s: State, id: JobId)
    requires Inv(s) && Enabled(s, SettleRooted(id)) && RootOf(s, s.jobs[id].thread) == s.jobs[id].thread
    ensures SettledAs(s, Next(s, SettleRooted(id)), id, s.jobs[id].run.held)
  {
  }

  /** One that finds a root above holds the job, and the thread asks with it. */
  lemma RootedHolds(s: State, id: JobId)
    requires Inv(s) && Enabled(s, SettleRooted(id)) && RootOf(s, s.jobs[id].thread) != s.jobs[id].thread
    ensures var t := Next(s, SettleRooted(id));
            && Asking(t, s.jobs[id].thread) == Some(id) && t.jobs[id].outcome.None? && t.pushes == s.pushes
            && t.jobs[id] == s.jobs[id].(state := Holding, run := Idle)
  {
  }

  /** A follow-up to a thread that asks resumes the job it asks about, and when that is answered the
      answer is set and said; to one that asks nothing, it changes no job. */
  lemma FollowUpAnswered(s: State, target: ThreadId, text: string)
    requires Inv(s)
    ensures Asking(s, target).None? ==> Next(s, FollowUp(target)) == s
    ensures Asking(s, target).Some? ==>
              var id, t := Asking(s, target).value, Next(s, FollowUp(target));
              && s.jobs[id].thread == target && Asking(t, target).None? && t.jobs[id].outcome.None?
              && t.pushes == s.pushes && Enabled(t, Settle(id, Answer(text)))
              && (forall x | x in s.jobs && x != id :: x in t.jobs && t.jobs[x] == s.jobs[x])
              && SettledAs(t, Next(t, Settle(id, Answer(text))), id, Answer(text))
              && Said(id, t.jobs[id], Answer(text)) == Said(id, s.jobs[id], Answer(text))
  {
    if Asking(s, target).Some? {
      assert AskingRight(s, target);
      StepKeeps(s, FollowUp(target));
      SettlementSets(Next(s, FollowUp(target)), Asking(s, target).value, Answer(text));
    }
  }

  /** A cancel ends a job that is held at once: its waiter is told, its asker is not. One under way
      it only marks, so that its asker hears nothing, whatever it ends with; one that has ended it
      leaves alone. */
  lemma CancelDoes(s: State, id: JobId, outcome: Outcome)
    requires Inv(s) && id in s.jobs
    ensures var t, job := Next(s, Cancel(id)), s.jobs[id];
            && id in t.jobs && t.jobs[id].waiter == job.waiter
            && (forall x | x in s.jobs && x != id :: x in t.jobs && t.jobs[x] == s.jobs[x])
            && (job.outcome.Some? ==> t == s)
            && (job.outcome.None? && job.state.Holding? ==>
                  && t.jobs[id].outcome == Some(Stopped("cancelled"))
                  && t.pushes == s.pushes + (if job.waiter.None? then []
                                             else [Push(id, Waiter(job.waiter.value), Stopped("cancelled"))]))
            && (job.outcome.None? && !job.state.Holding? ==>
                  && t.jobs[id].outcome.None? && t.jobs[id].run == job.run && t.pushes == s.pushes
                  && (job.run.Posted? ==>
                        && Enabled(t, Settle(id, outcome))
                        && Next(t, Settle(id, outcome)).jobs[id].outcome == Some(outcome)
                        && Next(t, Settle(id, outcome)).pushes
                           == s.pushes + (if job.waiter.None? then []
                                          else [Push(id, Waiter(job.waiter.value), outcome)])))
  {
  }

  // ----- what is under way -----

  /** A question that is held while the root is looked up is the one the job's envelope ended with. */
  lemma {:induction false} RootingFrom(roots: map<ThreadId, ThreadId>, steps: seq<Step>, id: JobId)
    requires Runs(Fresh(roots), steps)
    requires id in After(Fresh(roots), steps).jobs && After(Fresh(roots), steps).jobs[id].run.Rooting?
    ensures Settle(id, After(Fresh(roots), steps).jobs[id].run.held) in steps
    decreases |steps|
  {
    if steps != [] {
      RunInit(roots, steps);
      var n := |steps| - 1;
      var before := After(Fresh(roots), steps[..n]);
      StepRooting(before, steps[n], id);
      assert steps == steps[..n] + [steps[n]];
      if steps[n] != Settle(id, After(Fresh(roots), steps).jobs[id].run.held) { RootingFrom(roots, steps[..n], id); }
    }
  }

  lemma StepRooting(s: State, step: Step, id: JobId)
    requires Enabled(s, step) && id in Next(s, step).jobs && Next(s, step).jobs[id].run.Rooting?
    ensures step == Settle(id, Next(s, step).jobs[id].run.held)
         || (id in s.jobs && s.jobs[id].run == Next(s, step).jobs[id].run)
  {
    match step
    case Halt(doomed) => HaltRuns(s, doomed, None, id);
    case Stop(doomed) => HaltRuns(MarkAll(s, doomed), doomed, Some(doomed), id);
    case _ =>
  }

  lemma {:induction false} HaltRuns(s: State, threads: seq<ThreadId>, settling: Option<seq<ThreadId>>, id: JobId)
    ensures var t := HaltEach(s, threads, settling);
            && (id in t.jobs <==> id in s.jobs)
            && (id in t.jobs && !t.jobs[id].run.Idle? ==> t.jobs[id].run == s.jobs[id].run)
            && (id in t.jobs ==> t.jobs[id].waiter == s.jobs[id].waiter)
            && t.onward == s.onward
    decreases |threads|
  {
    if threads != [] { HaltRuns(s, threads[..|threads| - 1], settling, id); }
  }

  // ----- who waits -----

  /** A waiter comes with a `wait` while there is no outcome, and goes with the next one or when it
      gives up. */
  lemma StepWaiter(s: State, step: Step, id: JobId)
    requires Enabled(s, step) && id in s.jobs
    ensures id in Next(s, step).jobs
    ensures Next(s, step).jobs[id].waiter ==
            if step.Wait? && step.id == id && s.jobs[id].outcome.None? then Some(step.waiter)
            else if step == GiveUp(id) then None
            else s.jobs[id].waiter
  {
    match step
    case Halt(doomed) => HaltRuns(s, doomed, None, id);
    case Stop(doomed) => HaltRuns(MarkAll(s, doomed), doomed, Some(doomed), id);
    case _ =>
  }

  /** No other waiter comes and this one does not give up. */
  predicate Undisturbed(steps: seq<Step>, id: JobId) {
    forall k | 0 <= k < |steps| :: steps[k] != GiveUp(id) && !(steps[k].Wait? && steps[k].id == id)
  }

  lemma {:induction false} WaiterStays(s: State, steps: seq<Step>, id: JobId)
    requires Inv(s) && Runs(s, steps) && id in s.jobs && Undisturbed(steps, id)
    ensures id in After(s, steps).jobs && After(s, steps).jobs[id].waiter == s.jobs[id].waiter
    decreases |steps|
  {
    if steps != [] {
      StepWaiter(s, steps[0], id);
      StepKeeps(s, steps[0]);
      WaiterStays(Next(s, steps[0]), steps[1..], id);
    }
  }

  /** Whoever waits for a job before it has an outcome, and neither gives up nor is replaced, is told
      that outcome when it has one. */
  lemma WaiterTold(roots: map<ThreadId, ThreadId>, first: seq<Step>, later: seq<Step>, id: JobId, waiter: WaiterId)
    requires Runs(Fresh(roots), first + ([Wait(id, waiter)] + later)) && Undisturbed(later, id)
    ensures Runs(Fresh(roots), first)
    ensures var s, t := After(Fresh(roots), first), After(Fresh(roots), first + ([Wait(id, waiter)] + later));
            id in s.jobs && s.jobs[id].outcome.None? ==>
              && id in t.jobs && t.jobs[id].waiter == Some(waiter)
              && (t.jobs[id].outcome.Some? ==>
                    exists i | 0 <= i < |t.pushes| :: t.pushes[i] == Push(id, Waiter(waiter), t.jobs[id].outcome.value))
  {
    RunSplits(Fresh(roots), first, [Wait(id, waiter)] + later);
    var s := After(Fresh(roots), first);
    RunKeeps(Fresh(roots), first);
    if id in s.jobs && s.jobs[id].outcome.None? {
      assert ([Wait(id, waiter)] + later)[1..] == later;
      var mid := Next(s, Wait(id, waiter));
      StepKeeps(s, Wait(id, waiter));
      WaiterStays(mid, later, id);
      RunKeeps(mid, later);
      var t := After(mid, later);
      if t.jobs[id].outcome.Some? {
        assert Owed(t.jobs[id]);
        var i :| 0 <= i < |t.pushes| && t.pushes[i].job == id && t.pushes[i].target == Waiter(waiter);
        assert PushRight(t, t.pushes[i]);
      }
    }
  }

  // ----- where replies go -----

  /** The thread that last asked each thread for a reply. */
  function Askers(steps: seq<Step>): map<ThreadId, ThreadId>
    decreases |steps|
  {
    if steps == [] then map[]
    else
      var before, last := Askers(steps[..|steps| - 1]), steps[|steps| - 1];
      if last.Ask? && last.replyTo.Some? then before[last.to := last.replyTo.value] else before
  }

  lemma {:induction false} RunAskers(roots: map<ThreadId, ThreadId>, steps: seq<Step>)
    requires Runs(Fresh(roots), steps)
    ensures After(Fresh(roots), steps).onward == Askers(steps)
    decreases |steps|
  {
    if steps != [] {
      RunInit(roots, steps);
      var n := |steps| - 1;
      RunAskers(roots, steps[..n]);
      StepAskers(After(Fresh(roots), steps[..n]), steps[n]);
    }
  }

  lemma StepAskers(s: State, step: Step)
    requires Enabled(s, step)
    ensures Next(s, step).onward ==
            if step.Ask? && step.replyTo.Some? then s.onward[step.to := step.replyTo.value] else s.onward
  {
    match step
    case Halt(doomed) => HaltRuns(s, doomed, None, 0);
    case Stop(doomed) => HaltRuns(MarkAll(s, doomed), doomed, Some(doomed), 0);
    case Forward(push, id) =>
      var to := s.pushes[push].target.to;
      if to in s.onward { assert s.onward[to := s.onward[to]] == s.onward; }
    case _ =>
  }

  /** The step that made a job: an ask, or a reply that came to a thread which owes one itself. */
  ghost predicate MadeAt(roots: map<ThreadId, ThreadId>, steps: seq<Step>, j: nat, id: JobId, job: Job) {
    && j < |steps| && Runs(Fresh(roots), steps[..j])
    && match steps[j]
       case Ask(x, to, replyTo) => x == id && job.thread == to && job.replyTo == replyTo
       case Forward(push, x) =>
         && x == id && push < |After(Fresh(roots), steps[..j]).pushes|
         && var target := After(Fresh(roots), steps[..j]).pushes[push].target;
            && target.Event? && job.thread == target.to && target.to in Askers(steps[..j])
            && job.replyTo == Some(Askers(steps[..j])[target.to])
       case _ => false
  }

  /** Over every run, a job is of the thread that was asked and replies to the one that asked it; and
      a reply to a thread that owes one itself is asked on, for whoever last asked that thread. */
  lemma {:induction false} JobFrom(roots: map<ThreadId, ThreadId>, steps: seq<Step>, id: JobId)
    requires Runs(Fresh(roots), steps) && id in After(Fresh(roots), steps).jobs
    ensures exists j: nat :: MadeAt(roots, steps, j, id, After(Fresh(roots), steps).jobs[id])
    decreases |steps|
  {
    if steps != [] {
      RunInit(roots, steps);
      var n := |steps| - 1;
      var before, s := After(Fresh(roots), steps[..n]), After(Fresh(roots), steps);
      StepKeeps(before, steps[n]);
      if id in before.jobs {
        JobFrom(roots, steps[..n], id);
        var j: nat :| MadeAt(roots, steps[..n], j, id, before.jobs[id]);
        assert steps[..n][..j] == steps[..j];
        assert MadeAt(roots, steps, j, id, s.jobs[id]);
      } else {
        StepMakes(before, steps[n], id);
        RunAskers(roots, steps[..n]);
        assert MadeAt(roots, steps, n, id, s.jobs[id]);
      }
    }
  }

  lemma StepMakes(s: State, step: Step, id: JobId)
    requires Enabled(s, step) && id !in s.jobs && id in Next(s, step).jobs
    ensures match step
            case Ask(x, to, replyTo) =>
              x == id && Next(s, step).jobs[id].thread == to && Next(s, step).jobs[id].replyTo == replyTo
            case Forward(push, x) =>
              && x == id && s.pushes[push].target.to in s.onward
              && Next(s, step).jobs[id].thread == s.pushes[push].target.to
              && Next(s, step).jobs[id].replyTo == Some(s.onward[s.pushes[push].target.to])
            case _ => false
  {
    match step
    case Halt(doomed) => HaltRuns(s, doomed, None, id);
    case Stop(doomed) => HaltRuns(MarkAll(s, doomed), doomed, Some(doomed), id);
    case _ =>
  }
}
