/** The jobs of the supervisor (`packages/ai/src/threads.ts`): what each stretch of code between
    two awaits does to the jobs, to `asking` and to `returns` (here `onward`). */
module JobMachine {
  import opened Outcomes
  import opened Wrappers

  type ThreadId = nat
  type JobId = nat
  type WaiterId = nat

  const CANCELLED := Stopped("cancelled")
  const STOPPED := Stopped("stopped by the user")

  datatype JobState = Pending | Holding | Done | Failed | Revoked

  /** What a job still has under way: a posted envelope whose end has not come, or a
      settlement that looks up the root of the job's thread. */
  datatype Run = Idle | Posted | Rooting(held: Outcome)

  datatype Job = Job(
    thread: ThreadId,
    replyTo: Option<ThreadId>,
    state: JobState,
    outcome: Option<Outcome>,
    waiter: Option<WaiterId>,
    run: Run)

  datatype Target = Waiter(waiter: WaiterId) | Event(to: ThreadId, text: string, failed: bool)

  /** An outcome handed out: a call of the waiter, or a reply event under way. */
  datatype Push = Push(job: JobId, target: Target, outcome: Outcome)

  datatype State = State(
    jobs: map<JobId, Job>,
    asking: map<ThreadId, JobId>,
    onward: map<ThreadId, ThreadId>,
    pushes: seq<Push>,
    forwarded: set<nat>,
    roots: map<ThreadId, ThreadId>)   // the root above each thread below one; it never changes

  function Fresh(roots: map<ThreadId, ThreadId>): State {
    State(map[], map[], map[], [], {}, roots)
  }

  function RootOf(s: State, thread: ThreadId): ThreadId {
    if thread in s.roots then s.roots[thread] else thread
  }

  datatype Step =
    | Ask(id: JobId, to: ThreadId, replyTo: Option<ThreadId>)
    | FollowUp(target: ThreadId)
    | Settle(id: JobId, outcome: Outcome)
    | SettleRooted(id: JobId)
    | Wait(id: JobId, waiter: WaiterId)
    | GiveUp(id: JobId)
    | Cancel(id: JobId)
    | Halt(doomed: seq<ThreadId>)
    | Stop(doomed: seq<ThreadId>)
    | Forward(push: nat, id: JobId)

  predicate Enabled(s: State, step: Step) {
    match step
    case Ask(id, _, _) => id !in s.jobs
    case Settle(id, _) => id in s.jobs && s.jobs[id].run.Posted?
    case SettleRooted(id) => id in s.jobs && s.jobs[id].run.Rooting?
    case Forward(push, id) => push < |s.pushes| && s.pushes[push].target.Event? && push !in s.forwarded && id !in s.jobs
    case _ => true
  }

  /** The job that a follow-up to `thread` resumes and that a halt ends. */
  function Asking(s: State, thread: ThreadId): (id: Option<JobId>)
    ensures id.Some? ==> id.value in s.jobs && s.jobs[id.value].state.Holding?
  {
    if thread in s.asking && s.asking[thread] in s.jobs && s.jobs[s.asking[thread]].state.Holding?
    then Some(s.asking[thread]) else None
  }

  function SetJob(s: State, id: JobId, job: Job): State {
    s.(jobs := s.jobs[id := job])
  }

  function StateFor(outcome: Outcome): JobState {
    match outcome
    case Held(_) => Holding
    case Answer(_) => Done
    case Stopped(_) => Failed
  }

  function ReplyText(outcome: Outcome): Option<string> {
    match outcome
    case Answer(text) => Some(text)
    case Stopped(why) => Some("failed: " + why)
    case Held(_) => None
  }

  /** Whom a job's outcome is handed to when it is set: its waiter, or else the thread it
      replies to, unless it was cancelled or there is nothing to say. */
  function PushFor(id: JobId, job: Job, outcome: Outcome): seq<Push> {
    if job.waiter.Some? then [Push(id, Waiter(job.waiter.value), outcome)]
    else if job.replyTo.None? || job.state.Revoked? || ReplyText(outcome).None? then []
    else [Push(id, Event(job.replyTo.value, ReplyText(outcome).value, outcome.Stopped?), outcome)]
  }

  /** The end of `settle`. */
  function Finish(s: State, id: JobId, outcome: Outcome): State
    requires id in s.jobs
  {
    var job := s.jobs[id];
    var state := if job.state.Revoked? then Revoked else StateFor(outcome);
    var ended := job.(outcome := Some(outcome), state := state, run := Idle);
    SetJob(s, id, ended).(pushes := s.pushes + PushFor(id, ended, outcome))
  }

  /** `release`: it clears whatever `asking` holds for the job's thread. */
  function ReleaseJob(s: State, id: JobId): State
    requires id in s.jobs
  {
    var job := s.jobs[id];
    SetJob(s, id, job.(state := Revoked, outcome := Some(CANCELLED)))
      .(asking := s.asking - {job.thread},
        pushes := s.pushes + if job.waiter.Some? then [Push(id, Waiter(job.waiter.value), CANCELLED)] else [])
  }

  function NewJob(to: ThreadId, replyTo: Option<ThreadId>): Job {
    Job(to, replyTo, Pending, None, None, Posted)
  }

  function AskJob(s: State, id: JobId, to: ThreadId, replyTo: Option<ThreadId>): State {
    SetJob(s, id, NewJob(to, replyTo)).(onward := if replyTo.Some? then s.onward[to := replyTo.value] else s.onward)
  }

  function HoldJob(s: State, id: JobId): State
    requires id in s.jobs
  {
    var job := s.jobs[id];
    SetJob(s, id, job.(state := Holding, run := Idle)).(asking := s.asking[job.thread := id])
  }

  /** Nobody hears a job whose asker is itself stopped. */
  predicate Unheard(job: Job, doomed: seq<ThreadId>) {
    job.replyTo.Some? && job.replyTo.value in doomed
  }

  function Mark(job: Job, doomed: seq<ThreadId>): Job {
    if job.state.Pending? && job.thread in doomed && Unheard(job, doomed) then job.(state := Revoked) else job
  }

  /** What halting one thread does to the job held on it: `cancel` releases it, `stop` settles
      it as stopped unless nobody would hear. */
  function HaltOne(s: State, thread: ThreadId, settling: Option<seq<ThreadId>>): State {
    match Asking(s, thread)
    case None => s
    case Some(id) =>
      if settling.None? || Unheard(s.jobs[id], settling.value) then ReleaseJob(s, id)
      else Finish(s.(asking := s.asking - {s.jobs[id].thread}), id, STOPPED)
  }

  function HaltEach(s: State, threads: seq<ThreadId>, settling: Option<seq<ThreadId>>): State
    decreases |threads|
  {
    if threads == [] then s
    else HaltOne(HaltEach(s, threads[..|threads| - 1], settling), threads[|threads| - 1], settling)
  }

  function MarkAll(s: State, doomed: seq<ThreadId>): State {
    s.(jobs := map id | id in s.jobs :: Mark(s.jobs[id], doomed))
  }

  function Next(s: State, step: Step): State
    requires Enabled(s, step)
  {
    match step
    case Ask(id, to, replyTo) => AskJob(s, id, to, replyTo)
    case FollowUp(target) =>
      (match Asking(s, target)
       case None => s
       case Some(id) =>
         SetJob(s, id, s.jobs[id].(state := Pending, run := Posted)).(asking := s.asking - {target}))
    case Settle(id, outcome) =>
      if outcome.Held? && !s.jobs[id].state.Revoked?
      then SetJob(s, id, s.jobs[id].(run := Rooting(outcome)))
      else Finish(s, id, outcome)
    case SettleRooted(id) =>
      if RootOf(s, s.jobs[id].thread) != s.jobs[id].thread then HoldJob(s, id) else Finish(s, id, s.jobs[id].run.held)
    case Wait(id, waiter) =>
      if id !in s.jobs || s.jobs[id].outcome.Some? then s
      else SetJob(s, id, s.jobs[id].(waiter := Some(waiter)))
    case GiveUp(id) => if id in s.jobs then SetJob(s, id, s.jobs[id].(waiter := None)) else s
    case Cancel(id) =>
      if id !in s.jobs || s.jobs[id].outcome.Some? then s
      else if s.jobs[id].state.Holding? then ReleaseJob(s, id)
      else SetJob(s, id, s.jobs[id].(state := Revoked))
    case Halt(doomed) => HaltEach(s, doomed, None)
    case Stop(doomed) => HaltEach(MarkAll(s, doomed), doomed, Some(doomed))
    case Forward(push, id) =>
      var event := s.pushes[push].target;
      var sent := s.(forwarded := s.forwarded + {push});
      if event.to in s.onward then AskJob(sent, id, event.to, Some(s.onward[event.to])) else sent
  }

  // ----- what every step keeps -----

  /** A job has no outcome exactly while its envelope or its settlement is under way, or while
      it is held; with one, its state says which kind, unless it was cancelled. */
  predicate JobRight(job: Job) {
    match job.outcome
    case Some(outcome) => job.run.Idle? && (job.state.Revoked? || job.state == StateFor(outcome))
    case None =>
      && (job.state.Pending? || job.state.Revoked? || job.state.Holding?)
      && (job.run.Idle? <==> job.state.Holding?)
      && (job.run.Rooting? ==> job.run.held.Held?)
  }

  predicate AskingRight(s: State, thread: ThreadId)
    requires thread in s.asking
  {
    var id := s.asking[thread];
    id in s.jobs && s.jobs[id].thread == thread && s.jobs[id].state.Holding? && s.jobs[id].outcome.None?
  }

  /** A push hands out its job's outcome, and an event goes where the job replies to, saying
      what there is to say, and never for a cancelled job. */
  predicate PushRight(s: State, push: Push) {
    && push.job in s.jobs
    && var job := s.jobs[push.job];
    && job.outcome == Some(push.outcome)
    && (push.target.Event? ==>
          && !job.state.Revoked? && job.replyTo == Some(push.target.to)
          && ReplyText(push.outcome) == Some(push.target.text) && push.target.failed == push.outcome.Stopped?)
  }

  /** Someone is to be told: a waiter, or else the thread the job replies to. */
  predicate Owed(job: Job) {
    && job.outcome.Some?
    && (job.waiter.Some? || (!job.state.Revoked? && job.replyTo.Some? && ReplyText(job.outcome.value).Some?))
  }

  /** The job was handed out, and to its waiter if it has one. */
  predicate Pushed(pushes: seq<Push>, id: JobId, waiter: Option<WaiterId>) {
    exists i | 0 <= i < |pushes| :: pushes[i].job == id && (waiter.Some? ==> pushes[i].target == Waiter(waiter.value))
  }

  predicate Distinct(pushes: seq<Push>) {
    forall i, j | 0 <= i < j < |pushes| :: pushes[i].job != pushes[j].job
  }

  predicate JobsRight(s: State) {
    forall id | id in s.jobs :: JobRight(s.jobs[id]) && (Owed(s.jobs[id]) ==> Pushed(s.pushes, id, s.jobs[id].waiter))
  }

  predicate Inv(s: State) {
    && JobsRight(s)
    && (forall thread | thread in s.asking :: AskingRight(s, thread))
    && (forall i | 0 <= i < |s.pushes| :: PushRight(s, s.pushes[i]))
    && Distinct(s.pushes)
  }

  /** What never changes: whose job it is, an outcome once set with its state, a push. */
  predicate Grown(s: State, t: State) {
    && s.pushes <= t.pushes && t.roots == s.roots
    && forall id | id in s.jobs ::
         && id in t.jobs && t.jobs[id].thread == s.jobs[id].thread && t.jobs[id].replyTo == s.jobs[id].replyTo
         && (s.jobs[id].outcome.Some?
             ==> t.jobs[id].outcome == s.jobs[id].outcome && t.jobs[id].state == s.jobs[id].state)
  }

  lemma Appended(pushes: seq<Push>, more: seq<Push>, id: JobId, waiter: Option<WaiterId>)
    ensures Pushed(pushes, id, waiter) || Pushed(more, id, waiter) ==> Pushed(pushes + more, id, waiter)
  {
    if Pushed(more, id, waiter) {
      var i :| 0 <= i < |more| && more[i].job == id && (waiter.Some? ==> more[i].target == Waiter(waiter.value));
      assert (pushes + more)[|pushes| + i] == more[i];
    }
    if Pushed(pushes, id, waiter) {
      var i :| 0 <= i < |pushes| && pushes[i].job == id && (waiter.Some? ==> pushes[i].target == Waiter(waiter.value));
      assert (pushes + more)[i] == pushes[i];
    }
  }

  /** Any change of one job that has no outcome yet, with at most one push for it. */
  lemma ChangeKeeps(s: State, t: State, id: JobId)
    requires Inv(s) && id in t.jobs && (id in s.jobs ==> s.jobs[id].outcome.None?)
    requires t.jobs == s.jobs[id := t.jobs[id]] && JobRight(t.jobs[id])
    requires forall thread | thread in t.asking ::
               (if t.asking[thread] == id then AskingRight(t, thread)
                else thread in s.asking && t.asking[thread] == s.asking[thread])
    requires t.pushes == s.pushes
          || exists push :: t.pushes == s.pushes + [push] && push.job == id && PushRight(t, push)
    requires Owed(t.jobs[id]) ==> |t.pushes| > |s.pushes|
    requires |t.pushes| > |s.pushes| && t.jobs[id].waiter.Some?
             ==> t.pushes[|s.pushes|].target == Waiter(t.jobs[id].waiter.value)
    ensures Inv(t)
  {
    var more := t.pushes[|s.pushes|..];
    assert t.pushes == s.pushes + more;
    assert forall i | 0 <= i < |s.pushes| :: PushRight(s, s.pushes[i]) && s.pushes[i].job != id;
    forall x | x in t.jobs ensures JobRight(t.jobs[x]) && (Owed(t.jobs[x]) ==> Pushed(t.pushes, x, t.jobs[x].waiter)) {
      Appended(s.pushes, more, x, t.jobs[x].waiter);
      if x == id && Owed(t.jobs[id]) { assert more[0] == t.pushes[|s.pushes|] && more[0].job == id; }
    }
    forall thread | thread in t.asking ensures AskingRight(t, thread) {
      if t.asking[thread] != id { assert AskingRight(s, thread); }
    }
    forall i | 0 <= i < |t.pushes| ensures PushRight(t, t.pushes[i]) {
      if i < |s.pushes| { assert PushRight(s, s.pushes[i]) && t.pushes[i] == s.pushes[i]; }
    }
  }

  predicate NotAsked(s: State, id: JobId) {
    forall thread | thread in s.asking :: s.asking[thread] != id
  }

  lemma FinishKeeps(s: State, id: JobId, outcome: Outcome)
    requires Inv(s) && id in s.jobs && s.jobs[id].outcome.None? && NotAsked(s, id)
    ensures Inv(Finish(s, id, outcome)) && Grown(s, Finish(s, id, outcome))
  {
    var t := Finish(s, id, outcome);
    var more := PushFor(id, t.jobs[id], outcome);
    if more != [] { assert PushRight(t, more[0]); }
    ChangeKeeps(s, t, id);
  }

  lemma ReleaseKeeps(s: State, id: JobId)
    requires Inv(s) && id in s.jobs && s.jobs[id].outcome.None? && s.jobs[id].run.Idle?
    ensures Inv(ReleaseJob(s, id)) && Grown(s, ReleaseJob(s, id))
  {
    var t := ReleaseJob(s, id);
    forall thread | thread in t.asking
      ensures t.asking[thread] != id && thread in s.asking
    {
      assert AskingRight(s, thread);
    }
    if t.pushes != s.pushes { assert PushRight(t, t.pushes[|s.pushes|]); }
    ChangeKeeps(s, t, id);
  }

  lemma AskKeeps(s: State, id: JobId, to: ThreadId, replyTo: Option<ThreadId>)
    requires Inv(s) && id !in s.jobs
    ensures Inv(AskJob(s, id, to, replyTo)) && Grown(s, AskJob(s, id, to, replyTo))
  {
    forall thread | thread in s.asking ensures s.asking[thread] != id { assert AskingRight(s, thread); }
    ChangeKeeps(s, AskJob(s, id, to, replyTo), id);
  }

  lemma HoldKeeps(s: State, id: JobId)
    requires Inv(s) && id in s.jobs && s.jobs[id].outcome.None? && NotAsked(s, id)
    ensures Inv(HoldJob(s, id)) && Grown(s, HoldJob(s, id))
  {
    ChangeKeeps(s, HoldJob(s, id), id);
  }

  /** A running job is not one that `asking` names. */
  lemma RunningNotAsked(s: State, id: JobId)
    requires Inv(s) && id in s.jobs && !s.jobs[id].run.Idle?
    ensures NotAsked(s, id) && s.jobs[id].outcome.None?
  {
    forall thread | thread in s.asking ensures s.asking[thread] != id { assert AskingRight(s, thread); }
  }

  lemma TweakKeeps(s: State, id: JobId, job: Job)
    requires Inv(s) && id in s.jobs && s.jobs[id].outcome.None? && job.outcome.None? && JobRight(job)
    requires job.thread == s.jobs[id].thread && job.replyTo == s.jobs[id].replyTo
    requires job.state.Holding? || NotAsked(s, id)
    ensures Inv(SetJob(s, id, job)) && Grown(s, SetJob(s, id, job))
  {
    var t := SetJob(s, id, job);
    forall thread | thread in t.asking && t.asking[thread] == id
      ensures AskingRight(t, thread)
    {
      assert AskingRight(s, thread);
    }
    ChangeKeeps(s, t, id);
  }

  lemma FollowUpKeeps(s: State, target: ThreadId)
    requires Inv(s)
    ensures var t := Next(s, FollowUp(target)); Inv(t) && Grown(s, t)
  {
    var asked := Asking(s, target);
    if asked.Some? {
      var id := asked.value;
      assert AskingRight(s, target);
      var open := s.(asking := s.asking - {target});
      assert Inv(open);
      forall thread | thread in open.asking ensures open.asking[thread] != id { assert AskingRight(s, thread); }
      TweakKeeps(open, id, s.jobs[id].(state := Pending, run := Posted));
    }
  }

  lemma HaltOneKeeps(s: State, thread: ThreadId, settling: Option<seq<ThreadId>>)
    requires Inv(s)
    ensures Inv(HaltOne(s, thread, settling)) && Grown(s, HaltOne(s, thread, settling))
  {
    var asked := Asking(s, thread);
    if asked.Some? {
      var id := asked.value;
      assert AskingRight(s, thread);
      if settling.None? || Unheard(s.jobs[id], settling.value) {
        ReleaseKeeps(s, id);
      } else {
        var open := s.(asking := s.asking - {thread});
        assert Inv(open);
        forall other | other in open.asking ensures open.asking[other] != id { assert AskingRight(s, other); }
        FinishKeeps(open, id, STOPPED);
      }
    }
  }

  lemma {:induction false} HaltEachKeeps(s: State, threads: seq<ThreadId>, settling: Option<seq<ThreadId>>)
    requires Inv(s)
    ensures Inv(HaltEach(s, threads, settling)) && Grown(s, HaltEach(s, threads, settling))
    decreases |threads|
  {
    if threads != [] {
      var before := HaltEach(s, threads[..|threads| - 1], settling);
      HaltEachKeeps(s, threads[..|threads| - 1], settling);
      HaltOneKeeps(before, threads[|threads| - 1], settling);
      GrownOn(s, before, HaltOne(before, threads[|threads| - 1], settling));
    }
  }

  lemma GrownOn(s: State, t: State, u: State)
    requires Grown(s, t) && Grown(t, u)
    ensures Grown(s, u)
  {
  }

  lemma MarkedRight(s: State, doomed: seq<ThreadId>)
    requires JobsRight(s)
    ensures JobsRight(MarkAll(s, doomed)) && Grown(s, MarkAll(s, doomed))
  {
    var t := MarkAll(s, doomed);
    forall id | id in t.jobs ensures JobRight(t.jobs[id]) && (Owed(t.jobs[id]) ==> Owed(s.jobs[id])) {
      assert JobRight(s.jobs[id]);
    }
  }

  lemma MarkKeeps(s: State, doomed: seq<ThreadId>)
    requires Inv(s)
    ensures Inv(MarkAll(s, doomed)) && Grown(s, MarkAll(s, doomed))
  {
    var t := MarkAll(s, doomed);
    MarkedRight(s, doomed);
    forall thread | thread in t.asking ensures AskingRight(t, thread) { assert AskingRight(s, thread); }
    forall i | 0 <= i < |t.pushes| ensures PushRight(t, t.pushes[i]) { assert PushRight(s, s.pushes[i]); }
  }

  /** Every step keeps the invariant, every outcome and every push. */
  lemma StepKeeps(s: State, step: Step)
    requires Inv(s) && Enabled(s, step)
    ensures Inv(Next(s, step)) && Grown(s, Next(s, step))
  {
    match step
    case Ask(id, to, replyTo) => AskKeeps(s, id, to, replyTo);
    case FollowUp(target) => FollowUpKeeps(s, target);
    case Settle(id, outcome) =>
      RunningNotAsked(s, id);
      if outcome.Held? && !s.jobs[id].state.Revoked? {
        TweakKeeps(s, id, s.jobs[id].(run := Rooting(outcome)));
      } else {
        FinishKeeps(s, id, outcome);
      }
    case SettleRooted(id) =>
      RunningNotAsked(s, id);
      if RootOf(s, s.jobs[id].thread) != s.jobs[id].thread {
        HoldKeeps(s, id);
      } else {
        FinishKeeps(s, id, s.jobs[id].run.held);
      }
    case Wait(id, waiter) => if id in s.jobs && s.jobs[id].outcome.None? { WaitKeeps(s, id, Some(waiter)); }
    case GiveUp(id) => WaitKeeps(s, id, None);
    case Cancel(id) => CancelKeeps(s, id);
    case Halt(doomed) => HaltEachKeeps(s, doomed, None);
    case Stop(doomed) =>
      MarkKeeps(s, doomed);
      HaltEachKeeps(MarkAll(s, doomed), doomed, Some(doomed));
      GrownOn(s, MarkAll(s, doomed), Next(s, step));
    case Forward(push, id) => ForwardKeeps(s, push, id);
  }

  lemma SomeonePushed(pushes: seq<Push>, id: JobId, waiter: Option<WaiterId>)
    requires Pushed(pushes, id, waiter)
    ensures Pushed(pushes, id, None)
  {
  }

  /** A waiter may come while there is no outcome, and may go at any time. */
  lemma WaitKeeps(s: State, id: JobId, waiter: Option<WaiterId>)
    requires Inv(s) && (waiter.None? || (id in s.jobs && s.jobs[id].outcome.None?))
    ensures id in s.jobs ==> var t := SetJob(s, id, s.jobs[id].(waiter := waiter)); Inv(t) && Grown(s, t)
  {
    if id in s.jobs {
      var t := SetJob(s, id, s.jobs[id].(waiter := waiter));
      forall x | x in t.jobs
        ensures JobRight(t.jobs[x]) && (Owed(t.jobs[x]) ==> Pushed(t.pushes, x, t.jobs[x].waiter))
      {
        assert JobRight(s.jobs[x]) && (Owed(s.jobs[x]) ==> Pushed(s.pushes, x, s.jobs[x].waiter));
        if x == id && Owed(t.jobs[x]) { SomeonePushed(s.pushes, x, s.jobs[x].waiter); }
      }
      forall thread | thread in t.asking ensures AskingRight(t, thread) { assert AskingRight(s, thread); }
      forall i | 0 <= i < |t.pushes| ensures PushRight(t, t.pushes[i]) { assert PushRight(s, s.pushes[i]); }
    }
  }

  lemma CancelKeeps(s: State, id: JobId)
    requires Inv(s)
    ensures var t := Next(s, Cancel(id)); Inv(t) && Grown(s, t)
  {
    if id in s.jobs && s.jobs[id].outcome.None? {
      if s.jobs[id].state.Holding? {
        ReleaseKeeps(s, id);
      } else {
        RunningNotAsked(s, id);
        TweakKeeps(s, id, s.jobs[id].(state := Revoked));
      }
    }
  }

  lemma ForwardKeeps(s: State, push: nat, id: JobId)
    requires Inv(s) && Enabled(s, Forward(push, id))
    ensures var t := Next(s, Forward(push, id)); Inv(t) && Grown(s, t)
  {
    var sent := s.(forwarded := s.forwarded + {push});
    assert Inv(sent);
    var to := s.pushes[push].target.to;
    if to in s.onward { AskKeeps(sent, id, to, Some(s.onward[to])); }
  }

  // ----- every run -----

  predicate Runs(s: State, steps: seq<Step>)
    decreases |steps|
  {
    steps == [] || (Enabled(s, steps[0]) && Runs(Next(s, steps[0]), steps[1..]))
  }

  function After(s: State, steps: seq<Step>): State
    requires Runs(s, steps)
    decreases |steps|
  {
    if steps == [] then s else After(Next(s, steps[0]), steps[1..])
  }

  lemma {:induction false} RunKeeps(s: State, steps: seq<Step>)
    requires Inv(s) && Runs(s, steps)
    ensures Inv(After(s, steps)) && Grown(s, After(s, steps))
    decreases |steps|
  {
    if steps != [] {
      var t := Next(s, steps[0]);
      StepKeeps(s, steps[0]);
      RunKeeps(t, steps[1..]);
      GrownOn(s, t, After(t, steps[1..]));
    }
  }

  lemma {:induction false} RunSplits(s: State, first: seq<Step>, later: seq<Step>)
    requires Runs(s, first + later)
    ensures Runs(s, first) && Runs(After(s, first), later) && After(s, first + later) == After(After(s, first), later)
    decreases |first|
  {
    if first == [] {
      assert first + later == later;
    } else {
      assert (first + later)[1..] == first[1..] + later;
      RunSplits(Next(s, first[0]), first[1..], later);
    }
  }

  /** Over every run, an outcome once set never changes, however the run goes on. */
  lemma OutcomeSetOnce(roots: map<ThreadId, ThreadId>, first: seq<Step>, later: seq<Step>, id: JobId)
    requires Runs(Fresh(roots), first + later)
    ensures Runs(Fresh(roots), first)
    ensures var s, t := After(Fresh(roots), first), After(Fresh(roots), first + later);
            id in s.jobs ==> id in t.jobs && (s.jobs[id].outcome.Some? ==>
              t.jobs[id].outcome == s.jobs[id].outcome && t.jobs[id].state == s.jobs[id].state)
  {
    RunSplits(Fresh(roots), first, later);
    RunKeeps(Fresh(roots), first);
    RunKeeps(After(Fresh(roots), first), later);
  }

  /** An event says the answer itself, or why there is none, and never hands out a question. */
  predicate Says(push: Push) {
    push.target.Event? ==>
      && !push.outcome.Held?
      && push.target.text == (if push.outcome.Answer? then push.outcome.text else "failed: " + push.outcome.why)
      && (push.target.failed <==> push.outcome.Stopped?)
  }

  /** Over every run, a job is handed out at most once, to its waiter or as one event; what is
      handed out is its outcome; no event is for a cancelled job; and once a job ended, whoever
      waits for it has been told, and if nobody waited, its asker, unless it was cancelled or
      there is nothing to say. */
  lemma HandedOutOnce(roots: map<ThreadId, ThreadId>, steps: seq<Step>, i: nat, j: nat)
    requires Runs(Fresh(roots), steps) && i < |After(Fresh(roots), steps).pushes|
    requires j < |After(Fresh(roots), steps).pushes|
    ensures var s := After(Fresh(roots), steps);
            && (s.pushes[i].job == s.pushes[j].job ==> i == j)
            && PushRight(s, s.pushes[i]) && Says(s.pushes[i])
            && forall id | id in s.jobs && Owed(s.jobs[id]) :: Pushed(s.pushes, id, s.jobs[id].waiter)
  {
    RunKeeps(Fresh(roots), steps);
    var s := After(Fresh(roots), steps);
    assert PushRight(s, s.pushes[i]);
    if i < j { assert s.pushes[i].job != s.pushes[j].job; }
    if j < i { assert s.pushes[j].job != s.pushes[i].job; }
  }

  /** Over every run, `asking` names held jobs of its threads that have no outcome, and a job
      without an outcome is under way or held. */
  lemma AskingNamesHeld(roots: map<ThreadId, ThreadId>, steps: seq<Step>, thread: ThreadId, id: JobId)
    requires Runs(Fresh(roots), steps)
    ensures var s := After(Fresh(roots), steps);
            && (thread in s.asking ==> AskingRight(s, thread) && Asking(s, thread) == Some(s.asking[thread]))
            && (id in s.jobs && s.jobs[id].outcome.None? ==> !s.jobs[id].run.Idle? || s.jobs[id].state.Holding?)
  {
    RunKeeps(Fresh(roots), steps);
    var s := After(Fresh(roots), steps);
    if thread in s.asking { assert AskingRight(s, thread); }
    if id in s.jobs { assert JobRight(s.jobs[id]); }
  }

  // ----- after a cancel -----

  /** Cancelled for good: no settlement of it that is under way will hold it. */
  predicate Settled(s: State, id: JobId) {
    && id in s.jobs && s.jobs[id].state.Revoked?
    && (s.jobs[id].run.Rooting? ==> RootOf(s, s.jobs[id].thread) == s.jobs[id].thread)
  }

  lemma {:induction false} HaltEachSettled(s: State, threads: seq<ThreadId>, settling: Option<seq<ThreadId>>, id: JobId)
    requires Settled(s, id)
    ensures Settled(HaltEach(s, threads, settling), id)
    decreases |threads|
  {
    if threads != [] { HaltEachSettled(s, threads[..|threads| - 1], settling, id); }
  }

  lemma StepSettled(s: State, step: Step, id: JobId)
    requires Enabled(s, step) && Settled(s, id)
    ensures Settled(Next(s, step), id)
  {
    match step
    case Halt(doomed) => HaltEachSettled(s, doomed, None, id);
    case Stop(doomed) => HaltEachSettled(MarkAll(s, doomed), doomed, Some(doomed), id);
    case _ =>
  }

  lemma {:induction false} RunSettled(s: State, steps: seq<Step>, id: JobId)
    requires Runs(s, steps) && Settled(s, id)
    ensures Settled(After(s, steps), id)
    decreases |steps|
  {
    if steps != [] {
      StepSettled(s, steps[0], id);
      RunSettled(Next(s, steps[0]), steps[1..], id);
    }
  }

  /** A reply event for a job is under way or was sent. */
  predicate Replied(s: State, id: JobId) {
    exists i | 0 <= i < |s.pushes| :: s.pushes[i].job == id && s.pushes[i].target.Event?
  }

  ghost predicate CanReply(s: State, id: JobId) {
    exists steps :: Runs(s, steps) && Replied(After(s, steps), id)
  }

  lemma RunOne(s: State, step: Step, rest: seq<Step>)
    requires Enabled(s, step) && Runs(Next(s, step), rest)
    ensures Runs(s, [step] + rest) && After(s, [step] + rest) == After(Next(s, step), rest)
  {
    assert ([step] + rest)[1..] == rest;
  }

  /** Exactly when a cancelled job may yet send a reply: when the cancel came while the settlement
      of a job as held was looking up its root, which then overwrites the cancel, there being a
      root above its thread and someone to reply to. */
  lemma ReplyAfterCancel(s: State, id: JobId)
    requires Inv(s) && id in s.jobs && s.jobs[id].outcome.None?
    ensures var job := s.jobs[id];
            CanReply(Next(s, Cancel(id)), id)
            <==> job.run.Rooting? && job.replyTo.Some? && RootOf(s, job.thread) != job.thread
  {
    var t := Next(s, Cancel(id));
    StepKeeps(s, Cancel(id));
    if s.jobs[id].replyTo.None? {
      forall steps | Runs(t, steps) ensures !Replied(After(t, steps), id) { NoneToReplyTo(t, steps, id); }
    } else if s.jobs[id].run.Rooting? && RootOf(s, s.jobs[id].thread) != s.jobs[id].thread {
      RunningNotAsked(s, id);
      ReplyInGap(t, id);
    } else {
      forall steps | Runs(t, steps) ensures !Replied(After(t, steps), id) { NeverReplies(t, steps, id); }
    }
  }

  lemma NoneToReplyTo(t: State, steps: seq<Step>, id: JobId)
    requires Inv(t) && id in t.jobs && t.jobs[id].replyTo.None? && Runs(t, steps)
    ensures !Replied(After(t, steps), id)
  {
    RunKeeps(t, steps);
    var u := After(t, steps);
    forall i | 0 <= i < |u.pushes| && u.pushes[i].job == id ensures !u.pushes[i].target.Event? {
      assert PushRight(u, u.pushes[i]);
    }
  }

  /** The run in which it does: whoever waits gives up, the lookup ends, a follow-up resumes the
      job, and it answers. */
  lemma ReplyInGap(t: State, id: JobId)
    requires id in t.jobs && t.jobs[id].outcome.None? && t.jobs[id].run.Rooting? && t.jobs[id].replyTo.Some?
    requires RootOf(t, t.jobs[id].thread) != t.jobs[id].thread
    ensures CanReply(t, id)
  {
    var thread := t.jobs[id].thread;
    var alone := Next(t, GiveUp(id));
    var held := Next(alone, SettleRooted(id));
    assert Asking(held, thread) == Some(id);
    var resumed := Next(held, FollowUp(thread));
    var done := Next(resumed, Settle(id, Answer("done")));
    assert done.pushes[|t.pushes|].job == id && Replied(done, id);
    RunOne(resumed, Settle(id, Answer("done")), []);
    RunOne(held, FollowUp(thread), [Settle(id, Answer("done"))] + []);
    RunOne(alone, SettleRooted(id), [FollowUp(thread)] + ([Settle(id, Answer("done"))] + []));
    RunOne(t, GiveUp(id), [SettleRooted(id)] + ([FollowUp(thread)] + ([Settle(id, Answer("done"))] + [])));
  }

  // ----- what a halt and a stop end -----

  /** How halting its thread ends a held job. */
  function HaltOutcome(job: Job, settling: Option<seq<ThreadId>>): Outcome {
    if settling.None? || Unheard(job, settling.value) then CANCELLED else STOPPED
  }

  /** Halting one thread leaves what is held on the others. */
  lemma HaltOneOther(s: State, other: ThreadId, settling: Option<seq<ThreadId>>, thread: ThreadId)
    requires Inv(s) && thread in s.asking && other != thread
    ensures var t := HaltOne(s, other, settling);
            && thread in t.asking && t.asking[thread] == s.asking[thread]
            && t.jobs[s.asking[thread]] == s.jobs[s.asking[thread]]
  {
    assert AskingRight(s, thread);
    if other in s.asking { assert AskingRight(s, other); }
  }

  lemma HaltOneEnds(s: State, settling: Option<seq<ThreadId>>, thread: ThreadId)
    requires Inv(s) && thread in s.asking
    ensures var id := s.asking[thread];
            && id in s.jobs && id in HaltOne(s, thread, settling).jobs
            && HaltOne(s, thread, settling).jobs[id].outcome == Some(HaltOutcome(s.jobs[id], settling))
  {
    assert AskingRight(s, thread);
  }

  lemma {:induction false} HaltEachEnds(s: State, threads: seq<ThreadId>, settling: Option<seq<ThreadId>>,
                                        thread: ThreadId)
    requires Inv(s) && thread in s.asking
    ensures var id := s.asking[thread];
            var t := HaltEach(s, threads, settling);
            && id in s.jobs && id in t.jobs
            && if thread in threads then t.jobs[id].outcome == Some(HaltOutcome(s.jobs[id], settling))
               else thread in t.asking && t.asking[thread] == id && t.jobs[id] == s.jobs[id]
    decreases |threads|
  {
    assert AskingRight(s, thread);
    if threads != [] {
      var n := |threads| - 1;
      var before := HaltEach(s, threads[..n], settling);
      HaltEachKeeps(s, threads[..n], settling);
      HaltEachEnds(s, threads[..n], settling, thread);
      assert threads == threads[..n] + [threads[n]];
      HaltOneKeeps(before, threads[n], settling);
      if thread !in threads[..n] {
        if threads[n] == thread {
          HaltOneEnds(before, settling, thread);
        } else {
          HaltOneOther(before, threads[n], settling, thread);
        }
      }
    }
  }

  predicate RootedAbove(s: State, id: JobId)
    requires id in s.jobs
  {
    s.jobs[id].run.Rooting? && RootOf(s, s.jobs[id].thread) != s.jobs[id].thread
  }

  /** Halting leaves alone a job that is cancelled already. */
  lemma {:induction false} HaltEachLeaves(s: State, threads: seq<ThreadId>, settling: Option<seq<ThreadId>>, id: JobId)
    requires id in s.jobs && s.jobs[id].state.Revoked?
    ensures var t := HaltEach(s, threads, settling);
            t.roots == s.roots && id in t.jobs && t.jobs[id] == s.jobs[id]
    decreases |threads|
  {
    if threads != [] { HaltEachLeaves(s, threads[..|threads| - 1], settling, id); }
  }

  /** A stop ends every job held on the threads it stops, as stopped, or as cancelled where the
      asker is stopped too. A pending job among them that nobody will hear is cancelled, and may
      yet send a reply exactly when its settlement is looking up a root above its thread. */
  lemma StopEnds(s: State, doomed: seq<ThreadId>, thread: ThreadId, id: JobId)
    requires Inv(s) && thread in doomed && id in s.jobs && s.jobs[id].thread == thread
    ensures var t := Next(s, Stop(doomed));
            && (thread in s.asking && s.asking[thread] == id ==>
                  id in t.jobs && t.jobs[id].outcome == Some(HaltOutcome(s.jobs[id], Some(doomed))))
            && (s.jobs[id].state.Pending? && Unheard(s.jobs[id], doomed) ==>
                  (CanReply(t, id) <==> RootedAbove(s, id)))
  {
    var marked := MarkAll(s, doomed);
    MarkKeeps(s, doomed);
    if thread in s.asking && s.asking[thread] == id {
      assert AskingRight(s, thread) && AskingRight(marked, thread);
      HaltEachEnds(marked, doomed, Some(doomed), thread);
    }
    if s.jobs[id].state.Pending? && Unheard(s.jobs[id], doomed) { StopReplies(s, doomed, id); }
  }

  lemma StopReplies(s: State, doomed: seq<ThreadId>, id: JobId)
    requires Inv(s) && id in s.jobs && s.jobs[id].thread in doomed
    requires s.jobs[id].state.Pending? && Unheard(s.jobs[id], doomed)
    ensures CanReply(Next(s, Stop(doomed)), id) <==> RootedAbove(s, id)
  {
    var marked, t := MarkAll(s, doomed), Next(s, Stop(doomed));
    StepKeeps(s, Stop(doomed));
    HaltEachLeaves(marked, doomed, Some(doomed), id);
    assert t.jobs[id] == s.jobs[id].(state := Revoked) && JobRight(t.jobs[id]);
    if RootedAbove(s, id) {
      ReplyInGap(t, id);
    } else {
      forall steps | Runs(t, steps) ensures !Replied(After(t, steps), id) { NeverReplies(t, steps, id); }
    }
  }

  lemma NeverReplies(t: State, steps: seq<Step>, id: JobId)
    requires Inv(t) && Settled(t, id) && Runs(t, steps)
    ensures !Replied(After(t, steps), id)
  {
    RunSettled(t, steps, id);
    RunKeeps(t, steps);
    var u := After(t, steps);
    forall i | 0 <= i < |u.pushes| && u.pushes[i].job == id ensures !u.pushes[i].target.Event? {
      assert PushRight(u, u.pushes[i]);
    }
  }
}
