/** Budgets of threads that spend for their ancestors too (`packages/ai/src/budget.ts`). */
module BudgetTree {
  import opened Wrappers

  type ThreadId = nat

  datatype Limits = Limits(steps: Option<int>, tokens: Option<int>, deadline: Option<int>)

  datatype Usage = Usage(steps: nat, tokens: nat)

  datatype Account = Account(parent: Option<ThreadId>, limits: Limits, steps: int, tokens: int)

  type Accounts = map<ThreadId, Account>

  const UNLIMITED := Limits(None, None, None)

  function Tighter(a: Option<int>, b: Option<int>): Option<int> {
    if a.None? then b else if b.None? then a else Some(if a.value <= b.value then a.value else b.value)
  }

  function Within(a: Limits, b: Limits): Limits {
    Limits(Tighter(a.steps, b.steps), Tighter(a.tokens, b.tokens), Tighter(a.deadline, b.deadline))
  }

  /** The accounts from a thread up, each once, as far as they are there. */
  function Chain(accounts: Accounts, at: Option<ThreadId>, seen: set<ThreadId>): (chain: seq<ThreadId>)
    ensures forall id | id in chain :: id in accounts && id !in seen
    ensures forall i, j | 0 <= i < j < |chain| :: chain[i] != chain[j]
    decreases |accounts.Keys - seen|
  {
    if at.None? || at.value in seen || at.value !in accounts then []
    else
      Smaller(accounts.Keys, seen, at.value);
      [at.value] + Chain(accounts, accounts[at.value].parent, seen + {at.value})
  }

  lemma Smaller(all: set<ThreadId>, seen: set<ThreadId>, id: ThreadId)
    requires id in all && id !in seen
    ensures |all - (seen + {id})| < |all - seen|
  {
    assert all - (seen + {id}) == (all - seen) - {id};
  }

  /** What one account has left. */
  function Left(account: Account): Limits {
    Limits(if account.limits.steps.None? then None else Some(account.limits.steps.value - account.steps),
           if account.limits.tokens.None? then None else Some(account.limits.tokens.value - account.tokens),
           account.limits.deadline)
  }

  function LeftAlong(accounts: Accounts, chain: seq<ThreadId>): Limits
    requires forall id | id in chain :: id in accounts
    decreases |chain|
  {
    if chain == [] then UNLIMITED
    else
      assert forall id | id in chain[..|chain| - 1] :: id in chain;
      Within(LeftAlong(accounts, chain[..|chain| - 1]), Left(accounts[chain[|chain| - 1]]))
  }

  function Remaining(accounts: Accounts, thread: ThreadId): Limits {
    LeftAlong(accounts, Chain(accounts, Some(thread), {}))
  }

  function Opened(accounts: Accounts, thread: ThreadId, parent: Option<ThreadId>, asked: Limits): Accounts {
    var granted := if parent.None? then asked else Within(asked, Remaining(accounts, parent.value));
    accounts[thread := Account(parent, granted, 0, 0)]
  }

  function Charged(accounts: Accounts, chain: seq<ThreadId>, usage: Usage): Accounts {
    map id | id in accounts ::
      if id in chain
      then accounts[id].(steps := accounts[id].steps + usage.steps, tokens := accounts[id].tokens + usage.tokens)
      else accounts[id]
  }

  // ----- a tree opened parent-first -----

  /** `order` lists the accounts as they were opened, `at` says where each is listed, and `own`
      what each was charged itself. */
  datatype State = State(accounts: Accounts, order: seq<ThreadId>, at: map<ThreadId, nat>, own: map<ThreadId, Usage>)

  const EMPTY := State(map[], [], map[], map[])

  datatype Step =
    | Open(thread: ThreadId, parent: Option<ThreadId>, asked: Limits)
    | Charge(thread: ThreadId, usage: Usage)

  predicate Enabled(s: State, step: Step) {
    match step
    case Open(thread, parent, _) => thread !in s.accounts && (parent.Some? ==> parent.value in s.accounts)
    case Charge(thread, _) => true
  }

  function Next(s: State, step: Step): State
    requires Enabled(s, step)
  {
    match step
    case Open(thread, parent, asked) =>
      State(Opened(s.accounts, thread, parent, asked), s.order + [thread], s.at[thread := |s.order|],
            s.own[thread := Usage(0, 0)])
    case Charge(thread, usage) =>
      var own :=
        if thread in s.own
        then s.own[thread := Usage(s.own[thread].steps + usage.steps, s.own[thread].tokens + usage.tokens)]
        else s.own;
      State(Charged(s.accounts, Chain(s.accounts, Some(thread), {}), usage), s.order, s.at, own)
  }

  /** Every account is listed once, and after its parent. */
  predicate Listed(s: State, id: ThreadId)
    requires id in s.accounts
  {
    var parent := s.accounts[id].parent;
    && id in s.own && id in s.at && s.at[id] < |s.order| && s.order[s.at[id]] == id
    && (parent.Some? ==> parent.value in s.accounts && parent.value in s.at && s.at[parent.value] < s.at[id])
  }

  predicate Tree(s: State) {
    && (forall id | id in s.accounts :: Listed(s, id))
    && (forall i | 0 <= i < |s.order| :: s.order[i] in s.accounts && s.order[i] in s.at && s.at[s.order[i]] == i)
    && s.own.Keys == s.accounts.Keys
  }

  /** A chain only goes to accounts opened before, so it meets none of those seen later. */
  lemma {:induction false} ChainBefore(s: State, id: ThreadId, seen: set<ThreadId>)
    requires Tree(s) && id in s.accounts
    requires forall x | x in seen :: x in s.at && s.at[x] > s.at[id]
    ensures Chain(s.accounts, Some(id), seen) == Chain(s.accounts, Some(id), {})
    decreases s.at[id]
  {
    assert Listed(s, id);
    var parent := s.accounts[id].parent;
    if parent.Some? {
      ChainBefore(s, parent.value, seen + {id});
      ChainBefore(s, parent.value, {} + {id});
    }
  }

  /** A thread's chain is itself and then its parent's chain. */
  lemma ChainUp(s: State, id: ThreadId)
    requires Tree(s) && id in s.accounts
    ensures Chain(s.accounts, Some(id), {}) == [id] + Chain(s.accounts, s.accounts[id].parent, {})
  {
    assert Listed(s, id);
    var parent := s.accounts[id].parent;
    if parent.Some? { ChainBefore(s, parent.value, {} + {id}); }
  }

  // ----- what a thread has left -----

  predicate NoMore(a: Option<int>, b: Option<int>) {
    b.Some? ==> a.Some? && a.value <= b.value
  }

  predicate NoMoreThan(a: Limits, b: Limits) {
    NoMore(a.steps, b.steps) && NoMore(a.tokens, b.tokens) && NoMore(a.deadline, b.deadline)
  }

  lemma {:induction false} LeftJoin(accounts: Accounts, a: seq<ThreadId>, b: seq<ThreadId>)
    requires (forall id | id in a :: id in accounts) && (forall id | id in b :: id in accounts)
    ensures forall id | id in a + b :: id in accounts
    ensures LeftAlong(accounts, a + b) == Within(LeftAlong(accounts, a), LeftAlong(accounts, b))
    decreases |b|
  {
    if b == [] {
      assert a + b == a;
    } else {
      var before := b[..|b| - 1];
      assert (a + b)[..|a + b| - 1] == a + before;
      assert forall id | id in before :: id in b;
      LeftJoin(accounts, a, before);
      WithinAssociates(LeftAlong(accounts, a), LeftAlong(accounts, before), Left(accounts[b[|b| - 1]]));
    }
  }

  lemma WithinAssociates(a: Limits, b: Limits, c: Limits)
    ensures Within(Within(a, b), c) == Within(a, Within(b, c))
  {
  }

  /** A thread never has more left than its parent, in any component. */
  lemma ChildWithin(s: State, id: ThreadId)
    requires Tree(s) && id in s.accounts
    ensures s.accounts[id].parent.Some?
            ==> NoMoreThan(Remaining(s.accounts, id), Remaining(s.accounts, s.accounts[id].parent.value))
    ensures NoMoreThan(Remaining(s.accounts, id), Left(s.accounts[id]))
  {
    RemainingUp(s, id);
    var above := Chain(s.accounts, s.accounts[id].parent, {});
    WithinBoth(Left(s.accounts[id]), LeftAlong(s.accounts, above));
  }

  lemma RemainingUp(s: State, id: ThreadId)
    requires Tree(s) && id in s.accounts
    ensures Remaining(s.accounts, id)
         == Within(Left(s.accounts[id]), LeftAlong(s.accounts, Chain(s.accounts, s.accounts[id].parent, {})))
  {
    ChainUp(s, id);
    LeftJoin(s.accounts, [id], Chain(s.accounts, s.accounts[id].parent, {}));
    assert [id][..0] == [] && LeftAlong(s.accounts, [id]) == Within(UNLIMITED, Left(s.accounts[id]));
  }

  lemma WithinBoth(a: Limits, b: Limits)
    ensures NoMoreThan(Within(a, b), a) && NoMoreThan(Within(a, b), b)
  {
  }

  /** What both of two limits allow is no more than their `Within`: it is the greatest such. */
  lemma WithinGreatest(a: Limits, b: Limits, c: Limits)
    ensures NoMoreThan(c, Within(a, b)) <==> NoMoreThan(c, a) && NoMoreThan(c, b)
  {
  }

  /** What is left of a limit, for one component: some account on the chain has exactly that
      left, or no account on it has a limit. */
  predicate Met(accounts: Accounts, chain: seq<ThreadId>, part: Limits -> Option<int>, left: Option<int>)
    requires forall x | x in chain :: x in accounts
  {
    if left.Some? then exists x | x in chain :: part(Left(accounts[x])) == left
    else forall x | x in chain :: part(Left(accounts[x])).None?
  }

  const STEPS: Limits -> Option<int> := (limits: Limits) => limits.steps
  const TOKENS: Limits -> Option<int> := (limits: Limits) => limits.tokens
  const DEADLINE: Limits -> Option<int> := (limits: Limits) => limits.deadline

  lemma MetMore(accounts: Accounts, chain: seq<ThreadId>, id: ThreadId, part: Limits -> Option<int>,
                before: Option<int>)
    requires (forall x | x in chain :: x in accounts) && id in accounts && Met(accounts, chain, part, before)
    ensures forall x | x in chain + [id] :: x in accounts
    ensures Met(accounts, chain + [id], part, Tighter(before, part(Left(accounts[id]))))
  {
    assert id in chain + [id];
    if before.Some? {
      var x :| x in chain && part(Left(accounts[x])) == before;
      assert x in chain + [id];
    }
  }

  lemma {:induction false} LeftMet(accounts: Accounts, chain: seq<ThreadId>)
    requires forall x | x in chain :: x in accounts
    ensures var left := LeftAlong(accounts, chain);
            && Met(accounts, chain, STEPS, left.steps) && Met(accounts, chain, TOKENS, left.tokens)
            && Met(accounts, chain, DEADLINE, left.deadline)
    decreases |chain|
  {
    if chain != [] {
      var n := |chain| - 1;
      var before, id := chain[..n], chain[n];
      assert chain == before + [id];
      LeftMet(accounts, before);
      var left := LeftAlong(accounts, before);
      MetMore(accounts, before, id, STEPS, left.steps);
      MetMore(accounts, before, id, TOKENS, left.tokens);
      MetMore(accounts, before, id, DEADLINE, left.deadline);
    }
  }

  /** Each component of what a thread has left is the least that any account on its chain has
      left of it: no account has less, and one has just that; it is unlimited exactly when all are. */
  lemma RemainingIsLeast(accounts: Accounts, thread: ThreadId)
    ensures var chain, left := Chain(accounts, Some(thread), {}), Remaining(accounts, thread);
            && (forall x | x in chain :: NoMoreThan(left, Left(accounts[x])))
            && Met(accounts, chain, STEPS, left.steps) && Met(accounts, chain, TOKENS, left.tokens)
            && Met(accounts, chain, DEADLINE, left.deadline)
  {
    var chain := Chain(accounts, Some(thread), {});
    LeftMet(accounts, chain);
    forall x | x in chain ensures NoMoreThan(Remaining(accounts, thread), Left(accounts[x])) {
      LeftOnChain(accounts, chain, x);
    }
  }

  /** What is left along a chain is no more than what any account on it has left. */
  lemma {:induction false} LeftOnChain(accounts: Accounts, chain: seq<ThreadId>, id: ThreadId)
    requires (forall x | x in chain :: x in accounts) && id in chain
    ensures NoMoreThan(LeftAlong(accounts, chain), Left(accounts[id]))
    decreases |chain|
  {
    var n := |chain| - 1;
    assert forall x | x in chain[..n] :: x in chain;
    if id != chain[n] {
      assert chain == chain[..n] + [chain[n]];
      LeftOnChain(accounts, chain[..n], id);
    }
  }

  // ----- conservation -----

  predicate Over(accounts: Accounts, ancestor: ThreadId, id: ThreadId) {
    ancestor in Chain(accounts, Some(id), {})
  }

  predicate OversAgree(a: Accounts, b: Accounts, id: ThreadId, ids: seq<ThreadId>) {
    forall x | x in ids :: Over(b, id, x) == Over(a, id, x)
  }

  /** The charges to an account and to all its descendants, among the accounts listed. */
  function Spent(s: State, id: ThreadId, ids: seq<ThreadId>): Usage
    requires forall x | x in ids :: x in s.own
    decreases |ids|
  {
    if ids == [] then Usage(0, 0)
    else
      var n := |ids| - 1;
      assert forall x | x in ids[..n] :: x in ids;
      var before := Spent(s, id, ids[..n]);
      if Over(s.accounts, id, ids[n])
      then Usage(before.steps + s.own[ids[n]].steps, before.tokens + s.own[ids[n]].tokens)
      else before
  }

  predicate Conserved(s: State, id: ThreadId)
    requires Tree(s) && id in s.accounts
  {
    s.accounts[id].steps == Spent(s, id, s.order).steps && s.accounts[id].tokens == Spent(s, id, s.order).tokens
  }

  predicate Inv(s: State) {
    Tree(s) && forall id | id in s.accounts :: Conserved(s, id)
  }

  lemma {:induction false} ChainSame(a: Accounts, b: Accounts, at: Option<ThreadId>, seen: set<ThreadId>)
    requires a.Keys <= b.Keys && (forall id | id in a :: b[id].parent == a[id].parent)
    requires at.Some? ==> at.value in a
    requires forall id | id in a :: a[id].parent.Some? ==> a[id].parent.value in a
    ensures Chain(b, at, seen) == Chain(a, at, seen)
    decreases |a.Keys - seen|
  {
    if at.Some? && at.value !in seen {
      Smaller(a.Keys, seen, at.value);
      ChainSame(a, b, a[at.value].parent, seen + {at.value});
    }
  }

  lemma ChainsSame(s: State, accounts: Accounts, id: ThreadId)
    requires Tree(s) && id in s.accounts && s.accounts.Keys <= accounts.Keys
    requires forall x | x in s.accounts :: accounts[x].parent == s.accounts[x].parent
    ensures Chain(accounts, Some(id), {}) == Chain(s.accounts, Some(id), {})
  {
    forall x | x in s.accounts && s.accounts[x].parent.Some? ensures s.accounts[x].parent.value in s.accounts {
      assert Listed(s, x);
    }
    ChainSame(s.accounts, accounts, Some(id), {});
  }

  lemma TreeKept(s: State, step: Step)
    requires Tree(s) && Enabled(s, step)
    ensures Tree(Next(s, step))
  {
    var t := Next(s, step);
    forall id | id in t.accounts ensures Listed(t, id) {
      if id in s.accounts { assert Listed(s, id); }
      if step.Open? && step.parent.Some? { assert Listed(s, step.parent.value); }
    }
  }

  lemma {:induction false} SpentSame(s: State, t: State, id: ThreadId, ids: seq<ThreadId>)
    requires forall x | x in ids :: x in s.own && x in t.own && t.own[x] == s.own[x]
    requires OversAgree(s.accounts, t.accounts, id, ids)
    ensures Spent(t, id, ids) == Spent(s, id, ids)
    decreases |ids|
  {
    if ids != [] {
      assert forall x | x in ids[..|ids| - 1] :: x in ids;
      SpentSame(s, t, id, ids[..|ids| - 1]);
    }
  }

  function Plus(a: Usage, b: Usage): Usage {
    Usage(a.steps + b.steps, a.tokens + b.tokens)
  }

  /** One more charge to the account listed at `at` adds to what it and its ancestors spent. */
  lemma {:induction false} SpentCharged(s: State, t: State, at: nat, usage: Usage, id: ThreadId, ids: seq<ThreadId>)
    requires at < |ids| && OversAgree(s.accounts, t.accounts, id, ids)
    requires forall x | x in ids :: x in s.own && x in t.own
    requires forall i | 0 <= i < |ids| :: t.own[ids[i]] == if i == at then Plus(s.own[ids[i]], usage) else s.own[ids[i]]
    ensures Spent(t, id, ids)
         == if Over(s.accounts, id, ids[at]) then Plus(Spent(s, id, ids), usage) else Spent(s, id, ids)
    decreases |ids|
  {
    var n := |ids| - 1;
    assert forall x | x in ids[..n] :: x in ids;
    SpentLast(s, id, ids);
    SpentLast(t, id, ids);
    if at < n {
      SpentCharged(s, t, at, usage, id, ids[..n]);
    } else {
      SpentSame(s, t, id, ids[..n]);
    }
  }

  lemma SpentLast(s: State, id: ThreadId, ids: seq<ThreadId>)
    requires ids != [] && forall x | x in ids :: x in s.own
    ensures var n := |ids| - 1;
            && (forall x | x in ids[..n] :: x in s.own)
            && Spent(s, id, ids) == if Over(s.accounts, id, ids[n]) then Plus(Spent(s, id, ids[..n]), s.own[ids[n]])
                                    else Spent(s, id, ids[..n])
  {
    assert forall x | x in ids[..|ids| - 1] :: x in ids;
  }

  lemma OversSame(s: State, accounts: Accounts, id: ThreadId)
    requires Tree(s) && s.accounts.Keys <= accounts.Keys
    requires forall x | x in s.accounts :: accounts[x].parent == s.accounts[x].parent
    ensures OversAgree(s.accounts, accounts, id, s.order)
  {
    forall x | x in s.order ensures Over(accounts, id, x) == Over(s.accounts, id, x) { ChainsSame(s, accounts, x); }
  }

  predicate OwnAll(s: State) {
    forall x | x in s.order :: x in s.own
  }

  lemma OwnAfterCharge(s: State, t: State, thread: ThreadId, usage: Usage)
    requires Tree(s) && t == Next(s, Charge(thread, usage))
    ensures OwnAll(s) && OwnAll(t) && t.order == s.order
    ensures thread in s.accounts ==> thread in s.at && s.at[thread] < |s.order| && s.order[s.at[thread]] == thread
    ensures forall i | 0 <= i < |s.order| ::
              t.own[s.order[i]] == if thread in s.accounts && i == s.at[thread] then Plus(s.own[s.order[i]], usage)
                                   else s.own[s.order[i]]
  {
    if thread in s.accounts { assert Listed(s, thread); }
    forall i | 0 <= i < |s.order|
      ensures t.own[s.order[i]] == if thread in s.accounts && i == s.at[thread] then Plus(s.own[s.order[i]], usage)
                                   else s.own[s.order[i]]
    {
      assert Listed(s, s.order[i]);
    }
  }

  lemma SpentAfterCharge(s: State, t: State, thread: ThreadId, usage: Usage, id: ThreadId)
    requires Tree(s) && t == Next(s, Charge(thread, usage))
    ensures OwnAll(s) && OwnAll(t) && t.order == s.order
    ensures Spent(t, id, s.order)
         == if Over(s.accounts, id, thread) then Plus(Spent(s, id, s.order), usage) else Spent(s, id, s.order)
  {
    OwnAfterCharge(s, t, thread, usage);
    OversSame(s, t.accounts, id);
    if thread in s.accounts {
      var at := s.at[thread];
      SpentCharged(s, t, at, usage, id, s.order);
    } else {
      NoChain(s.accounts, id, thread);
      SpentSame(s, t, id, s.order);
    }
  }

  lemma NoChain(accounts: Accounts, id: ThreadId, thread: ThreadId)
    requires thread !in accounts
    ensures !Over(accounts, id, thread)
  {
  }

  lemma ChargeConserves(s: State, thread: ThreadId, usage: Usage, id: ThreadId)
    requires Inv(s) && id in s.accounts && Tree(Next(s, Charge(thread, usage)))
    ensures Conserved(Next(s, Charge(thread, usage)), id)
  {
    assert Conserved(s, id);
    SpentAfterCharge(s, Next(s, Charge(thread, usage)), thread, usage, id);
  }

  lemma {:induction false} NothingSpent(s: State, id: ThreadId, ids: seq<ThreadId>)
    requires forall x | x in ids :: x in s.own && !Over(s.accounts, id, x)
    ensures Spent(s, id, ids) == Usage(0, 0)
    decreases |ids|
  {
    if ids != [] {
      assert forall x | x in ids[..|ids| - 1] :: x in ids;
      NothingSpent(s, id, ids[..|ids| - 1]);
    }
  }

  lemma SpentAfterOpen(s: State, t: State, step: Step, id: ThreadId)
    requires Tree(s) && step.Open? && Enabled(s, step) && t == Next(s, step)
    ensures forall x | x in t.order :: x in t.own
    ensures forall x | x in s.order :: x in s.own
    ensures id in s.accounts ==> Spent(t, id, t.order) == Spent(s, id, s.order)
    ensures id == step.thread ==> Spent(t, id, t.order) == Usage(0, 0)
  {
    assert t.order[..|t.order| - 1] == s.order;
    assert forall x | x in s.order :: x in s.own && x in t.own && t.own[x] == s.own[x];
    OversSame(s, t.accounts, id);
    if id == step.thread { NothingSpent(t, id, s.order); } else { SpentSame(s, t, id, s.order); }
  }

  lemma OpenConserves(s: State, step: Step, id: ThreadId)
    requires Inv(s) && step.Open? && Enabled(s, step) && id in Next(s, step).accounts && Tree(Next(s, step))
    ensures Conserved(Next(s, step), id)
  {
    if id != step.thread { assert Conserved(s, id); }
    SpentAfterOpen(s, Next(s, step), step, id);
  }

  lemma StepConserves(s: State, step: Step)
    requires Inv(s) && Enabled(s, step)
    ensures Inv(Next(s, step))
  {
    TreeKept(s, step);
    forall id | id in Next(s, step).accounts ensures Conserved(Next(s, step), id) {
      match step
      case Open(_, _, _) => OpenConserves(s, step, id);
      case Charge(thread, usage) => ChargeConserves(s, thread, usage, id);
    }
  }

  // ----- no overspending -----

  predicate Solvent(account: Account) {
    && (account.limits.steps.Some? ==> account.steps <= account.limits.steps.value)
    && (account.limits.tokens.Some? ==> account.tokens <= account.limits.tokens.value)
  }

  /** A charge fits what its thread has left, and nothing negative is asked for. */
  predicate Fits(s: State, step: Step) {
    match step
    case Open(_, _, asked) =>
      (asked.steps.Some? ==> asked.steps.value >= 0) && (asked.tokens.Some? ==> asked.tokens.value >= 0)
    case Charge(thread, usage) =>
      && NoMore(Some(usage.steps), Remaining(s.accounts, thread).steps)
      && NoMore(Some(usage.tokens), Remaining(s.accounts, thread).tokens)
  }

  predicate AllSolvent(s: State) {
    forall id | id in s.accounts :: Solvent(s.accounts[id])
  }

  lemma {:induction false} LeftSolvent(accounts: Accounts, chain: seq<ThreadId>)
    requires forall id | id in chain :: id in accounts && Solvent(accounts[id])
    ensures LeftAlong(accounts, chain).steps.Some? ==> LeftAlong(accounts, chain).steps.value >= 0
    ensures LeftAlong(accounts, chain).tokens.Some? ==> LeftAlong(accounts, chain).tokens.value >= 0
    decreases |chain|
  {
    if chain != [] {
      assert forall id | id in chain[..|chain| - 1] :: id in chain;
      LeftSolvent(accounts, chain[..|chain| - 1]);
    }
  }

  lemma SolventKept(s: State, step: Step)
    requires AllSolvent(s) && Enabled(s, step) && Fits(s, step)
    ensures AllSolvent(Next(s, step))
  {
    match step
    case Open(thread, parent, asked) =>
      if parent.Some? { LeftSolvent(s.accounts, Chain(s.accounts, parent, {})); }
    case Charge(thread, usage) =>
      var chain := Chain(s.accounts, Some(thread), {});
      forall id | id in chain ensures NoMoreThan(LeftAlong(s.accounts, chain), Left(s.accounts[id])) {
        LeftOnChain(s.accounts, chain, id);
      }
  }

  // ----- every run -----

  predicate Runs(s: State, steps: seq<Step>)
    decreases |steps|
  {
    steps == [] || (Enabled(s, steps[0]) && Runs(Next(s, steps[0]), steps[1..]))
  }

  function After(s: State, steps: seq<Step>): State
    requires Runs(s, steps)
    decreases |steps|
  {
    if steps == [] then s else After(Next(s, steps[0]), steps[1..])
  }

  /** Every step fits when it is taken. */
  predicate AllFit(s: State, steps: seq<Step>)
    requires Runs(s, steps)
    decreases |steps|
  {
    steps == [] || (Fits(s, steps[0]) && AllFit(Next(s, steps[0]), steps[1..]))
  }

  lemma {:induction false} RunKeeps(s: State, steps: seq<Step>)
    requires Inv(s) && Runs(s, steps)
    ensures Inv(After(s, steps))
    ensures AllSolvent(s) && AllFit(s, steps) ==> AllSolvent(After(s, steps))
    decreases |steps|
  {
    if steps != [] {
      StepConserves(s, steps[0]);
      if AllSolvent(s) && AllFit(s, steps) { SolventKept(s, steps[0]); }
      RunKeeps(Next(s, steps[0]), steps[1..]);
    }
  }

  /** On any tree opened parent-first: each account has spent exactly the charges to it and to
      its descendants; no thread has more left than its parent; and if every charge fitted what
      was left, no account is overspent. */
  lemma Budgets(steps: seq<Step>, id: ThreadId)
    requires Runs(EMPTY, steps) && id in After(EMPTY, steps).accounts
    ensures Inv(After(EMPTY, steps)) && Conserved(After(EMPTY, steps), id)
    ensures var accounts := After(EMPTY, steps).accounts;
            && (accounts[id].parent.Some?
                ==> NoMoreThan(Remaining(accounts, id), Remaining(accounts, accounts[id].parent.value)))
            && (AllFit(EMPTY, steps) ==> Solvent(accounts[id]))
  {
    RunKeeps(EMPTY, steps);
    ChildWithin(After(EMPTY, steps), id);
  }
}
