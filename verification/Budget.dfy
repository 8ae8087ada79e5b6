/** `Budget`, whose accounts change in place (`packages/ai/src/budget.ts`); its loops walk the
    chain of accounts up from a thread. */
module BudgetObject {
  import opened Wrappers
  import opened BudgetTree

  class Budget {
    var accounts: Accounts

    constructor ()
      ensures accounts == map[]
    {
      accounts := map[];
    }

    method RemainingOf(thread: ThreadId) returns (left: Limits)
      ensures left == Remaining(accounts, thread)
    {
      left := UNLIMITED;
      var at, seen: set<ThreadId> := Some(thread), {};
      ghost var chain := Chain(accounts, Some(thread), {});
      ghost var done: seq<ThreadId> := [];
      while at.Some? && at.value !in seen && at.value in accounts
        invariant done + Chain(accounts, at, seen) == chain
        invariant forall id | id in done :: id in accounts
        invariant left == LeftAlong(accounts, done)
        decreases |accounts.Keys - seen|
      {
        Smaller(accounts.Keys, seen, at.value);
        ChainStep(accounts, at.value, seen, done);
        LeftStep(accounts, done, at.value);
        done := done + [at.value];
        seen := seen + {at.value};
        left := Within(left, Left(accounts[at.value]));
        at := accounts[at.value].parent;
      }
      assert done + [] == done;
    }

    method Slice(parent: ThreadId, asked: Limits) returns (granted: Limits)
      ensures granted == Within(asked, Remaining(accounts, parent))
      ensures NoMoreThan(granted, asked) && NoMoreThan(granted, Remaining(accounts, parent))
      ensures forall limits :: NoMoreThan(limits, asked) && NoMoreThan(limits, Remaining(accounts, parent))
                               ==> NoMoreThan(limits, granted)
    {
      var left := RemainingOf(parent);
      granted := Within(asked, left);
    }

    /** An account with what was asked for, as far as its parent has it left. */
    method OpenAccount(thread: ThreadId, parent: Option<ThreadId>, asked: Limits) returns (granted: Limits)
      modifies this
      ensures accounts == Opened(old(accounts), thread, parent, asked) && granted == accounts[thread].limits
    {
      granted := asked;
      if parent.Some? { granted := Slice(parent.value, asked); }
      accounts := accounts[thread := Account(parent, granted, 0, 0)];
    }

    method ChargeThis(id: ThreadId, usage: Usage, ghost was: Accounts, ghost done: seq<ThreadId>)
      returns (parent: Option<ThreadId>)
      requires id in was && id !in done && accounts == Charged(was, done, usage)
      modifies this
      ensures accounts == Charged(was, done + [id], usage) && parent == was[id].parent
    {
      ChargeOne(was, done, id, usage);
      var account := accounts[id];
      accounts := accounts[id := account.(steps := account.steps + usage.steps,
                                          tokens := account.tokens + usage.tokens)];
      parent := account.parent;
    }

    /** A charge to a thread is a charge to everything above it. */
    method ChargeUp(thread: ThreadId, usage: Usage)
      modifies this
      ensures accounts == Charged(old(accounts), Chain(old(accounts), Some(thread), {}), usage)
    {
      var at, seen: set<ThreadId> := Some(thread), {};
      ghost var was := accounts;
      ghost var done: seq<ThreadId> := [];
      ChargeNone(was, usage);
      while at.Some? && at.value !in seen && at.value in accounts
        invariant done + Chain(was, at, seen) == Chain(was, Some(thread), {})
        invariant forall id :: id in done <==> id in seen
        invariant accounts == Charged(was, done, usage)
        decreases |was.Keys - seen|
      {
        Smaller(was.Keys, seen, at.value);
        ChainStep(was, at.value, seen, done);
        ghost var before := done;
        done := done + [at.value];
        seen := seen + {at.value};
        at := ChargeThis(at.value, usage, was, before);
      }
      assert done + [] == done;
    }
  }

  /** One account up the chain. */
  lemma ChainStep(accounts: Accounts, id: ThreadId, seen: set<ThreadId>, done: seq<ThreadId>)
    requires id in accounts && id !in seen
    ensures done + Chain(accounts, Some(id), seen) == (done + [id]) + Chain(accounts, accounts[id].parent, seen + {id})
  {
    Smaller(accounts.Keys, seen, id);
    assert Chain(accounts, Some(id), seen) == [id] + Chain(accounts, accounts[id].parent, seen + {id});
  }

  lemma LeftStep(accounts: Accounts, done: seq<ThreadId>, id: ThreadId)
    requires id in accounts && forall x | x in done :: x in accounts
    ensures forall x | x in done + [id] :: x in accounts
    ensures LeftAlong(accounts, done + [id]) == Within(LeftAlong(accounts, done), Left(accounts[id]))
  {
    assert (done + [id])[..|done + [id]| - 1] == done;
  }

  lemma ChargeNone(accounts: Accounts, usage: Usage)
    ensures Charged(accounts, [], usage) == accounts
  {
  }

  lemma ChargeOne(accounts: Accounts, done: seq<ThreadId>, id: ThreadId, usage: Usage)
    requires id in accounts && id !in done
    ensures var account := accounts[id];
            Charged(accounts, done + [id], usage)
              == Charged(accounts, done, usage)[id := account.(steps := account.steps + usage.steps,
                                                               tokens := account.tokens + usage.tokens)]
  {
    assert forall x :: x in done + [id] <==> x in done || x == id;
  }
}
