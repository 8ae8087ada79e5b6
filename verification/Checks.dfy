/** `Checks` as the object that is evaluated pass by pass (`packages/checks/src/checks.ts`). */
module ChecksObject {
  import opened Wrappers
  import opened TemporalChecks

  datatype CheckOutcome = CheckOutcome(name: string, verdict: bool, step: Option<nat>)

  class Checks {
    const matching: Matching
    const source: Source
    var latched: map<string, (bool, nat)>
    var pending: map<string, Settled>
    var order: seq<string>
    var pass: map<string, Settled>

    constructor (matching: Matching, source: Source)
      ensures Now() == NOTHING && this.matching == matching && this.source == source
    {
      this.matching, this.source := matching, source;
      latched, pending, order, pass := map[], map[], [], map[];
    }

    function Now(): State
      reads this
    {
      State(latched, pending, order)
    }

    /** `record`. */
    method Record(name: string, verdict: Settled)
      modifies this`order, this`pass
      ensures order == (if name in old(order) then old(order) else old(order) + [name])
      ensures pass == old(pass)[name := verdict]
    {
      if name !in order { order := order + [name]; }
      pass := pass[name := verdict];
    }

    /** Running the source: each check records its verdict. */
    method Run(t: Trace, current: nat)
      modifies this`order, this`pass
      ensures order == Order(old(order), source) && pass == Pass(matching, source, t, current)
    {
      pass := map[];
      assert source[..0] == [];
      for k := 0 to |source|
        invariant order == Order(old(order), source[..k])
        invariant pass == Pass(matching, source[..k], t, current)
      {
        Record(source[k].0, Judge(matching, t, current, source[k].1));
        assert source[..k + 1][..k] == source[..k];
      }
      assert source[..|source|] == source;
    }

    method EvaluateStep(t: Trace, current: nat, step: nat)
      modifies this
      ensures Now() == Evaluate(matching, source, old(Now()), t, current, step)
    {
      Run(t, current);
      LatchPass(step);
    }

    /** The loop over the pass's verdicts. */
    method LatchPass(step: nat)
      modifies this`latched, this`pending
      ensures Now() == Latch(old(Now()), pass, step)
    {
      var todo := pass.Keys;
      while todo != {}
        invariant todo <= pass.Keys
        invariant LatchedBut(old(latched), latched, pass, todo, step)
        invariant PendingBut(old(latched), old(pending), pending, pass, todo)
        decreases |todo|
      {
        var name :| name in todo;
        LatchOne(name, step, old(latched), old(pending), todo);
        todo := todo - {name};
      }
      AllLatched(old(Now()), Now(), pass, step);
    }

    method LatchOne(name: string, step: nat, ghost latched0: map<string, (bool, nat)>,
                    ghost pending0: map<string, Settled>,
                    ghost todo: set<string>)
      requires name in pass && name in todo
      requires LatchedBut(latched0, latched, pass, todo, step) && PendingBut(latched0, pending0, pending, pass, todo)
      modifies this`latched, this`pending
      ensures LatchedBut(latched0, latched, pass, todo - {name}, step)
      ensures PendingBut(latched0, pending0, pending, pass, todo - {name})
    {
      OneLess(name, latched0, latched, pending0, pending, pass, todo, step);
      if name !in latched {
        if pass[name] == True {
          latched := latched[name := (true, step)];
        } else if pass[name] == False {
          latched := latched[name := (false, step)];
        } else {
          pending := pending[name := pass[name]];
        }
      }
    }

    /** Where a named thing was called: what ran, and what was written in a step where nothing
        ran, in order. */
    method Hits(t: Trace, name: string, spec: Spec) returns (hits: seq<nat>)
      ensures hits == Positions(matching, t, Called(name, spec))
    {
      var ran: seq<nat>, wrote: seq<nat> := [], [];
      for i := 0 to |t|
        invariant forall k :: k in ran <==> 0 <= k < i && Ran(matching, t[k], name, spec)
        invariant forall k :: k in wrote <==> 0 <= k < i && Wrote(matching, t[k], name, spec)
      {
        if Ran(matching, t[i], name, spec) { ran := ran + [i]; }
        if Wrote(matching, t[i], name, spec) { wrote := wrote + [i]; }
      }
      var dispatched := set k | k in ran :: t[k].step;
      hits := Sorted(t, ran, wrote, dispatched);
      forall i | 0 <= i < |t|
        ensures (i in ran || (i in wrote && t[i].step !in dispatched)) <==> At(matching, t, Called(name, spec), i)
      {
        if RanInStep(matching, t, t[i].step, name, spec) {
          var j :| 0 <= j < |t| && Ran(matching, t[j], name, spec) && t[j].step == t[i].step;
          assert j in ran;
        }
      }
      SameIncreasing(hits, Positions(matching, t, Called(name, spec)));
    }

    /** What ran and what was written in a step where nothing ran, sorted. */
    static method Sorted(t: Trace, ran: seq<nat>, wrote: seq<nat>, dispatched: set<nat>) returns (r: seq<nat>)
      ensures Increasing(r)
      ensures forall i :: i in r <==> 0 <= i < |t| && (i in ran || (i in wrote && t[i].step !in dispatched))
    {
      r := [];
      for i := 0 to |t|
        invariant Increasing(r)
        invariant forall k :: k in r <==> 0 <= k < i && (k in ran || (k in wrote && t[k].step !in dispatched))
      {
        if i in ran || (i in wrote && t[i].step !in dispatched) {
          forall k | 0 <= k < |r| ensures r[k] < i { assert r[k] in r; }
          r := r + [i];
        }
      }
    }

    /** The outcomes in the order the checks were first recorded. */
    method Results() returns (outcomes: seq<CheckOutcome>)
      ensures |outcomes| == |order|
      ensures forall k | 0 <= k < |order| ::
                && outcomes[k].name == order[k] && outcomes[k].verdict == Outcome(Now(), order[k])
                && outcomes[k].step == if order[k] in latched then Some(latched[order[k]].1) else None
    {
      outcomes := [];
      for i := 0 to |order|
        invariant |outcomes| == i
        invariant forall k | 0 <= k < i ::
                    && outcomes[k].name == order[k] && outcomes[k].verdict == Outcome(Now(), order[k])
                    && outcomes[k].step == if order[k] in latched then Some(latched[order[k]].1) else None
      {
        var name := order[i];
        if name in latched {
          outcomes := outcomes + [CheckOutcome(name, latched[name].0, Some(latched[name].1))];
        } else {
          outcomes := outcomes + [CheckOutcome(name, name in pending && pending[name] == PendingTrue, None)];
        }
      }
    }
  }

  /** The names of a pass have been latched but for some still to do. */
  predicate LatchedBut(was: map<string, (bool, nat)>, now: map<string, (bool, nat)>,
                       pass: map<string, Settled>, todo: set<string>, step: nat) {
    && (forall n | n in was :: n in now && now[n] == was[n])
    && (forall n | n in now && n !in was ::
          n in pass && n !in todo && Definite(pass[n]) && now[n] == (pass[n].True?, step))
    && (forall n | n in pass && n !in todo && Definite(pass[n]) :: n in now)
  }

  predicate PendingBut(latched: map<string, (bool, nat)>, was: map<string, Settled>, now: map<string, Settled>,
                       pass: map<string, Settled>, todo: set<string>) {
    && (forall n | n in now ::
          if n in pass && n !in todo && n !in latched && !Definite(pass[n]) then now[n] == pass[n]
          else n in was && now[n] == was[n])
    && (forall n | n in was :: n in now)
    && (forall n | n in pass && n !in todo && n !in latched && !Definite(pass[n]) :: n in now)
  }

  /** What is done for one name leaves one less to do. */
  lemma OneLess(name: string, latched0: map<string, (bool, nat)>, latched: map<string, (bool, nat)>,
                pending0: map<string, Settled>, pending: map<string, Settled>,
                pass: map<string, Settled>, todo: set<string>, step: nat)
    requires name in pass && name in todo
    requires LatchedBut(latched0, latched, pass, todo, step) && PendingBut(latched0, pending0, pending, pass, todo)
    ensures name !in latched && Definite(pass[name])
            ==> LatchedBut(latched0, latched[name := (pass[name].True?, step)], pass, todo - {name}, step)
    ensures name in latched || !Definite(pass[name]) ==> LatchedBut(latched0, latched, pass, todo - {name}, step)
    ensures name !in latched && !Definite(pass[name])
            ==> PendingBut(latched0, pending0, pending[name := pass[name]], pass, todo - {name})
    ensures name in latched || Definite(pass[name]) ==> PendingBut(latched0, pending0, pending, pass, todo - {name})
  {
    LatchedLess(name, latched0, latched, pass, todo, step);
    PendingLess(name, latched0, pending0, pending, pass, todo);
  }

  lemma LatchedLess(name: string, was: map<string, (bool, nat)>, now: map<string, (bool, nat)>,
                    pass: map<string, Settled>, todo: set<string>, step: nat)
    requires name in pass && name in todo && LatchedBut(was, now, pass, todo, step)
    ensures name !in now && Definite(pass[name])
            ==> LatchedBut(was, now[name := (pass[name].True?, step)], pass, todo - {name}, step)
    ensures name in now || !Definite(pass[name]) ==> LatchedBut(was, now, pass, todo - {name}, step)
  {
  }

  lemma PendingLess(name: string, latched: map<string, (bool, nat)>, was: map<string, Settled>,
                    now: map<string, Settled>,
                    pass: map<string, Settled>, todo: set<string>)
    requires name in pass && name in todo && PendingBut(latched, was, now, pass, todo)
    ensures name !in latched && !Definite(pass[name])
            ==> PendingBut(latched, was, now[name := pass[name]], pass, todo - {name})
    ensures name in latched || Definite(pass[name]) ==> PendingBut(latched, was, now, pass, todo - {name})
  {
  }

  lemma AllLatched(s: State, t: State, pass: map<string, Settled>, step: nat)
    requires LatchedBut(s.latched, t.latched, pass, {}, step) && PendingBut(s.latched, s.pending, t.pending, pass, {})
    requires s.order == t.order
    ensures t == Latch(s, pass, step)
  {
    LatchedAll(s, t.latched, pass, step);
    PendingAll(s, t.pending, pass, step);
  }

  lemma LatchedAll(s: State, latched: map<string, (bool, nat)>, pass: map<string, Settled>, step: nat)
    requires LatchedBut(s.latched, latched, pass, {}, step)
    ensures latched == Latch(s, pass, step).latched
  {
    var end := Latch(s, pass, step).latched;
    assert latched.Keys == end.Keys;
  }

  lemma PendingAll(s: State, pending: map<string, Settled>, pass: map<string, Settled>, step: nat)
    requires PendingBut(s.latched, s.pending, pending, pass, {})
    ensures pending == Latch(s, pass, step).pending
  {
    var end := Latch(s, pass, step).pending;
    assert pending.Keys == end.Keys;
  }

  lemma Inhabited(b: seq<nat>)
    requires b != []
    ensures exists x :: x in b
  {
    assert b[0] in b;
  }

  lemma {:induction false} SameIncreasing(a: seq<nat>, b: seq<nat>)
    requires Increasing(a) && Increasing(b) && forall i :: i in a <==> i in b
    ensures a == b
    decreases |a|
  {
    if a == [] {
      if b != [] { Inhabited(b); }
    } else {
      var m, n := |a| - 1, |b| - 1;
      assert a[m] in b && b[n] in a;
      assert a[m] == b[n];
      forall x ensures x in a[..m] <==> x in b[..n] {
        if x in a[..m] { LastOut(a, x); assert x in b; LastOnly(b, x); }
        if x in b[..n] { LastOut(b, x); assert x in a; LastOnly(a, x); }
      }
      SameIncreasing(a[..m], b[..n]);
      assert a == a[..m] + [a[m]] && b == b[..n] + [b[n]];
    }
  }

  lemma LastOut(a: seq<nat>, x: nat)
    requires a != [] && Increasing(a) && x in a[..|a| - 1]
    ensures x in a && x != a[|a| - 1]
  {
  }

  lemma LastOnly(a: seq<nat>, x: nat)
    requires a != [] && x in a && x != a[|a| - 1]
    ensures x in a[..|a| - 1]
  {
    var i :| 0 <= i < |a| && a[i] == x;
    assert a[..|a| - 1][i] == x;
  }
}
