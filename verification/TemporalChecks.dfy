/** Temporal checks over a growing trace (`packages/checks/src/checks.ts`): positions in the
    trace, verdicts over them, and the latching of verdicts pass by pass. */
module TemporalChecks {

  type Spec = seq<string>

  datatype Event =
    | Tool(step: nat, server: string, tool: string, args: Spec)
    | Connect(step: nat, server: string)
    | Form(step: nat, source: string, error: bool)
    | Note(step: nat, critical: bool)
    | Halt(step: nat, answer: string)
    | Reply(step: nat)

  /** How arguments are matched and what a form calls or awaits, which may be anything. */
  datatype Matching = Matching(
    call: (Event, Spec) -> bool,
    writes: (string, string, Spec) -> bool,
    awaits: (string, string) -> bool,
    value: (string, string) -> bool)

  datatype Pos =
    | Called(name: string, spec: Spec)
    | CalledAny(names: seq<string>)
    | CalledServer(server: string)
    | CalledOther(server: string)
    | Awaited(name: string)
    | Halted
    | Answered(wanted: seq<string>)
    | Errored
    | Skipped
    | Without(a: Pos, b: Pos)

  datatype Body =
    | Eventually(a: Pos)
    | Never(a: Pos)
    | Always(a: Pos)
    | Before(a: Pos, b: Pos)
    | Requires(a: Pos, b: Pos)
    | After(a: Pos, b: Pos)
    | Within(n: int, a: Pos)
    | Once(a: Pos)
    | AtMost(a: Pos, n: int)
    | Happens(a: Pos, n: int)

  datatype Settled = True | False | PendingTrue | PendingFalse

  type Trace = seq<Event>

  // ----- positions -----

  /** The event ran what is named, with matching arguments. */
  predicate Ran(m: Matching, e: Event, name: string, spec: Spec) {
    match e
    case Tool(_, server, tool, _) => server + "/" + tool == name && m.call(e, spec)
    case Connect(_, _) => name == "load-mcp" && m.call(e, spec)
    case _ => false
  }

  predicate Wrote(m: Matching, e: Event, name: string, spec: Spec) {
    e.Form? && m.writes(e.source, name, spec)
  }

  predicate RanInStep(m: Matching, t: Trace, step: nat, name: string, spec: Spec) {
    exists j | 0 <= j < |t| :: Ran(m, t[j], name, spec) && t[j].step == step
  }

  /** A call that ran, or that a form wrote in a step in which none ran. */
  predicate Hit(m: Matching, t: Trace, name: string, spec: Spec, i: nat)
    requires i < |t|
  {
    Ran(m, t[i], name, spec) || (Wrote(m, t[i], name, spec) && !RanInStep(m, t, t[i].step, name, spec))
  }

  predicate At(m: Matching, t: Trace, pos: Pos, i: nat)
    requires i < |t|
  {
    match pos
    case Called(name, spec) => Hit(m, t, name, spec, i)
    case CalledAny(names) => exists k | 0 <= k < |names| :: Hit(m, t, names[k], [], i)
    case CalledServer(server) => t[i].Tool? && t[i].server == server
    case CalledOther(server) => t[i].Tool? && t[i].server != server
    case Awaited(name) => t[i].Form? && m.awaits(t[i].source, name)
    case Halted => t[i].Halt?
    case Answered(wanted) => t[i].Halt? && forall k | 0 <= k < |wanted| :: m.value(t[i].answer, wanted[k])
    case Errored => (t[i].Form? && t[i].error) || (t[i].Note? && t[i].critical)
    case Skipped => t[i].Note? && !t[i].critical
    case Without(a, b) => At(m, t, a, i) && !At(m, t, b, i)
  }

  function UpTo(m: Matching, t: Trace, pos: Pos, n: nat): (r: seq<nat>)
    requires n <= |t|
    ensures forall i :: i in r <==> 0 <= i < n && At(m, t, pos, i)
    ensures Increasing(r) && forall k | 0 <= k < |r| :: r[k] < n
  {
    if n == 0 then [] else if At(m, t, pos, n - 1) then UpTo(m, t, pos, n - 1) + [n - 1] else UpTo(m, t, pos, n - 1)
  }

  predicate Increasing(r: seq<nat>) {
    forall i, j | 0 <= i < j < |r| :: r[i] < r[j]
  }

  /** The positions in increasing order. */
  function Positions(m: Matching, t: Trace, pos: Pos): seq<nat> {
    UpTo(m, t, pos, |t|)
  }

  // ----- verdicts -----

  predicate SomeBelow(r: seq<nat>, at: nat) {
    exists k | 0 <= k < |r| :: r[k] < at
  }

  predicate SomeAbove(r: seq<nat>, at: nat) {
    exists k | 0 <= k < |r| :: r[k] > at
  }

  predicate SomeByStep(t: Trace, r: seq<nat>, limit: int)
    requires forall k | 0 <= k < |r| :: r[k] < |t|
  {
    exists k | 0 <= k < |r| :: t[r[k]].step <= limit
  }

  predicate InStep(t: Trace, r: seq<nat>, step: nat)
    requires forall k | 0 <= k < |r| :: r[k] < |t|
  {
    exists k | 0 <= k < |r| :: t[r[k]].step == step
  }

  function Count(seen: int, want: int): Settled {
    if seen > want then False else if seen == want then PendingTrue else PendingFalse
  }

  /** A combinator's verdict on the trace so far, in the current step. */
  function Judge(m: Matching, t: Trace, current: nat, body: Body): Settled {
    match body
    case Eventually(a) => if |Positions(m, t, a)| > 0 then True else PendingFalse
    case Never(a) => if |Positions(m, t, a)| > 0 then False else PendingTrue
    case Always(a) =>
      if exists j | 0 <= j < |t| :: t[j].step > 0 && !InStep(t, Positions(m, t, a), t[j].step) then False
      else PendingTrue
    case Before(a, b) =>
      var p := Positions(m, t, a);
      if p == [] then PendingFalse else if SomeBelow(Positions(m, t, b), p[0]) then True else False
    case Requires(a, b) =>
      var p := Positions(m, t, a);
      if p == [] then PendingTrue else if SomeBelow(Positions(m, t, b), p[0]) then True else False
    case After(a, b) =>
      var p := Positions(m, t, a);
      if p == [] then PendingFalse else if SomeAbove(Positions(m, t, b), p[0]) then True else PendingFalse
    case Within(n, a) =>
      if SomeByStep(t, Positions(m, t, a), n) then True else if current > n then False else PendingFalse
    case Once(a) => Count(|Positions(m, t, a)|, 1)
    case AtMost(a, n) => if |Positions(m, t, a)| > n then False else PendingTrue
    case Happens(a, n) => Count(|Positions(m, t, a)|, n)
  }

  // ----- what a verdict means, position by position -----

  predicate Occurs(m: Matching, t: Trace, a: Pos) {
    exists i | 0 <= i < |t| :: At(m, t, a, i)
  }

  /** Some match of `b` comes before every match of `a`. */
  predicate Leads(m: Matching, t: Trace, b: Pos, a: Pos) {
    exists k | 0 <= k < |t| :: At(m, t, b, k) && forall i | 0 <= i < |t| && At(m, t, a, i) :: k < i
  }

  /** Some match of `b` comes after a match of `a`. */
  predicate Follows(m: Matching, t: Trace, b: Pos, a: Pos) {
    exists k, i | 0 <= i < k < |t| :: At(m, t, b, k) && At(m, t, a, i)
  }

  predicate OccursBy(m: Matching, t: Trace, a: Pos, limit: int) {
    exists i | 0 <= i < |t| :: At(m, t, a, i) && t[i].step <= limit
  }

  function Matches(m: Matching, t: Trace, a: Pos, n: nat): set<nat>
    requires n <= |t|
  {
    set i | 0 <= i < n && At(m, t, a, i)
  }

  function Times(m: Matching, t: Trace, a: Pos): nat {
    |Matches(m, t, a, |t|)|
  }

  /** What each combinator says: that something happened is true for good, that it has not is open;
      that it must not is false for good once it has; an order is judged by the first match; a bound
      on the steps is missed once they are over; a number is missed once it is passed. */
  function Meant(m: Matching, t: Trace, current: nat, body: Body): Settled {
    match body
    case Eventually(a) => if Occurs(m, t, a) then True else PendingFalse
    case Never(a) => if Occurs(m, t, a) then False else PendingTrue
    case Always(a) =>
      if forall j | 0 <= j < |t| && t[j].step > 0 :: StepMatched(m, t, a, t[j].step) then PendingTrue else False
    case Before(a, b) => if !Occurs(m, t, a) then PendingFalse else if Leads(m, t, b, a) then True else False
    case Requires(a, b) => if !Occurs(m, t, a) then PendingTrue else if Leads(m, t, b, a) then True else False
    case After(a, b) => if Follows(m, t, b, a) then True else PendingFalse
    case Within(n, a) => if OccursBy(m, t, a, n) then True else if n < current then False else PendingFalse
    case Once(a) => Exactly(Times(m, t, a), 1)
    case AtMost(a, n) => if Times(m, t, a) <= n then PendingTrue else False
    case Happens(a, n) => Exactly(Times(m, t, a), n)
  }

  function Exactly(times: int, n: int): Settled {
    if times < n then PendingFalse else if times == n then PendingTrue else False
  }

  lemma {:induction false} AsMany(r: seq<nat>, s: set<nat>)
    requires Increasing(r) && forall i :: i in s <==> i in r
    ensures |r| == |s|
    decreases |r|
  {
    if r == [] {
      assert s == {};
    } else {
      var n := |r| - 1;
      ButLast(r, s);
      AsMany(r[..n], s - {r[n]});
    }
  }

  lemma ButLast(r: seq<nat>, s: set<nat>)
    requires r != [] && Increasing(r) && forall i :: i in s <==> i in r
    ensures var n := |r| - 1;
            Increasing(r[..n]) && r[n] in s && forall i :: i in s - {r[n]} <==> i in r[..n]
  {
    var n := |r| - 1;
    forall i ensures i in s - {r[n]} <==> i in r[..n] {
      if i in r && i != r[n] {
        var k :| 0 <= k < |r| && r[k] == i;
        assert r[..n][k] == i;
      }
    }
  }

  lemma TimesUpTo(m: Matching, t: Trace, a: Pos, n: nat)
    requires n <= |t|
    ensures |UpTo(m, t, a, n)| == |Matches(m, t, a, n)|
  {
    AsMany(UpTo(m, t, a, n), Matches(m, t, a, n));
  }

  lemma FirstPosition(m: Matching, t: Trace, a: Pos)
    ensures Positions(m, t, a) == [] <==> !Occurs(m, t, a)
    ensures Positions(m, t, a) != [] ==>
              var first := Positions(m, t, a)[0];
              first < |t| && At(m, t, a, first) && forall i | 0 <= i < |t| && At(m, t, a, i) :: first <= i
  {
    var p := Positions(m, t, a);
    if Occurs(m, t, a) {
      var i :| 0 <= i < |t| && At(m, t, a, i);
      assert i in p;
    }
    if p != [] {
      assert p[0] in p;
      forall i | 0 <= i < |t| && At(m, t, a, i) ensures p[0] <= i {
        assert i in p;
        var k :| 0 <= k < |p| && p[k] == i;
      }
    }
  }

  lemma SomeIn(r: seq<nat>, at: nat)
    ensures SomeBelow(r, at) <==> exists x: nat :: x in r && x < at
    ensures SomeAbove(r, at) <==> exists x: nat :: x in r && x > at
  {
    forall k | 0 <= k < |r| ensures r[k] in r {}
    if SomeBelow(r, at) {
      var k :| 0 <= k < |r| && r[k] < at;
      assert r[k] in r;
    }
    if SomeAbove(r, at) {
      var k :| 0 <= k < |r| && r[k] > at;
      assert r[k] in r;
    }
  }

  lemma BelowFirst(m: Matching, t: Trace, b: Pos, a: Pos)
    requires Positions(m, t, a) != []
    ensures SomeBelow(Positions(m, t, b), Positions(m, t, a)[0]) <==> Leads(m, t, b, a)
  {
    FirstPosition(m, t, a);
    SomeIn(Positions(m, t, b), Positions(m, t, a)[0]);
  }

  lemma AboveFirst(m: Matching, t: Trace, b: Pos, a: Pos)
    requires Positions(m, t, a) != []
    ensures SomeAbove(Positions(m, t, b), Positions(m, t, a)[0]) <==> Follows(m, t, b, a)
  {
    FirstPosition(m, t, a);
    SomeIn(Positions(m, t, b), Positions(m, t, a)[0]);
  }

  lemma ByStep(m: Matching, t: Trace, a: Pos, limit: int)
    ensures SomeByStep(t, Positions(m, t, a), limit) <==> OccursBy(m, t, a, limit)
  {
    var p := Positions(m, t, a);
    if OccursBy(m, t, a, limit) {
      var i :| 0 <= i < |t| && At(m, t, a, i) && t[i].step <= limit;
      assert i in p;
    }
    if SomeByStep(t, p, limit) {
      var k :| 0 <= k < |p| && t[p[k]].step <= limit;
      assert p[k] in p;
    }
  }

  /** A verdict found by the lists of positions is what the combinator means. */
  lemma JudgeIs(m: Matching, t: Trace, current: nat, body: Body)
    ensures Judge(m, t, current, body) == Meant(m, t, current, body)
  {
    var a := body.a;
    FirstPosition(m, t, a);
    TimesUpTo(m, t, a, |t|);
    match body
    case Before(_, b) => if Occurs(m, t, a) { BelowFirst(m, t, b, a); }
    case Requires(_, b) => if Occurs(m, t, a) { BelowFirst(m, t, b, a); }
    case After(_, b) => if Occurs(m, t, a) { AboveFirst(m, t, b, a); }
    case Within(n, _) => ByStep(m, t, a, n);
    case Always(_) => AlwaysIs(m, t, current, a);
    case _ =>
  }

  // ----- a verdict once definite stays -----

  /** The trace went on: what was added carries the current step or a later one. */
  predicate Grows(t: Trace, current: nat, u: Trace, now: nat) {
    && t <= u && current <= now
    && (forall i | 0 <= i < |t| :: t[i].step <= current)
    && (forall i | |t| <= i < |u| :: current <= u[i].step)
  }

  /** A later one. */
  predicate Extends(t: Trace, current: nat, u: Trace, now: nat) {
    Grows(t, current, u, now) && forall i | |t| <= i < |u| :: current < u[i].step
  }

  /** The form at `i` was a hit for what it wrote, until a call of it ran in the same step. */
  predicate TakenOver(m: Matching, t: Trace, u: Trace, name: string, spec: Spec, i: nat)
    requires i < |t|
  {
    && Wrote(m, t[i], name, spec) && !RanInStep(m, t, t[i].step, name, spec)
    && exists j | |t| <= j < |u| :: Ran(m, u[j], name, spec) && u[j].step == t[i].step
  }

  predicate NoneTaken(m: Matching, t: Trace, u: Trace, name: string, spec: Spec) {
    forall i | 0 <= i < |t| :: !TakenOver(m, t, u, name, spec, i)
  }

  /** Nothing that a matcher looks for is taken over. */
  predicate Steady(m: Matching, t: Trace, u: Trace, pos: Pos) {
    match pos
    case Called(name, spec) => NoneTaken(m, t, u, name, spec)
    case CalledAny(names) => forall k | 0 <= k < |names| :: NoneTaken(m, t, u, names[k], [])
    case Without(a, b) => Steady(m, t, u, a) && Steady(m, t, u, b)
    case _ => true
  }

  predicate SteadyBody(m: Matching, t: Trace, u: Trace, body: Body) {
    Steady(m, t, u, body.a) && ((body.Before? || body.Requires? || body.After?) ==> Steady(m, t, u, body.b))
  }

  /** Exactly when a hit is lost; none is gained. */
  lemma HitStays(m: Matching, t: Trace, u: Trace, name: string, spec: Spec, i: nat)
    requires t <= u && i < |t|
    ensures Hit(m, u, name, spec, i) <==> Hit(m, t, name, spec, i) && !TakenOver(m, t, u, name, spec, i)
  {
    assert t[i] == u[i];
    var step := t[i].step;
    if RanInStep(m, t, step, name, spec) {
      var j :| 0 <= j < |t| && Ran(m, t[j], name, spec) && t[j].step == step;
      assert u[j] == t[j];
    }
    if RanInStep(m, u, step, name, spec) {
      var j :| 0 <= j < |u| && Ran(m, u[j], name, spec) && u[j].step == step;
      if j < |t| { assert u[j] == t[j]; }
    }
    if TakenOver(m, t, u, name, spec, i) {
      var j :| |t| <= j < |u| && Ran(m, u[j], name, spec) && u[j].step == step;
      assert RanInStep(m, u, step, name, spec);
    }
  }

  /** Where nothing is taken over, whether a position is matched does not change. */
  lemma {:induction false} AtStays(m: Matching, t: Trace, u: Trace, pos: Pos, i: nat)
    requires t <= u && i < |t| && Steady(m, t, u, pos)
    ensures At(m, u, pos, i) <==> At(m, t, pos, i)
    decreases pos
  {
    assert t[i] == u[i];
    match pos
    case Called(name, spec) => HitStays(m, t, u, name, spec, i);
    case CalledAny(names) =>
      forall k | 0 <= k < |names| ensures Hit(m, u, names[k], [], i) <==> Hit(m, t, names[k], [], i) {
        assert NoneTaken(m, t, u, names[k], []);
        HitStays(m, t, u, names[k], [], i);
      }
    case Without(a, b) =>
      AtStays(m, t, u, a, i);
      AtStays(m, t, u, b, i);
    case _ =>
  }

  /** Nor does it where a step is over. */
  lemma {:induction false} AtEarlier(m: Matching, t: Trace, current: nat, u: Trace, now: nat, pos: Pos, i: nat)
    requires Grows(t, current, u, now) && i < |t| && t[i].step < current
    ensures At(m, u, pos, i) <==> At(m, t, pos, i)
    decreases pos
  {
    assert t[i] == u[i];
    match pos
    case Called(name, spec) => HitStays(m, t, u, name, spec, i);
    case CalledAny(names) =>
      forall k | 0 <= k < |names| ensures Hit(m, u, names[k], [], i) <==> Hit(m, t, names[k], [], i) {
        HitStays(m, t, u, names[k], [], i);
      }
    case Without(a, b) =>
      AtEarlier(m, t, current, u, now, a, i);
      AtEarlier(m, t, current, u, now, b, i);
    case _ =>
  }

  /** Later steps take nothing over. */
  lemma {:induction false} LaterSteady(m: Matching, t: Trace, current: nat, u: Trace, now: nat, pos: Pos)
    requires Extends(t, current, u, now)
    ensures Steady(m, t, u, pos)
  {
    match pos
    case Without(a, b) =>
      LaterSteady(m, t, current, u, now, a);
      LaterSteady(m, t, current, u, now, b);
    case _ =>
  }

  /** Nor does anything but a call that runs. */
  lemma {:induction false} QuietSteady(m: Matching, t: Trace, u: Trace, pos: Pos)
    requires t <= u && forall j | |t| <= j < |u| :: !u[j].Tool? && !u[j].Connect?
    ensures Steady(m, t, u, pos)
  {
    match pos
    case Without(a, b) =>
      QuietSteady(m, t, u, a);
      QuietSteady(m, t, u, b);
    case _ =>
  }

  lemma {:induction false} UpToStays(m: Matching, t: Trace, u: Trace, pos: Pos, n: nat)
    requires t <= u && n <= |t| && Steady(m, t, u, pos)
    ensures UpTo(m, u, pos, n) == UpTo(m, t, pos, n)
  {
    if n > 0 {
      AtStays(m, t, u, pos, n - 1);
      UpToStays(m, t, u, pos, n - 1);
    }
  }

  lemma {:induction false} UpToGrows(m: Matching, t: Trace, pos: Pos, n: nat, k: nat)
    requires n <= k <= |t|
    ensures Continues(UpTo(m, t, pos, n), UpTo(m, t, pos, k), n)
    decreases k
  {
    if n < k {
      UpToGrows(m, t, pos, n, k - 1);
      GrowsByOne(m, t, pos, UpTo(m, t, pos, n), k, n);
    }
  }

  lemma GrowsByOne(m: Matching, t: Trace, pos: Pos, r: seq<nat>, k: nat, n: nat)
    requires n < k <= |t| && Continues(r, UpTo(m, t, pos, k - 1), n)
    ensures Continues(r, UpTo(m, t, pos, k), n)
  {
    ContinuesBy(r, UpTo(m, t, pos, k - 1), k - 1, n);
  }

  lemma ContinuesBy(r: seq<nat>, s: seq<nat>, x: nat, n: nat)
    requires Continues(r, s, n) && x >= n
    ensures Continues(r, s + [x], n)
  {
  }

  predicate Continues(r: seq<nat>, s: seq<nat>, n: nat) {
    r <= s && Beyond(s, |r|, n)
  }

  /** From an index on, the positions are no less than `n`. */
  predicate Beyond(r: seq<nat>, from: nat, n: nat) {
    forall i | from <= i < |r| :: r[i] >= n
  }

  /** Position sets are prefix-stable: what the trace had stays, in order, and what comes lies
      beyond it. */
  lemma PositionsStay(m: Matching, t: Trace, u: Trace, pos: Pos)
    requires t <= u && Steady(m, t, u, pos)
    ensures Positions(m, t, pos) <= Positions(m, u, pos)
    ensures forall k | |Positions(m, t, pos)| <= k < |Positions(m, u, pos)| :: Positions(m, u, pos)[k] >= |t|
  {
    UpToStays(m, t, u, pos, |t|);
    UpToGrows(m, u, pos, |t|, |u|);
  }

  predicate Definite(v: Settled) {
    v.True? || v.False?
  }

  lemma OrderStays(m: Matching, t: Trace, u: Trace, a: Pos, b: Pos)
    requires t <= u && Steady(m, t, u, a) && Steady(m, t, u, b) && Positions(m, t, a) != []
    ensures Positions(m, u, a) != [] && Positions(m, u, a)[0] == Positions(m, t, a)[0]
    ensures var first := Positions(m, t, a)[0];
            && (SomeBelow(Positions(m, u, b), first) <==> SomeBelow(Positions(m, t, b), first))
            && (SomeAbove(Positions(m, t, b), first) ==> SomeAbove(Positions(m, u, b), first))
  {
    PositionsStay(m, t, u, a);
    PositionsStay(m, t, u, b);
    var first, p, q := Positions(m, t, a)[0], Positions(m, t, b), Positions(m, u, b);
    assert first in Positions(m, t, a) && first < |t|;
    assert forall k | 0 <= k < |p| :: p[k] == q[k];
    if SomeBelow(q, first) {
      var k :| 0 <= k < |q| && q[k] < first;
      assert k < |p| && p[k] < first;
    }
  }

  lemma WithinStays(m: Matching, t: Trace, current: nat, u: Trace, now: nat, n: int, a: Pos)
    requires Grows(t, current, u, now) && Steady(m, t, u, a) && Definite(Judge(m, t, current, Within(n, a)))
    ensures Judge(m, u, now, Within(n, a)) == Judge(m, t, current, Within(n, a))
  {
    PositionsStay(m, t, u, a);
    ByStepStays(t, current, u, now, Positions(m, t, a), Positions(m, u, a), n);
  }

  /** Whether something happened by a step is settled by then, and before it only grows. */
  lemma ByStepStays(t: Trace, current: nat, u: Trace, now: nat, p: seq<nat>, q: seq<nat>, n: int)
    requires Grows(t, current, u, now) && p <= q
    requires (forall k | 0 <= k < |p| :: p[k] < |t|) && forall k | |p| <= k < |q| :: |t| <= q[k] < |u|
    ensures forall k | 0 <= k < |q| :: q[k] < |u|
    ensures SomeByStep(t, p, n) ==> SomeByStep(u, q, n)
    ensures current > n && SomeByStep(u, q, n) ==> SomeByStep(t, p, n)
  {
    assert forall k | 0 <= k < |p| :: q[k] == p[k] && t[p[k]] == u[q[k]];
    if SomeByStep(t, p, n) {
      var k :| 0 <= k < |p| && t[p[k]].step <= n;
      assert u[q[k]].step <= n;
    }
  }

  /** A true or false verdict of any combinator but `always` survives whatever is added, in the
      step just judged too, as long as no call takes over from what it looks for. */
  lemma VerdictStays(m: Matching, t: Trace, current: nat, u: Trace, now: nat, body: Body)
    requires Grows(t, current, u, now) && SteadyBody(m, t, u, body) && !body.Always?
    requires Definite(Judge(m, t, current, body))
    ensures Judge(m, u, now, body) == Judge(m, t, current, body)
  {
    match body
    case Before(a, b) => OrderStays(m, t, u, a, b);
    case Requires(a, b) => OrderStays(m, t, u, a, b);
    case After(a, b) => OrderStays(m, t, u, a, b);
    case Within(n, a) => WithinStays(m, t, current, u, now, n, a);
    case _ => PositionsStay(m, t, u, body.a);
  }

  // ----- `always` -----

  predicate StepMatched(m: Matching, t: Trace, a: Pos, step: nat) {
    exists i | 0 <= i < |t| :: At(m, t, a, i) && t[i].step == step
  }

  lemma StepMatchedIs(m: Matching, t: Trace, a: Pos, step: nat)
    ensures StepMatched(m, t, a, step) <==> InStep(t, Positions(m, t, a), step)
  {
    var p := Positions(m, t, a);
    if StepMatched(m, t, a, step) {
      var i :| 0 <= i < |t| && At(m, t, a, i) && t[i].step == step;
      assert i in p;
      var k :| 0 <= k < |p| && p[k] == i;
    }
    if InStep(t, p, step) {
      var k :| 0 <= k < |p| && t[p[k]].step == step;
      assert p[k] in p;
    }
  }

  /** The verdict, step by step. */
  lemma AlwaysIs(m: Matching, t: Trace, current: nat, a: Pos)
    ensures Judge(m, t, current, Always(a))
         == if exists j | 0 <= j < |t| :: t[j].step > 0 && !StepMatched(m, t, a, t[j].step) then False else PendingTrue
  {
    forall j | 0 <= j < |t| ensures StepMatched(m, t, a, t[j].step) <==> InStep(t, Positions(m, t, a), t[j].step) {
      StepMatchedIs(m, t, a, t[j].step);
    }
  }

  /** What turns a false `always`: the step just judged was the only one without a match, it has
      one now, and so has every step after it. */
  predicate AlwaysTurned(m: Matching, t: Trace, current: nat, u: Trace, a: Pos) {
    && (forall j | 0 <= j < |t| && 0 < t[j].step < current :: StepMatched(m, t, a, t[j].step))
    && (forall j | 0 <= j < |u| && u[j].step >= current && u[j].step > 0 :: StepMatched(m, u, a, u[j].step))
  }

  lemma EarlierMatched(m: Matching, t: Trace, current: nat, u: Trace, now: nat, a: Pos, step: nat)
    requires Grows(t, current, u, now) && step < current
    ensures StepMatched(m, u, a, step) <==> StepMatched(m, t, a, step)
  {
    forall i | 0 <= i < |t| && t[i].step == step ensures At(m, u, a, i) <==> At(m, t, a, i) {
      AtEarlier(m, t, current, u, now, a, i);
    }
    if StepMatched(m, u, a, step) {
      var i :| 0 <= i < |u| && At(m, u, a, i) && u[i].step == step;
      assert i < |t| && t[i].step == step;
    }
    if StepMatched(m, t, a, step) {
      var i :| 0 <= i < |t| && At(m, t, a, i) && t[i].step == step;
      assert u[i].step == step;
    }
  }

  /** Exactly when what is added turns a false `always`. */
  lemma AlwaysTurns(m: Matching, t: Trace, current: nat, u: Trace, now: nat, a: Pos)
    requires Grows(t, current, u, now) && Judge(m, t, current, Always(a)) == False
    ensures Judge(m, u, now, Always(a)) == (if AlwaysTurned(m, t, current, u, a) then PendingTrue else False)
  {
    AlwaysIs(m, u, now, a);
    forall j | 0 <= j < |u| && u[j].step < current
      ensures j < |t| && u[j] == t[j]
      ensures StepMatched(m, u, a, u[j].step) <==> StepMatched(m, t, a, t[j].step)
    {
      EarlierMatched(m, t, current, u, now, a, u[j].step);
    }
    assert forall j | 0 <= j < |t| :: u[j] == t[j];
  }

  /** Nothing in later steps does. */
  lemma LaterNeverTurns(m: Matching, t: Trace, current: nat, u: Trace, now: nat, a: Pos)
    requires Extends(t, current, u, now) && Judge(m, t, current, Always(a)) == False
    ensures !AlwaysTurned(m, t, current, u, a)
  {
    AlwaysIs(m, t, current, a);
    LaterSteady(m, t, current, u, now, a);
    var j :| 0 <= j < |t| && t[j].step > 0 && !StepMatched(m, t, a, t[j].step);
    assert u[j] == t[j];
    if StepMatched(m, u, a, t[j].step) {
      var i :| 0 <= i < |u| && At(m, u, a, i) && u[i].step == t[j].step;
      AtStays(m, t, u, a, i);
    }
  }

  /** Whether what is added leaves a check's verdict alone. */
  predicate Keeps(m: Matching, t: Trace, current: nat, u: Trace, now: nat, body: Body) {
    && Grows(t, current, u, now)
    && if body.Always? then Judge(m, t, current, body) == False ==> !AlwaysTurned(m, t, current, u, body.a)
       else SteadyBody(m, t, u, body)
  }

  lemma KeepsVerdict(m: Matching, t: Trace, current: nat, u: Trace, now: nat, body: Body)
    requires Keeps(m, t, current, u, now, body) && Definite(Judge(m, t, current, body))
    ensures Judge(m, u, now, body) == Judge(m, t, current, body)
  {
    if body.Always? { AlwaysTurns(m, t, current, u, now, body.a); } else { VerdictStays(m, t, current, u, now, body); }
  }

  /** Later steps leave every verdict alone. */
  lemma LaterKeeps(m: Matching, t: Trace, current: nat, u: Trace, now: nat, body: Body)
    requires Extends(t, current, u, now)
    ensures Keeps(m, t, current, u, now, body)
  {
    LaterSteady(m, t, current, u, now, body.a);
    if body.Before? || body.Requires? || body.After? { LaterSteady(m, t, current, u, now, body.b); }
    if body.Always? && Judge(m, t, current, body) == False { LaterNeverTurns(m, t, current, u, now, body.a); }
  }

  // ----- exactly which additions turn verdicts -----

  /** No form that was a hit, for whatever it wrote, is taken over. */
  ghost predicate Untouched(m: Matching, t: Trace, u: Trace) {
    forall name, spec :: NoneTaken(m, t, u, name, spec)
  }

  lemma {:induction false} UntouchedSteady(m: Matching, t: Trace, u: Trace, pos: Pos)
    requires Untouched(m, t, u)
    ensures Steady(m, t, u, pos)
  {
    match pos
    case Without(a, b) =>
      UntouchedSteady(m, t, u, a);
      UntouchedSteady(m, t, u, b);
    case _ =>
  }

  /** Every position set is prefix-stable if and only if no form is taken over. */
  lemma PositionsExactly(m: Matching, t: Trace, u: Trace)
    requires t <= u
    ensures (forall pos :: Positions(m, t, pos) <= Positions(m, u, pos)) <==> Untouched(m, t, u)
  {
    if Untouched(m, t, u) {
      forall pos ensures Positions(m, t, pos) <= Positions(m, u, pos) {
        UntouchedSteady(m, t, u, pos);
        PositionsStay(m, t, u, pos);
      }
    }
    forall name, spec, i | 0 <= i < |t| && TakenOver(m, t, u, name, spec, i)
      ensures !(Positions(m, t, Called(name, spec)) <= Positions(m, u, Called(name, spec)))
    {
      HitStays(m, t, u, name, spec, i);
      assert i in Positions(m, t, Called(name, spec)) && i !in Positions(m, u, Called(name, spec));
    }
  }

  /** The forms among the hits for a call, but for connections. */
  function FormsOf(name: string, spec: Spec): Pos {
    Without(Without(Called(name, spec), CalledServer("")), CalledOther(""))
  }

  /** A tool call added in the step just judged leaves every verdict of every combinator but
      `always` alone if and only if it takes over no form. */
  lemma CallTurns(m: Matching, t: Trace, current: nat, call: Event)
    requires call.Tool? && call.step == current && forall i | 0 <= i < |t| :: t[i].step <= current
    ensures Untouched(m, t, t + [call]) <==>
            forall body: Body | !body.Always? && Definite(Judge(m, t, current, body)) ::
              Judge(m, t + [call], current, body) == Judge(m, t, current, body)
  {
    var u := t + [call];
    if Untouched(m, t, u) {
      forall body: Body | !body.Always? && Definite(Judge(m, t, current, body))
        ensures Judge(m, u, current, body) == Judge(m, t, current, body)
      {
        UntouchedSteady(m, t, u, body.a);
        if body.Before? || body.Requires? || body.After? { UntouchedSteady(m, t, u, body.b); }
        VerdictStays(m, t, current, u, current, body);
      }
    }
    forall name, spec, i | 0 <= i < |t| && TakenOver(m, t, u, name, spec, i)
      ensures exists body: Body ::
                && !body.Always? && Definite(Judge(m, t, current, body))
                && Judge(m, u, current, body) != Judge(m, t, current, body)
    {
      var pos := FormsOf(name, spec);
      var seen := |Positions(m, t, pos)|;
      FewerForms(m, t, call, name, spec, i);
      var body := AtMost(pos, seen - 1);
      assert Judge(m, t, current, body) == False && Judge(m, u, current, body) == PendingTrue;
    }
  }

  lemma FormsAt(m: Matching, t: Trace, name: string, spec: Spec, i: nat)
    requires i < |t|
    ensures At(m, t, FormsOf(name, spec), i) <==> Hit(m, t, name, spec, i) && !t[i].Tool?
  {
    assert At(m, t, Without(Called(name, spec), CalledServer("")), i)
      <==> Hit(m, t, name, spec, i) && !(t[i].Tool? && t[i].server == "");
  }

  lemma FewerForms(m: Matching, t: Trace, call: Event, name: string, spec: Spec, i: nat)
    requires call.Tool? && i < |t| && TakenOver(m, t, t + [call], name, spec, i)
    ensures |Positions(m, t + [call], FormsOf(name, spec))| < |Positions(m, t, FormsOf(name, spec))|
  {
    var u := t + [call];
    forall k | 0 <= k < |t| ensures At(m, u, FormsOf(name, spec), k) ==> At(m, t, FormsOf(name, spec), k) {
      FormKept(m, t, u, name, spec, k);
    }
    FormKept(m, t, u, name, spec, i);
    FormsAt(m, u, name, spec, |t|);
    OneLost(m, t, u, FormsOf(name, spec), i);
  }

  lemma OneLost(m: Matching, t: Trace, u: Trace, pos: Pos, i: nat)
    requires t <= u && |u| == |t| + 1 && !At(m, u, pos, |t|)
    requires forall k | 0 <= k < |t| :: At(m, u, pos, k) ==> At(m, t, pos, k)
    requires i < |t| && At(m, t, pos, i) && !At(m, u, pos, i)
    ensures |Positions(m, u, pos)| < |Positions(m, t, pos)|
  {
    HowManyPositions(m, t, pos);
    HowManyPositions(m, u, pos);
    FewerTrue(Matched(m, t, pos), Matched(m, u, pos), |t|, i);
  }

  // Counting the positions of a list.

  function Matched(m: Matching, t: Trace, pos: Pos): nat -> bool {
    (i: nat) => i < |t| && At(m, t, pos, i)
  }

  function HowManyTrue(f: nat -> bool, n: nat): nat {
    if n == 0 then 0 else HowManyTrue(f, n - 1) + if f(n - 1) then 1 else 0
  }

  lemma {:induction false} HowMany(m: Matching, t: Trace, pos: Pos, n: nat)
    requires n <= |t|
    ensures |UpTo(m, t, pos, n)| == HowManyTrue(Matched(m, t, pos), n)
  {
    if n > 0 { HowMany(m, t, pos, n - 1); }
  }

  lemma HowManyPositions(m: Matching, t: Trace, pos: Pos)
    ensures |Positions(m, t, pos)| == HowManyTrue(Matched(m, t, pos), |t|)
  {
    HowMany(m, t, pos, |t|);
  }

  lemma {:induction false} NoMoreTrue(f: nat -> bool, g: nat -> bool, n: nat)
    requires forall k | 0 <= k < n :: g(k) ==> f(k)
    ensures HowManyTrue(g, n) <= HowManyTrue(f, n)
  {
    if n > 0 { NoMoreTrue(f, g, n - 1); }
  }

  lemma {:induction false} FewerTrue(f: nat -> bool, g: nat -> bool, n: nat, i: nat)
    requires (forall k | 0 <= k < n :: g(k) ==> f(k)) && i < n && f(i) && !g(i)
    ensures HowManyTrue(g, n) < HowManyTrue(f, n)
  {
    if i == n - 1 { NoMoreTrue(f, g, i); } else { FewerTrue(f, g, n - 1, i); }
  }

  lemma FormKept(m: Matching, t: Trace, u: Trace, name: string, spec: Spec, k: nat)
    requires t <= u && k < |t|
    ensures At(m, u, FormsOf(name, spec), k) ==> At(m, t, FormsOf(name, spec), k)
    ensures TakenOver(m, t, u, name, spec, k) ==> At(m, t, FormsOf(name, spec), k) && !At(m, u, FormsOf(name, spec), k)
  {
    HitStays(m, t, u, name, spec, k);
    FormsAt(m, t, name, spec, k);
    FormsAt(m, u, name, spec, k);
  }

  /** A held turn: after the result of a step was judged, the agent halts in the same step. */
  lemma HeldTurn(m: Matching)
    ensures var t := [Reply(1)]; var u := [Reply(1), Halt(1, "a")];
            && Judge(m, t, 1, Always(Halted)) == False && Judge(m, u, 1, Always(Halted)) == PendingTrue
            && AlwaysTurned(m, t, 1, u, Halted)
  {
    var t: Trace, u: Trace := [Reply(1)], [Reply(1), Halt(1, "a")];
    AlwaysIs(m, t, 1, Halted);
    AlwaysIs(m, u, 1, Halted);
    assert t[0].step > 0 && !StepMatched(m, t, Halted, 1);
    assert At(m, u, Halted, 1) && u[1].step == 1;
    assert StepMatched(m, u, Halted, 1);
  }

  // ----- passes -----

  type Source = seq<(string, Body)>

  /** The verdict of every check by name; the last check of a name wins. */
  function Pass(m: Matching, source: Source, t: Trace, current: nat): map<string, Settled>
    decreases |source|
  {
    if source == [] then map[]
    else
      var (name, body) := source[|source| - 1];
      Pass(m, source[..|source| - 1], t, current)[name := Judge(m, t, current, body)]
  }

  /** Names in the order they were first recorded. */
  function Order(order: seq<string>, source: Source): seq<string>
    decreases |source|
  {
    if source == [] then order
    else
      var before := Order(order, source[..|source| - 1]);
      var name := source[|source| - 1].0;
      if name in before then before else before + [name]
  }

  datatype State = State(latched: map<string, (bool, nat)>, pending: map<string, Settled>, order: seq<string>)

  const NOTHING := State(map[], map[], [])

  /** The end of `evaluate`: what is definite is latched unless it was, the rest is pending. */
  function Latch(s: State, pass: map<string, Settled>, step: nat): State {
    s.(latched := NowLatched(s.latched, pass, step), pending := NowPending(s.latched, s.pending, pass))
  }

  function NowLatched(latched: map<string, (bool, nat)>, pass: map<string, Settled>, step: nat)
    : map<string, (bool, nat)>
  {
    latched + map name | name in pass && name !in latched && Definite(pass[name]) :: (pass[name].True?, step)
  }

  function NowPending(latched: map<string, (bool, nat)>, pending: map<string, Settled>, pass: map<string, Settled>)
    : map<string, Settled>
  {
    pending + map name | name in pass && name !in latched && !Definite(pass[name]) :: pass[name]
  }

  function Evaluate(m: Matching, source: Source, s: State, t: Trace, current: nat, step: nat): State {
    Latch(s.(order := Order(s.order, source)), Pass(m, source, t, current), step)
  }

  /** The outcome a state reports for a name. */
  function Outcome(s: State, name: string): bool {
    if name in s.latched then s.latched[name].0 else name in s.pending && s.pending[name] == PendingTrue
  }

  datatype Moment = Moment(trace: Trace, current: nat, step: nat)

  predicate KeptBy(m: Matching, source: Source, prior: Moment, last: Moment) {
    forall k | 0 <= k < |source| :: Keeps(m, prior.trace, prior.current, last.trace, last.current, source[k].1)
  }

  /** Between passes nothing is added that turns a verdict; later steps never do. */
  predicate Growing(m: Matching, source: Source, moments: seq<Moment>) {
    forall i | 0 < i < |moments| :: KeptBy(m, source, moments[i - 1], moments[i])
  }

  /** Every pass is of a later step than the one before. */
  predicate Stepping(moments: seq<Moment>) {
    forall i | 0 < i < |moments| ::
      Extends(moments[i - 1].trace, moments[i - 1].current, moments[i].trace, moments[i].current)
  }

  lemma SteppingGrows(m: Matching, source: Source, moments: seq<Moment>)
    requires Stepping(moments)
    ensures Growing(m, source, moments)
  {
    forall i | 0 < i < |moments| ensures KeptBy(m, source, moments[i - 1], moments[i]) {
      var prior, last := moments[i - 1], moments[i];
      forall k | 0 <= k < |source| ensures Keeps(m, prior.trace, prior.current, last.trace, last.current, source[k].1) {
        LaterKeeps(m, prior.trace, prior.current, last.trace, last.current, source[k].1);
      }
    }
  }

  /** The state after the first `n` passes. */
  function EvaluateTo(m: Matching, source: Source, moments: seq<Moment>, n: nat): State
    requires n <= |moments|
  {
    if n == 0 then NOTHING
    else
      var last := moments[n - 1];
      Evaluate(m, source, EvaluateTo(m, source, moments, n - 1), last.trace, last.current, last.step)
  }

  function EvaluateAll(m: Matching, source: Source, moments: seq<Moment>): State {
    EvaluateTo(m, source, moments, |moments|)
  }

  lemma {:induction false} PassNames(m: Matching, source: Source, t: Trace, current: nat, u: Trace, now: nat)
    ensures Pass(m, source, t, current).Keys == Pass(m, source, u, now).Keys
    decreases |source|
  {
    if source != [] { PassNames(m, source[..|source| - 1], t, current, u, now); }
  }

  lemma {:induction false} PassStays(m: Matching, source: Source, t: Trace, current: nat, u: Trace, now: nat,
                                     name: string)
    requires forall k | 0 <= k < |source| :: Keeps(m, t, current, u, now, source[k].1)
    requires name in Pass(m, source, t, current) && Definite(Pass(m, source, t, current)[name])
    ensures name in Pass(m, source, u, now) && Pass(m, source, u, now)[name] == Pass(m, source, t, current)[name]
    decreases |source|
  {
    var (last, body) := source[|source| - 1];
    if last == name {
      KeepsVerdict(m, t, current, u, now, body);
    } else {
      PassStays(m, source[..|source| - 1], t, current, u, now, name);
    }
  }

  lemma {:induction false} OrderFixed(order: seq<string>, source: Source)
    ensures forall i | 0 <= i < |source| :: source[i].0 in Order(order, source)
    ensures forall name | name in order :: name in Order(order, source)
    decreases |source|
  {
    if source != [] { OrderFixed(order, source[..|source| - 1]); }
  }

  lemma {:induction false} OrderAgain(order: seq<string>, source: Source)
    requires forall i | 0 <= i < |source| :: source[i].0 in order
    ensures Order(order, source) == order
    decreases |source|
  {
    if source != [] { OrderAgain(order, source[..|source| - 1]); }
  }

  predicate LastNamed(source: Source, name: string, k: nat) {
    k < |source| && source[k].0 == name && forall j | k < j < |source| :: source[j].0 != name
  }

  /** A pass holds the verdict of the last check of each name, and no other names. */
  lemma {:induction false} PassIs(m: Matching, source: Source, t: Trace, current: nat, name: string)
    ensures var pass := Pass(m, source, t, current);
            if name in pass
            then exists k | 0 <= k < |source| ::
                   LastNamed(source, name, k) && pass[name] == Judge(m, t, current, source[k].1)
            else forall k | 0 <= k < |source| :: source[k].0 != name
    decreases |source|
  {
    if source != [] {
      var n := |source| - 1;
      PassIs(m, source[..n], t, current, name);
      var pass, before := Pass(m, source, t, current), Pass(m, source[..n], t, current);
      if source[n].0 == name {
        assert LastNamed(source, name, n) && pass[name] == Judge(m, t, current, source[n].1);
      } else if name in before {
        var k :| 0 <= k < n && LastNamed(source[..n], name, k)
                 && before[name] == Judge(m, t, current, source[..n][k].1);
        assert LastNamed(source, name, k) && source[k] == source[..n][k];
      }
    }
  }

  predicate FirstNamed(source: Source, name: string, k: nat) {
    k < |source| && source[k].0 == name && forall j | 0 <= j < k :: source[j].0 != name
  }

  /** Each name of a source is listed once, before those that come first later in it. */
  predicate ListedInOrder(names: seq<string>, source: Source) {
    && (forall k | 0 <= k < |source| :: source[k].0 in names)
    && (forall i | 0 <= i < |names| :: Recorded(names[i], source))
    && forall i, j | 0 <= i < j < |names| :: Sooner(names[i], names[j], source)
  }

  predicate Recorded(name: string, source: Source) {
    exists k | 0 <= k < |source| :: FirstNamed(source, name, k)
  }

  predicate Sooner(a: string, b: string, source: Source) {
    forall k, l | 0 <= k < |source| && 0 <= l < |source| && FirstNamed(source, a, k) && FirstNamed(source, b, l) ::
      k < l
  }

  lemma {:induction false} OrderIs(source: Source)
    ensures ListedInOrder(Order([], source), source)
    decreases |source|
  {
    if source != [] {
      var n := |source| - 1;
      OrderIs(source[..n]);
      OrderGrows(Order([], source[..n]), source);
    }
  }

  lemma FirstEarlier(source: Source, name: string, k: nat)
    requires source != [] && k < |source| - 1
    ensures FirstNamed(source, name, k) <==> FirstNamed(source[..|source| - 1], name, k)
  {
  }

  lemma OrderGrows(names: seq<string>, source: Source)
    requires source != [] && ListedInOrder(names, source[..|source| - 1])
    ensures var name := source[|source| - 1].0;
            ListedInOrder(if name in names then names else names + [name], source)
  {
    var n := |source| - 1;
    var name := source[n].0;
    var more := if name in names then names else names + [name];
    forall k | 0 <= k < |source| ensures source[k].0 in more { if k < n { assert source[..n][k].0 in names; } }
    forall i | 0 <= i < |more| ensures Recorded(more[i], source) {
      if i < |names| {
        assert Recorded(names[i], source[..n]);
        var k :| 0 <= k < n && FirstNamed(source[..n], names[i], k);
        FirstEarlier(source, names[i], k);
      } else {
        forall j | 0 <= j < n ensures source[j].0 != name { assert source[..n][j].0 in names; }
        assert FirstNamed(source, name, n);
      }
    }
    forall i, j | 0 <= i < j < |more| ensures Sooner(more[i], more[j], source) {
      assert Recorded(names[i], source[..n]);
      var at :| 0 <= at < n && FirstNamed(source[..n], names[i], at);
      FirstEarlier(source, names[i], at);
      if j < |names| {
        assert Sooner(names[i], names[j], source[..n]) && Recorded(names[j], source[..n]);
        var other :| 0 <= other < n && FirstNamed(source[..n], names[j], other);
        FirstEarlier(source, names[j], other);
      } else {
        forall k | 0 <= k < n ensures source[k].0 != name { assert source[..n][k].0 in names; }
      }
    }
  }

  /** What the state holds is what a pass would say on its own. */
  predicate Faithful(s: State, pass: map<string, Settled>) {
    && s.latched.Keys <= pass.Keys && s.pending.Keys <= pass.Keys
    && forall name | name in pass :: Agrees(s, name, pass[name])
  }

  predicate Agrees(s: State, name: string, verdict: Settled) {
    if name in s.latched then verdict == (if s.latched[name].0 then True else False)
    else name in s.pending && s.pending[name] == verdict && !Definite(verdict)
  }

  lemma LatchFaithful(s: State, pass: map<string, Settled>, step: nat)
    requires s.latched.Keys <= pass.Keys && s.pending.Keys <= pass.Keys
    requires forall name | name in s.latched :: Agrees(s, name, pass[name])
    ensures Faithful(Latch(s, pass, step), pass)
  {
    var t := Latch(s, pass, step);
    forall name | name in pass ensures Agrees(t, name, pass[name]) {
      if name in s.latched { assert t.latched[name] == s.latched[name]; }
    }
  }

  function PassAt(m: Matching, source: Source, moment: Moment): map<string, Settled> {
    Pass(m, source, moment.trace, moment.current)
  }

  lemma {:induction false} PassesFaithful(m: Matching, source: Source, moments: seq<Moment>, n: nat)
    requires 0 < n <= |moments| && Growing(m, source, moments)
    ensures var s := EvaluateTo(m, source, moments, n);
            Faithful(s, PassAt(m, source, moments[n - 1])) && s.order == Order([], source)
  {
    var last, before := moments[n - 1], EvaluateTo(m, source, moments, n - 1);
    if n > 1 {
      PassesFaithful(m, source, moments, n - 1);
      CarriedOver(m, source, before, moments[n - 2], last);
      OrderFixed([], source);
      OrderAgain(Order([], source), source);
    }
    LatchFaithful(before.(order := Order(before.order, source)), PassAt(m, source, last), last.step);
  }

  lemma CarriedOver(m: Matching, source: Source, s: State, prior: Moment, last: Moment)
    requires Faithful(s, PassAt(m, source, prior)) && KeptBy(m, source, prior, last)
    ensures PassAt(m, source, last).Keys == PassAt(m, source, prior).Keys
    ensures forall name | name in s.latched :: Agrees(s, name, PassAt(m, source, last)[name])
  {
    PassNames(m, source, prior.trace, prior.current, last.trace, last.current);
    forall name | name in s.latched ensures Agrees(s, name, PassAt(m, source, last)[name]) {
      assert Agrees(s, name, PassAt(m, source, prior)[name]);
      PassStays(m, source, prior.trace, prior.current, last.trace, last.current, name);
    }
  }

  /** Latching agrees with hindsight: after passes between which nothing is added that turns a
      verdict, every check reports what one pass over the final trace reports, in the same
      order. */
  lemma LatchingIsHindsight(m: Matching, source: Source, moments: seq<Moment>, name: string)
    requires moments != [] && Growing(m, source, moments)
    ensures var last := moments[|moments| - 1];
            var many, one := EvaluateAll(m, source, moments), EvaluateAll(m, source, [last]);
            many.order == one.order && Outcome(many, name) == Outcome(one, name)
  {
    var last := moments[|moments| - 1];
    PassesFaithful(m, source, moments, |moments|);
    PassesFaithful(m, source, [last], 1);
    var pass := PassAt(m, source, last);
    if name in pass {
      assert Agrees(EvaluateAll(m, source, moments), name, pass[name]);
      assert Agrees(EvaluateAll(m, source, [last]), name, pass[name]);
    }
  }

  /** So it does wherever each pass is of a later step than the one before, whatever the checks. */
  lemma SteppingIsHindsight(m: Matching, source: Source, moments: seq<Moment>, name: string)
    requires moments != [] && Stepping(moments)
    ensures var last := moments[|moments| - 1];
            var many, one := EvaluateAll(m, source, moments), EvaluateAll(m, source, [last]);
            many.order == one.order && Outcome(many, name) == Outcome(one, name)
  {
    SteppingGrows(m, source, moments);
    LatchingIsHindsight(m, source, moments, name);
  }

  predicate DefiniteIn(pass: map<string, Settled>, name: string) {
    name in pass && Definite(pass[name])
  }

  predicate NoneBefore(passes: seq<map<string, Settled>>, name: string, k: nat)
    requires k <= |passes|
  {
    forall j | 0 <= j < k :: !DefiniteIn(passes[j], name)
  }

  /** Latching over passes given with their steps. */
  function LatchTo(passes: seq<map<string, Settled>>, steps: seq<nat>, n: nat): State
    requires n <= |passes| == |steps|
  {
    if n == 0 then NOTHING else Latch(LatchTo(passes, steps, n - 1), passes[n - 1], steps[n - 1])
  }

  lemma {:induction false} EvaluateLatches(m: Matching, source: Source, moments: seq<Moment>,
                                           passes: seq<map<string, Settled>>, steps: seq<nat>, n: nat)
    requires n <= |moments| == |passes| == |steps|
    requires forall i | 0 <= i < |moments| :: passes[i] == PassAt(m, source, moments[i]) && steps[i] == moments[i].step
    ensures EvaluateTo(m, source, moments, n).latched == LatchTo(passes, steps, n).latched
    ensures EvaluateTo(m, source, moments, n).pending == LatchTo(passes, steps, n).pending
  {
    if n > 0 {
      EvaluateLatches(m, source, moments, passes, steps, n - 1);
      var s := EvaluateTo(m, source, moments, n - 1);
      LatestLatch(m, source, moments, n);
      LatchSame(s.(order := Order(s.order, source)), LatchTo(passes, steps, n - 1), passes[n - 1], steps[n - 1]);
    }
  }

  lemma LatestLatch(m: Matching, source: Source, moments: seq<Moment>, n: nat)
    requires 0 < n <= |moments|
    ensures var s := EvaluateTo(m, source, moments, n - 1);
            EvaluateTo(m, source, moments, n)
            == Latch(s.(order := Order(s.order, source)), PassAt(m, source, moments[n - 1]), moments[n - 1].step)
  {
  }

  /** Latching does not depend on the order of the names. */
  lemma LatchSame(s: State, t: State, pass: map<string, Settled>, step: nat)
    requires s.latched == t.latched && s.pending == t.pending
    ensures Latch(s, pass, step).latched == Latch(t, pass, step).latched
    ensures Latch(s, pass, step).pending == Latch(t, pass, step).pending
  {
  }

  /** A check is latched exactly when some pass was definite about it, with the verdict and the
      step of the first such pass, which is returned. */
  lemma {:induction false} LatchedFirst(passes: seq<map<string, Settled>>, steps: seq<nat>, name: string, n: nat)
    returns (k: nat)
    requires n <= |passes| == |steps|
    ensures var s := LatchTo(passes, steps, n);
            if name in s.latched
            then k < n && DefiniteIn(passes[k], name) && NoneBefore(passes, name, k)
                 && s.latched[name] == (passes[k][name].True?, steps[k])
            else NoneBefore(passes, name, n)
  {
    k := 0;
    if n > 0 {
      k := LatchedFirst(passes, steps, name, n - 1);
      LatchedNow(LatchTo(passes, steps, n - 1), passes[n - 1], steps[n - 1], name);
      if name !in LatchTo(passes, steps, n - 1).latched { k := n - 1; }
    }
  }

  lemma LatchedNow(s: State, pass: map<string, Settled>, step: nat, name: string)
    ensures var t := Latch(s, pass, step);
            && (name in t.latched <==> name in s.latched || DefiniteIn(pass, name))
            && (name in s.latched ==> t.latched[name] == s.latched[name])
            && (name in t.latched && name !in s.latched ==> t.latched[name] == (pass[name].True?, step))
  {
  }

  // ----- exactly when latching agrees with hindsight -----

  predicate Passed(v: Settled) {
    v.True? || v.PendingTrue?
  }

  /** The first definite verdict of a check, if any pass had one, is as the last pass has it. */
  predicate FirstHolds(passes: seq<map<string, Settled>>, name: string)
    requires passes != []
  {
    var last := passes[|passes| - 1];
    forall k | 0 <= k < |passes| :: DefiniteIn(passes[k], name) && NoneBefore(passes, name, k) ==>
      passes[k][name].True? == (name in last && Passed(last[name]))
  }

  lemma {:induction false} PendingLast(passes: seq<map<string, Settled>>, steps: seq<nat>, name: string, n: nat)
    requires 0 < n <= |passes| == |steps| && NoneBefore(passes, name, n)
    requires forall i | 0 <= i < n :: name in passes[i]
    ensures var s := LatchTo(passes, steps, n);
            name !in s.latched && name in s.pending && s.pending[name] == passes[n - 1][name]
  {
    var k := LatchedFirst(passes, steps, name, n - 1);
  }

  function Passes(m: Matching, source: Source, moments: seq<Moment>): (r: seq<map<string, Settled>>)
    ensures |r| == |moments| && forall i | 0 <= i < |moments| :: r[i] == PassAt(m, source, moments[i])
  {
    seq(|moments|, i requires 0 <= i < |moments| => PassAt(m, source, moments[i]))
  }

  function Steps(moments: seq<Moment>): (r: seq<nat>)
    ensures |r| == |moments| && forall i | 0 <= i < |moments| :: r[i] == moments[i].step
  {
    seq(|moments|, i requires 0 <= i < |moments| => moments[i].step)
  }

  /** Of any passes at all, over traces that grew in any way: what is reported in the end is what
      the last pass alone would report if and only if the first definite verdict is. */
  lemma HindsightExactly(m: Matching, source: Source, moments: seq<Moment>, name: string)
    requires moments != []
    ensures var one := EvaluateAll(m, source, [moments[|moments| - 1]]);
            Outcome(EvaluateAll(m, source, moments), name) == Outcome(one, name)
            <==> FirstHolds(Passes(m, source, moments), name)
  {
    var passes, steps := Passes(m, source, moments), Steps(moments);
    EvaluateLatches(m, source, moments, passes, steps, |moments|);
    OneOutcome(m, source, moments[|moments| - 1], name);
    forall i | 0 <= i < |moments| ensures name in passes[i] <==> name in passes[|passes| - 1] {
      var end := moments[|moments| - 1];
      PassNames(m, source, moments[i].trace, moments[i].current, end.trace, end.current);
    }
    OutcomeOf(passes, steps, name);
  }

  lemma OneOutcome(m: Matching, source: Source, last: Moment, name: string)
    ensures var pass := PassAt(m, source, last);
            Outcome(EvaluateAll(m, source, [last]), name) == (name in pass && Passed(pass[name]))
  {
    assert EvaluateTo(m, source, [last], 0) == NOTHING;
    LatchOnce(NOTHING.(order := Order([], source)), PassAt(m, source, last), last.step, name);
  }

  lemma LatchOnce(s: State, pass: map<string, Settled>, step: nat, name: string)
    requires s.latched == map[] && s.pending == map[]
    ensures Outcome(Latch(s, pass, step), name) == (name in pass && Passed(pass[name]))
  {
  }

  lemma OutcomeOf(passes: seq<map<string, Settled>>, steps: seq<nat>, name: string)
    requires passes != [] && |passes| == |steps|
    requires forall i | 0 <= i < |passes| :: name in passes[i] <==> name in passes[|passes| - 1]
    ensures var last := passes[|passes| - 1];
            Outcome(LatchTo(passes, steps, |passes|), name) == (name in last && Passed(last[name]))
            <==> FirstHolds(passes, name)
  {
    var s := LatchTo(passes, steps, |passes|);
    var k := LatchedFirst(passes, steps, name, |passes|);
    if name in s.latched {
      OnlyFirst(passes, name, k);
    } else if name in passes[|passes| - 1] {
      PendingLast(passes, steps, name, |passes|);
    } else {
      NeverPending(passes, steps, name, |passes|);
    }
  }

  lemma OnlyFirst(passes: seq<map<string, Settled>>, name: string, k: nat)
    requires k < |passes| && DefiniteIn(passes[k], name) && NoneBefore(passes, name, k)
    ensures var last := passes[|passes| - 1];
            FirstHolds(passes, name) <==> passes[k][name].True? == (name in last && Passed(last[name]))
  {
    forall j | 0 <= j < |passes| && DefiniteIn(passes[j], name) && NoneBefore(passes, name, j) ensures j == k {}
  }

  lemma {:induction false} NeverPending(passes: seq<map<string, Settled>>, steps: seq<nat>, name: string, n: nat)
    requires n <= |passes| == |steps| && forall i | 0 <= i < n :: name !in passes[i]
    ensures name !in LatchTo(passes, steps, n).pending && name !in LatchTo(passes, steps, n).latched
  {
    if n > 0 { NeverPending(passes, steps, name, n - 1); }
  }

  /** On a held turn it is not: the check latched false at the result stays so after the halt. */
  lemma HeldTurnLatched(m: Matching, source: Source, result: Moment, halt: Moment)
    requires source == [("done", Always(Halted))]
    requires result == Moment([Reply(1)], 1, 1) && halt == Moment([Reply(1), Halt(1, "a")], 1, 1)
    ensures !Outcome(EvaluateAll(m, source, [result, halt]), "done")
    ensures Outcome(EvaluateAll(m, source, [halt]), "done")
  {
    HeldTurn(m);
    OnePass(m, source, result);
    OnePass(m, source, halt);
    OneOutcome(m, source, halt, "done");
    HindsightExactly(m, source, [result, halt], "done");
    var passes := Passes(m, source, [result, halt]);
    assert DefiniteIn(passes[0], "done") && NoneBefore(passes, "done", 0);
  }

  lemma OnePass(m: Matching, source: Source, moment: Moment)
    requires |source| == 1
    ensures PassAt(m, source, moment) == map[source[0].0 := Judge(m, moment.trace, moment.current, source[0].1)]
  {
    assert source[..0] == [] && Pass(m, source[..0], moment.trace, moment.current) == map[];
  }

  /** A call that runs in the step of a form already judged takes over from what the form wrote,
      and turns a verdict round. */
  lemma SameStepFlips(m: Matching, form: Event, ran: Event, name: string)
    requires form.Form? && form.error && ran.Tool? && ran.step == form.step
    requires ran.server + "/" + ran.tool == name && m.call(ran, []) && m.writes(form.source, name, [])
    ensures Judge(m, [form], form.step, Before(Called(name, []), Errored)) == False
    ensures Judge(m, [form, ran], form.step, Before(Called(name, []), Errored)) == True
  {
    FormThenCall(m, form, ran, name);
    JudgedAlone(m, form, name);
    JudgedWithCall(m, form, ran, name);
  }

  lemma JudgedAlone(m: Matching, form: Event, name: string)
    requires At(m, [form], Called(name, []), 0) && At(m, [form], Errored, 0)
    ensures Judge(m, [form], form.step, Before(Called(name, []), Errored)) == False
  {
    OneOf(m, [form], Called(name, []));
    OneOf(m, [form], Errored);
    assert !SomeBelow([0], 0);
  }

  lemma JudgedWithCall(m: Matching, form: Event, ran: Event, name: string)
    requires !At(m, [form, ran], Called(name, []), 0) && At(m, [form, ran], Called(name, []), 1)
    requires At(m, [form, ran], Errored, 0) && !At(m, [form, ran], Errored, 1)
    ensures Judge(m, [form, ran], form.step, Before(Called(name, []), Errored)) == True
  {
    TwoOf(m, [form, ran], Called(name, []));
    TwoOf(m, [form, ran], Errored);
    var q: seq<nat> := [0];
    assert q[0] < 1 && SomeBelow(q, 1);
  }

  lemma FormThenCall(m: Matching, form: Event, ran: Event, name: string)
    requires form.Form? && form.error && ran.Tool? && ran.step == form.step
    requires ran.server + "/" + ran.tool == name && m.call(ran, []) && m.writes(form.source, name, [])
    ensures At(m, [form], Called(name, []), 0) && At(m, [form], Errored, 0)
    ensures !At(m, [form, ran], Called(name, []), 0) && At(m, [form, ran], Called(name, []), 1)
    ensures At(m, [form, ran], Errored, 0) && !At(m, [form, ran], Errored, 1)
  {
    var u := [form, ran];
    assert Ran(m, u[1], name, []);
    assert RanInStep(m, u, form.step, name, []);
  }

  lemma OneOf(m: Matching, t: Trace, pos: Pos)
    requires |t| == 1
    ensures Positions(m, t, pos) == if At(m, t, pos, 0) then [0] else []
  {
    assert UpTo(m, t, pos, 0) == [];
  }

  lemma TwoOf(m: Matching, t: Trace, pos: Pos)
    requires |t| == 2
    ensures Positions(m, t, pos) == (if At(m, t, pos, 0) then [0] else []) + if At(m, t, pos, 1) then [1] else []
  {
    assert UpTo(m, t, pos, 0) == [] && UpTo(m, t, pos, 1) == if At(m, t, pos, 0) then [0] else [];
  }
}
