/** What a call binds, said of the slots of its frame and of the items of its arguments
    (`packages/interpreter/src/func.ts`, `packages/interpreter/src/lisp.ts`): which slot gets which
    argument, what the argument's value is, and which slot a parameter names. */
module Arguments {
  import opened Wrappers
  import opened LispObjects
  import opened Store
  import opened LexicalCompiler
  import Run = AddressedEval
  import Named = NamedEval

  // ----- lists -----

  function Items(x: Obj): seq<Obj> {
    if x.Cell? then [x.car] + Items(x.cdr) else []
  }

  /** A proper list with these items. */
  predicate ListOf(x: Obj, vs: seq<Obj>)
    decreases |vs|
  {
    if vs == [] then x.Nil? else x.Cell? && x.car == vs[0] && ListOf(x.cdr, vs[1..])
  }

  lemma {:induction false} ListMade(vs: seq<Obj>)
    ensures ListOf(ToList(vs), vs)
  {
    if vs != [] { ListMade(vs[1..]); }
  }

  // ----- positional and rest arguments -----

  /** How many arguments a function without keywords takes. */
  predicate Fits(n: nat, carity: int) {
    if carity < 0 then n >= -carity - 1 else n == carity
  }

  /** Slot `i` holds the value of argument `i`; the last slot, if there is a rest parameter, the
      list of the values of the others. */
  predicate InSlots(frame: seq<Obj>, vs: seq<Obj>, carity: int) {
    && Fits(|vs|, carity)
    && if carity < 0 then
         && |frame| == -carity
         && (forall i | 0 <= i < -carity - 1 :: frame[i] == vs[i])
         && ListOf(frame[-carity - 1], vs[-carity - 1..])
       else frame == vs
  }

  lemma {:induction false} FixedItems(arg: Obj, n: nat)
    requires Proper(arg)
    ensures TakeFixed(arg, n).Ok? <==> |Items(arg)| >= n
    ensures TakeFixed(arg, n).Err? ==> TakeFixed(arg, n).error == ArityNotMatched
    ensures TakeFixed(arg, n).Ok? ==>
              var s := TakeFixed(arg, n).value;
              Proper(s.rest) && |s.fixed| == n && s.fixed + Items(s.rest) == Items(arg)
  {
    if n > 0 && arg.Cell? {
      FixedItems(arg.cdr, n - 1);
      var t := TakeFixed(arg.cdr, n - 1);
      if t.Ok? { Joined(arg.car, t.value.fixed, Items(t.value.rest)); }
    }
  }

  lemma Joined(x: Obj, xs: seq<Obj>, ys: seq<Obj>)
    ensures [x] + xs + ys == [x] + (xs + ys)
  {
  }

  lemma {:induction false} RestItems(rest: Obj)
    requires Proper(rest)
    ensures RestArgs(rest) == Ok(Items(rest))
  {
    if rest.Cell? { RestItems(rest.cdr); }
  }

  // ----- keyword arguments -----

  predicate Distinct(keys: seq<string>) {
    forall i, j | 0 <= i < j < |keys| :: keys[i] != keys[j]
  }

  /** The keywords of a list and what follows each. */
  function Pairs(x: Obj): seq<(Obj, Obj)> {
    if x.Cell? && x.cdr.Cell? then [(x.car, x.cdr.car)] + Pairs(x.cdr.cdr) else []
  }

  predicate Even(x: Obj) {
    x.Nil? || (x.Cell? && x.cdr.Cell? && Even(x.cdr.cdr))
  }

  /** The keyword stands for slot `required + at`. */
  predicate Names(pair: (Obj, Obj), keys: seq<string>, at: nat) {
    at < |keys| && pair.0.Key? && pair.0.k == keys[at]
  }

  /** A keyword that is one of the function's, for a slot not filled yet. */
  predicate Known(pair: (Obj, Obj), required: nat, keys: seq<string>, taken: set<nat>) {
    exists at | 0 <= at < |keys| :: Names(pair, keys, at) && required + at !in taken
  }

  predicate Apart(pairs: seq<(Obj, Obj)>) {
    forall i, j | 0 <= i < j < |pairs| :: pairs[i].0 != pairs[j].0
  }

  predicate KeywordsFit(x: Obj, required: nat, keys: seq<string>, taken: set<nat>) {
    && Even(x) && Apart(Pairs(x))
    && forall j | 0 <= j < |Pairs(x)| :: Known(Pairs(x)[j], required, keys, taken)
  }

  /** A keyword's slot holds what follows the keyword; a slot none of them names is as it was. */
  predicate KeywordSlot(pairs: seq<(Obj, Obj)>, required: nat, keys: seq<string>, was: seq<Obj>, slots: seq<Obj>,
                        at: nat)
    requires |was| == |slots| == required + |keys| && at < |keys|
  {
    && (forall j | 0 <= j < |pairs| && Names(pairs[j], keys, at) :: slots[required + at] == pairs[j].1)
    && ((forall j | 0 <= j < |pairs| :: !Names(pairs[j], keys, at)) ==> slots[required + at] == was[required + at])
  }

  predicate KeywordSlots(pairs: seq<(Obj, Obj)>, required: nat, keys: seq<string>, was: seq<Obj>, slots: seq<Obj>) {
    && |was| == |slots| == required + |keys|
    && (forall i | 0 <= i < required :: slots[i] == was[i])
    && (forall at | 0 <= at < |keys| :: KeywordSlot(pairs, required, keys, was, slots, at))
  }

  /** The keywords of a list are in their slots, or the list is refused because it does not fit. */
  predicate Filled(x: Obj, required: nat, keys: seq<string>, was: seq<Obj>, taken: set<nat>, r: Result<seq<Obj>>) {
    && (r.Ok? <==> KeywordsFit(x, required, keys, taken))
    && (r.Ok? ==> KeywordSlots(Pairs(x), required, keys, was, r.value))
  }

  lemma {:induction false} KeywordsFill(x: Obj, required: nat, keys: seq<string>, frame: seq<Obj>, taken: set<nat>)
    requires |frame| == required + |keys| && Distinct(keys)
    requires x.Cell? || x.Nil?
    ensures Filled(x, required, keys, frame, taken, FillKeyed(x, required, keys, frame, taken))
    decreases x
  {
    if x.Cell? && Gives(x, required, keys, taken) && (x.cdr.cdr.Cell? || x.cdr.cdr.Nil?) {
      var rest, at := x.cdr.cdr, required + IndexOf(keys, x.car.k);
      GivenFilled(x.car.k, x.cdr.car, rest, required, keys, frame, taken);
      KeywordsFill(rest, required, keys, frame[at := x.cdr.car], taken + {at});
      FilledOne(x, required, keys, frame, taken, FillKeyed(x, required, keys, frame, taken));
    } else if x.Cell? {
      NoneFits(x, required, keys, frame, taken);
    } else {
      NoneFilled(required, keys, frame, taken);
    }
  }

  lemma NoneFilled(required: nat, keys: seq<string>, frame: seq<Obj>, taken: set<nat>)
    requires |frame| == required + |keys|
    ensures Filled(Nil, required, keys, frame, taken, Ok(frame))
  {
    assert Pairs(Nil) == [];
  }

  lemma FilledOne(x: Obj, required: nat, keys: seq<string>, frame: seq<Obj>, taken: set<nat>, r: Result<seq<Obj>>)
    requires |frame| == required + |keys| && Distinct(keys) && x.Cell? && Gives(x, required, keys, taken)
    requires var at := required + IndexOf(keys, x.car.k);
             Filled(x.cdr.cdr, required, keys, frame[at := x.cdr.car], taken + {at}, r)
    ensures Filled(x, required, keys, frame, taken, r)
  {
    var i := IndexOf(keys, x.car.k);
    OneMoreFits(x, required, keys, taken, i);
    if r.Ok? { OneMoreSlot(x, required, keys, frame, r.value, taken, i); }
  }

  lemma IndexIs(keys: seq<string>, at: nat)
    requires Distinct(keys) && at < |keys|
    ensures IndexOf(keys, keys[at]) == at
  {
    var i := IndexOf(keys, keys[at]);
    assert keys[i] == keys[at];
  }

  lemma FitsGives(x: Obj, required: nat, keys: seq<string>, taken: set<nat>)
    requires Distinct(keys) && x.Cell? && KeywordsFit(x, required, keys, taken)
    ensures Gives(x, required, keys, taken) && (x.cdr.cdr.Cell? || x.cdr.cdr.Nil?)
  {
    assert x.cdr.Cell? && Even(x.cdr.cdr);
    assert Known(Pairs(x)[0], required, keys, taken);
    var at :| 0 <= at < |keys| && Names(Pairs(x)[0], keys, at) && required + at !in taken;
    IndexIs(keys, at);
  }

  lemma NoneFits(x: Obj, required: nat, keys: seq<string>, frame: seq<Obj>, taken: set<nat>)
    requires |frame| == required + |keys| && Distinct(keys) && x.Cell?
    requires !(Gives(x, required, keys, taken) && (x.cdr.cdr.Cell? || x.cdr.cdr.Nil?))
    ensures FillKeyed(x, required, keys, frame, taken).Err? && !KeywordsFit(x, required, keys, taken)
  {
    if KeywordsFit(x, required, keys, taken) { FitsGives(x, required, keys, taken); }
  }

  lemma OneMoreFits(x: Obj, required: nat, keys: seq<string>, taken: set<nat>, i: nat)
    requires x.Cell? && Gives(x, required, keys, taken) && Distinct(keys) && i == IndexOf(keys, x.car.k)
    ensures KeywordsFit(x, required, keys, taken) <==> KeywordsFit(x.cdr.cdr, required, keys, taken + {required + i})
  {
    var pairs, rest := Pairs(x), Pairs(x.cdr.cdr);
    assert pairs[0] == (x.car, x.cdr.car) && pairs[1..] == rest;
    assert Names(pairs[0], keys, i) && Known(pairs[0], required, keys, taken);
    if KeywordsFit(x, required, keys, taken) {
      forall j | 0 <= j < |rest| ensures Known(rest[j], required, keys, taken + {required + i}) {
        assert rest[j] == pairs[j + 1] && Known(pairs[j + 1], required, keys, taken);
        var at: nat :| Names(pairs[j + 1], keys, at) && required + at !in taken;
        assert pairs[0].0 != pairs[j + 1].0;
        assert Names(rest[j], keys, at) && required + at !in taken + {required + i};
      }
      assert Apart(rest) by { forall a, b | 0 <= a < b < |rest| ensures rest[a].0 != rest[b].0 {
        assert pairs[a + 1] == rest[a] && pairs[b + 1] == rest[b]; } }
    }
    if KeywordsFit(x.cdr.cdr, required, keys, taken + {required + i}) {
      forall j | 0 <= j < |pairs| ensures Known(pairs[j], required, keys, taken) {
        if j > 0 {
          assert pairs[j] == rest[j - 1] && Known(rest[j - 1], required, keys, taken + {required + i});
          var at: nat :| Names(rest[j - 1], keys, at) && required + at !in taken + {required + i};
          assert Names(pairs[j], keys, at) && required + at !in taken;
        }
      }
      forall a, b | 0 <= a < b < |pairs| ensures pairs[a].0 != pairs[b].0 {
        assert pairs[b] == rest[b - 1] && Known(rest[b - 1], required, keys, taken + {required + i});
        if a > 0 { assert pairs[a] == rest[a - 1]; }
      }
    }
  }

  lemma OneMoreSlot(x: Obj, required: nat, keys: seq<string>, frame: seq<Obj>, slots: seq<Obj>, taken: set<nat>, i: nat)
    requires |frame| == required + |keys| && Distinct(keys)
    requires x.Cell? && Gives(x, required, keys, taken) && i == IndexOf(keys, x.car.k)
    requires KeywordsFit(x, required, keys, taken)
    requires KeywordSlots(Pairs(x.cdr.cdr), required, keys, frame[required + i := x.cdr.car], slots)
    ensures KeywordSlots(Pairs(x), required, keys, frame, slots)
  {
    var pairs, rest := Pairs(x), Pairs(x.cdr.cdr);
    var was := frame[required + i := x.cdr.car];
    assert pairs[0] == (x.car, x.cdr.car) && pairs[1..] == rest;
    forall at | 0 <= at < |keys| ensures KeywordSlot(pairs, required, keys, frame, slots, at) {
      assert KeywordSlot(rest, required, keys, was, slots, at);
      assert Names(pairs[0], keys, at) <==> at == i;
      forall j | 0 <= j < |rest| ensures rest[j] == pairs[j + 1] && !(at == i && Names(rest[j], keys, at)) {
        assert pairs[0].0 != pairs[j + 1].0;
      }
      forall j | 0 <= j < |pairs| && Names(pairs[j], keys, at) ensures slots[required + at] == pairs[j].1 {
        if j > 0 { assert pairs[j] == rest[j - 1]; }
      }
    }
  }

  /** The arguments before the first keyword. */
  predicate Leading(forms: seq<Obj>, n: nat) {
    && n <= |forms| && (forall i | 0 <= i < n :: !forms[i].Key?)
    && (n < |forms| ==> forms[n].Key?)
  }

  function Drop(x: Obj, n: nat): Obj {
    if n > 0 && x.Cell? then Drop(x.cdr, n - 1) else x
  }

  /** A list of keywords of slots that are still free, the first `n` slots being filled, each with
      what its slot gets. */
  predicate KeywordsFree(x: Obj, required: nat, keys: seq<string>, n: nat) {
    && Even(x) && Apart(Pairs(x))
    && forall j | 0 <= j < |Pairs(x)| :: Free(Pairs(x)[j], required, keys, n)
  }

  predicate Free(pair: (Obj, Obj), required: nat, keys: seq<string>, n: nat) {
    exists at | 0 <= at < |keys| :: Names(pair, keys, at) && required + at >= n
  }

  /** How a function with keywords takes its arguments: `n` of them come before the first keyword
      and go to the first slots, and there are enough; the others are keywords of free slots, each
      with what its slot gets; every other slot is nil. */
  predicate Placed(arg: Obj, n: nat, slots: seq<Obj>, total: nat, keys: seq<string>)
    requires |keys| <= total
  {
    && Leading(Items(arg), n) && total - |keys| <= n <= total && |slots| == total
    && (forall i | 0 <= i < n :: slots[i] == Items(arg)[i])
    && KeywordsFree(Drop(arg, n), total - |keys|, keys, n)
    && (forall i | n <= i < total :: SlotGiven(Pairs(Drop(arg, n)), keys, i - (total - |keys|), slots[i]))
  }

  predicate SlotGiven(pairs: seq<(Obj, Obj)>, keys: seq<string>, at: int, got: Obj)
    requires 0 <= at < |keys|
  {
    && (forall j | 0 <= j < |pairs| && Names(pairs[j], keys, at) :: got == pairs[j].1)
    && ((forall j | 0 <= j < |pairs| :: !Names(pairs[j], keys, at)) ==> got.Nil?)
  }

  lemma {:induction false} BelowIs(n: nat, i: nat)
    ensures i in Below(n) <==> i < n
  {
    if n > 0 { BelowIs(n - 1, i); }
  }

  lemma FreeFit(x: Obj, required: nat, keys: seq<string>, n: nat)
    ensures KeywordsFree(x, required, keys, n) <==> KeywordsFit(x, required, keys, Below(n))
  {
    forall i: nat ensures i in Below(n) <==> i < n { BelowIs(n, i); }
    forall j | 0 <= j < |Pairs(x)|
      ensures Free(Pairs(x)[j], required, keys, n) <==> Known(Pairs(x)[j], required, keys, Below(n))
    {
    }
  }

  lemma {:induction false} LeadingTaken(arg: Obj, total: nat)
    requires Proper(arg)
    ensures TakeUnkeyed(arg, total).Ok?
    ensures var s := TakeUnkeyed(arg, total).value; var n := |s.fixed|;
            && n <= total && n <= |Items(arg)| && s.fixed == Items(arg)[..n] && s.rest == Drop(arg, n) && Proper(s.rest)
            && (forall i | 0 <= i < n :: !Items(arg)[i].Key?)
            && (s.rest.Cell? ==> n < |Items(arg)| && s.rest.car == Items(arg)[n])
            && (s.rest.Cell? && !s.rest.car.Key? ==> n == total)
            && (s.rest.Nil? ==> n == |Items(arg)|)
  {
    if total > 0 && arg.Cell? && !arg.car.Key? {
      LeadingTaken(arg.cdr, total - 1);
      var s := TakeUnkeyed(arg.cdr, total - 1).value;
      assert [arg.car] + s.fixed == Items(arg)[..|s.fixed| + 1];
    }
  }

  /** Arguments that have a placement are taken as it has them. */
  lemma PlacedTaken(arg: Obj, m: nat, slots: seq<Obj>, total: nat, keys: seq<string>)
    requires Proper(arg) && |keys| <= total && m <= total && Placed(arg, m, slots, total, keys)
    ensures TakeUnkeyed(arg, total).Ok?
    ensures var s := TakeUnkeyed(arg, total).value;
            |s.fixed| == m && s.rest == Drop(arg, m) && !Short(s, total - |keys|)
  {
    LeadingTaken(arg, total);
  }

  lemma PlacedMade(arg: Obj, m: nat, slots: seq<Obj>, total: nat, keys: seq<string>)
    requires Proper(arg) && |keys| <= total && Distinct(keys) && m <= total && Placed(arg, m, slots, total, keys)
    ensures KeyedFrame(arg, total, keys).Ok?
  {
    PlacedTaken(arg, m, slots, total, keys);
    LeadingTaken(arg, total);
    var s := TakeUnkeyed(arg, total).value;
    FreeFit(s.rest, total - |keys|, keys, m);
    KeywordsFill(s.rest, total - |keys|, keys, Padded(s.fixed, total), Below(m));
  }

  lemma MadePlaced(arg: Obj, total: nat, keys: seq<string>)
    requires Proper(arg) && |keys| <= total && Distinct(keys) && KeyedFrame(arg, total, keys).Ok?
    ensures exists n | 0 <= n <= total :: Placed(arg, n, KeyedFrame(arg, total, keys).value, total, keys)
  {
    LeadingTaken(arg, total);
    var s := TakeUnkeyed(arg, total).value;
    var n, required, was := |s.fixed|, total - |keys|, Padded(s.fixed, total);
    FreeFit(s.rest, required, keys, n);
    KeywordsFill(s.rest, required, keys, was, Below(n));
    FilledPlaced(arg, n, FillKeyed(s.rest, required, keys, was, Below(n)).value, total, keys);
  }

  /** The frame of a function with keywords is the one placement of its arguments, and they are
      refused if there is none. */
  lemma KeyedFrameIs(arg: Obj, total: nat, keys: seq<string>)
    requires Proper(arg) && |keys| <= total && Distinct(keys)
    ensures KeyedFrame(arg, total, keys).Ok? ==>
              exists n | 0 <= n <= total :: Placed(arg, n, KeyedFrame(arg, total, keys).value, total, keys)
    ensures KeyedFrame(arg, total, keys).Err? ==>
              forall n, slots | 0 <= n <= total :: !Placed(arg, n, slots, total, keys)
  {
    if KeyedFrame(arg, total, keys).Ok? {
      MadePlaced(arg, total, keys);
    } else {
      forall m, slots | 0 <= m <= total ensures !Placed(arg, m, slots, total, keys) {
        if Placed(arg, m, slots, total, keys) { PlacedMade(arg, m, slots, total, keys); }
      }
    }
  }

  lemma NotNamed(pair: (Obj, Obj), required: nat, keys: seq<string>, n: nat, at: nat)
    requires Distinct(keys) && Free(pair, required, keys, n) && required + at < n
    ensures !Names(pair, keys, at)
  {
    var other :| 0 <= other < |keys| && Names(pair, keys, other) && required + other >= n;
    if at < |keys| { assert keys[other] != keys[at]; }
  }

  lemma FilledPlaced(arg: Obj, n: nat, slots: seq<Obj>, total: nat, keys: seq<string>)
    requires |keys| <= total && Distinct(keys) && total - |keys| <= n <= total && Leading(Items(arg), n)
    requires var x := Drop(arg, n); var required := total - |keys|;
             && KeywordsFree(x, required, keys, n)
             && KeywordSlots(Pairs(x), required, keys, Padded(Items(arg)[..n], total), slots)
    ensures Placed(arg, n, slots, total, keys)
  {
    var pairs, required, was := Pairs(Drop(arg, n)), total - |keys|, Padded(Items(arg)[..n], total);
    forall i | 0 <= i < n ensures slots[i] == Items(arg)[i] {
      if i >= required {
        assert KeywordSlot(pairs, required, keys, was, slots, i - required);
        forall j | 0 <= j < |pairs| ensures !Names(pairs[j], keys, i - required) {
          assert Free(pairs[j], required, keys, n);
          NotNamed(pairs[j], required, keys, n, i - required);
        }
      }
    }
    forall i | n <= i < total ensures SlotGiven(pairs, keys, i - required, slots[i]) {
      assert KeywordSlot(pairs, required, keys, was, slots, i - required);
    }
  }

  // ----- the values -----

  /** An evaluator: it gives a form's value and the state it leaves. */
  type Evaluator = (Obj, State) -> Res<Obj>

  function Compiled(env: seq<nat>, n: nat, prim: Prims): Evaluator {
    (x, st) => Run.Eval(x, env, st, n, prim)
  }

  function Reference(scopes: seq<Scope>, n: nat, prim: Prims): Evaluator {
    (x, st) => Named.Eval(x, scopes, st, n, prim)
  }

  /** Each form evaluates to its value in the state that the one before it left. */
  ghost predicate InOrder(forms: seq<Obj>, vs: seq<Obj>, st: State, next: State, eval: Evaluator) {
    |vs| == |forms| && exists states :: Steps(forms, vs, states, st, next, eval)
  }

  ghost predicate Steps(forms: seq<Obj>, vs: seq<Obj>, states: seq<State>, st: State, next: State, eval: Evaluator)
    requires |vs| == |forms|
  {
    && |states| == |forms| + 1 && states[0] == st && states[|forms|] == next
    && forall i | 0 <= i < |forms| :: eval(forms[i], states[i]) == Done(vs[i], states[i + 1])
  }

  lemma InOrderCons(forms: seq<Obj>, v: Obj, vs: seq<Obj>, st: State, after: State, next: State, eval: Evaluator)
    requires forms != [] && eval(forms[0], st) == Done(v, after) && InOrder(forms[1..], vs, after, next, eval)
    ensures InOrder(forms, [v] + vs, st, next, eval)
  {
    var states :| Steps(forms[1..], vs, states, after, next, eval);
    var all := [st] + states;
    forall i | 0 <= i < |forms| ensures eval(forms[i], all[i]) == Done(([v] + vs)[i], all[i + 1]) {
      if i > 0 { assert forms[1..][i - 1] == forms[i]; }
    }
    assert Steps(forms, [v] + vs, all, st, next, eval);
  }

  lemma InOrderNone(st: State, eval: Evaluator)
    ensures InOrder([], [], st, st, eval)
  {
    assert Steps([], [], [st], st, st, eval);
  }

  lemma InOrderJoin(forms: seq<Obj>, more: seq<Obj>, vs: seq<Obj>, ws: seq<Obj>, st: State, mid: State, next: State,
                    eval: Evaluator)
    requires InOrder(forms, vs, st, mid, eval) && InOrder(more, ws, mid, next, eval)
    ensures InOrder(forms + more, vs + ws, st, next, eval)
  {
    var a :| Steps(forms, vs, a, st, mid, eval);
    var b :| Steps(more, ws, b, mid, next, eval);
    var all := a + b[1..];
    forall i | 0 <= i < |forms + more|
      ensures eval((forms + more)[i], all[i]) == Done((vs + ws)[i], all[i + 1])
    {
      if i >= |forms| { assert b[i - |forms|] == all[i] && b[i - |forms| + 1] == all[i + 1]; }
    }
    assert Steps(forms + more, vs + ws, all, st, next, eval);
  }

  /** The first form fails in the state the call met, or a later one does. */
  ghost predicate StopsAt(forms: seq<Obj>, st: State, failed: Res<Obj>, eval: Evaluator) {
    exists k, vs, mid :: 0 <= k < |forms| && InOrder(forms[..k], vs, st, mid, eval) && eval(forms[k], mid) == failed
  }

  predicate SameFailure(r: Res<seq<Obj>>, failed: Res<Obj>) {
    (r.OutOfFuel? && failed.OutOfFuel?) || (r.Threw? && failed.Threw? && r.e == failed.e && r.at == failed.at)
  }

  /** Forms evaluated one after another: their values in order, or the first failure. */
  ghost predicate OneByOne(r: Res<seq<Obj>>, forms: seq<Obj>, st: State, eval: Evaluator) {
    if r.Done? then InOrder(forms, r.v, st, r.st, eval)
    else exists failed :: SameFailure(r, failed) && StopsAt(forms, st, failed, eval)
  }

  lemma OneByOneCons(r: Res<seq<Obj>>, forms: seq<Obj>, st: State, rest: Res<seq<Obj>>, eval: Evaluator)
    requires forms != [] && !r.Done?
    requires match eval(forms[0], st)
             case Done(_, after) => rest == r && OneByOne(rest, forms[1..], after, eval)
             case failed => SameFailure(r, failed)
    ensures OneByOne(r, forms, st, eval)
  {
    var first := eval(forms[0], st);
    if first.Done? {
      var failed :| SameFailure(r, failed) && StopsAt(forms[1..], first.st, failed, eval);
      var k, vs, mid :| 0 <= k < |forms[1..]| && InOrder(forms[1..][..k], vs, first.st, mid, eval)
                        && eval(forms[1..][k], mid) == failed;
      assert forms[..k + 1][1..] == forms[1..][..k] && forms[..k + 1][0] == forms[0];
      InOrderCons(forms[..k + 1], first.v, vs, st, first.st, mid, eval);
      assert eval(forms[k + 1], mid) == failed;
      assert StopsAt(forms, st, failed, eval);
    } else {
      InOrderNone(st, eval);
      assert forms[..0] == [];
      assert StopsAt(forms, st, first, eval);
    }
  }

  lemma {:induction false} CompiledInOrder(xs: seq<Obj>, env: seq<nat>, st: State, n: nat, prim: Prims)
    ensures OneByOne(Run.EvalAll(xs, env, st, n, prim), xs, st, Compiled(env, n, prim))
    decreases |xs|
  {
    var r, eval := Run.EvalAll(xs, env, st, n, prim), Compiled(env, n, prim);
    if xs == [] {
      InOrderNone(st, eval);
    } else {
      var first := Run.Eval(xs[0], env, st, n, prim);
      if first.Done? {
        CompiledInOrder(xs[1..], env, first.st, n, prim);
        var rest := Run.EvalAll(xs[1..], env, first.st, n, prim);
        if r.Done? {
          InOrderCons(xs, first.v, rest.v, st, first.st, r.st, eval);
        } else {
          OneByOneCons(r, xs, st, rest, eval);
        }
      } else {
        OneByOneCons(r, xs, st, r, eval);
      }
    }
  }

  lemma {:induction false} ReferenceInOrder(xs: seq<Obj>, scopes: seq<Scope>, st: State, n: nat, prim: Prims)
    ensures OneByOne(Named.EvalAll(xs, scopes, st, n, prim), xs, st, Reference(scopes, n, prim))
    decreases |xs|
  {
    var r, eval := Named.EvalAll(xs, scopes, st, n, prim), Reference(scopes, n, prim);
    if xs == [] {
      InOrderNone(st, eval);
    } else {
      var first := Named.Eval(xs[0], scopes, st, n, prim);
      if first.Done? {
        ReferenceInOrder(xs[1..], scopes, first.st, n, prim);
        var rest := Named.EvalAll(xs[1..], scopes, first.st, n, prim);
        if r.Done? {
          InOrderCons(xs, first.v, rest.v, st, first.st, r.st, eval);
        } else {
          OneByOneCons(r, xs, st, rest, eval);
        }
      } else {
        OneByOneCons(r, xs, st, r, eval);
      }
    }
  }

  /** A frame holds the values of the arguments of a call: those of a function without keywords in
      the order they stand in, those of one with keywords in the order of its slots. */
  ghost predicate Holds(frame: seq<Obj>, arg: Obj, carity: int, keys: seq<string>, st: State, next: State,
                        eval: Evaluator)
  {
    if keys == [] then
      exists vs :: InOrder(Items(arg), vs, st, next, eval) && InSlots(frame, vs, carity)
    else
      && 0 <= |keys| <= carity
      && exists n, forms ::
           0 <= n <= carity && Placed(arg, n, forms, carity, keys) && InOrder(forms, frame, st, next, eval)
  }

  /** No frame of the function holds the arguments. */
  ghost predicate Unplaceable(arg: Obj, carity: int, keys: seq<string>)
    requires keys != [] ==> |keys| <= carity
  {
    if keys == [] then !Fits(|Items(arg)|, carity)
    else forall n, forms | 0 <= n <= carity :: !Placed(arg, n, forms, carity, keys)
  }

  /** A list of arguments, and a function whose keywords have slots of their own. */
  predicate Callable(arg: Obj, carity: int, keys: seq<string>) {
    Proper(arg) && Distinct(keys) && (keys != [] ==> |keys| <= carity)
  }

  lemma SplitInSlots(fixed: seq<Obj>, more: seq<Obj>, carity: int)
    requires |fixed| == FixedArgs(carity) && (carity >= 0 ==> more == [])
    ensures InSlots(Frame(fixed, more, carity), fixed + more, carity)
  {
    ListMade(more);
    if carity < 0 { assert (fixed + more)[-carity - 1..] == more; } else { assert fixed + more == fixed; }
  }

  /** Arguments of a function without keywords are refused exactly for their number, before any of
      them is evaluated. */
  lemma PlainFrame(arg: Obj, carity: int)
    requires Proper(arg)
    ensures Fits(|Items(arg)|, carity) ==>
              && MakeFrame(arg, carity, []).Ok?
              && var s := MakeFrame(arg, carity, []).value;
              && |s.fixed| == FixedArgs(carity) && RestArgs(s.rest).Ok?
              && s.fixed + RestArgs(s.rest).value == Items(arg) && (carity >= 0 ==> RestArgs(s.rest).value == [])
    ensures !Fits(|Items(arg)|, carity) ==> MakeFrame(arg, carity, []) == Err(ArityNotMatched)
  {
    FixedItems(arg, FixedArgs(carity));
    var s := TakeFixed(arg, FixedArgs(carity));
    if s.Ok? { RestItems(s.value.rest); }
  }

  lemma CompiledPlain(arg: Obj, carity: int, env: seq<nat>, st: State, n: nat, prim: Prims)
    requires Proper(arg) && Run.EvalArgs(arg, carity, [], env, st, n, prim).Done?
    ensures var r := Run.EvalArgs(arg, carity, [], env, st, n, prim);
            Holds(r.v, arg, carity, [], st, r.st, Compiled(env, n, prim))
  {
    PlainFrame(arg, carity);
    var s := MakeFrame(arg, carity, []).value;
    var others := RestArgs(s.rest).value;
    var fixed := Run.EvalAll(s.fixed, env, st, n, prim);
    var more := Run.EvalAll(others, env, fixed.st, n, prim);
    CompiledInOrder(s.fixed, env, st, n, prim);
    CompiledInOrder(others, env, fixed.st, n, prim);
    InOrderJoin(s.fixed, others, fixed.v, more.v, st, fixed.st, more.st, Compiled(env, n, prim));
    SplitInSlots(fixed.v, more.v, carity);
  }

  lemma CompiledKeyed(arg: Obj, carity: nat, keys: seq<string>, env: seq<nat>, st: State, n: nat, prim: Prims)
    requires keys != [] && |keys| <= carity && KeyedFrame(arg, carity, keys).Ok?
    ensures Run.EvalArgs(arg, carity, keys, env, st, n, prim)
         == Run.EvalAll(KeyedFrame(arg, carity, keys).value, env, st, n, prim)
  {
    var fixed := Run.EvalAll(KeyedFrame(arg, carity, keys).value, env, st, n, prim);
    match fixed
    case Done(vs, next) =>
      assert RestArgs(Nil) == Ok([]) && Frame(vs, [], carity) == vs;
      assert Run.EvalAll([], env, next, n, prim) == Done([], next);
    case _ =>
  }

  /** What a call binds, in compiled code: a frame that holds the arguments' values; and arguments
      that no frame can hold are refused before any of them is evaluated. */
  lemma CompiledArgs(arg: Obj, carity: int, keys: seq<string>, env: seq<nat>, st: State, n: nat, prim: Prims)
    requires Callable(arg, carity, keys)
    ensures var r := Run.EvalArgs(arg, carity, keys, env, st, n, prim);
            && (r.Done? ==> Holds(r.v, arg, carity, keys, st, r.st, Compiled(env, n, prim)))
            && (Unplaceable(arg, carity, keys) ==> r.Threw? && r.at == st)
            && (keys == [] && Unplaceable(arg, carity, keys) ==> r.e == ArityNotMatched)
  {
    var r := Run.EvalArgs(arg, carity, keys, env, st, n, prim);
    if keys == [] {
      PlainFrame(arg, carity);
      if r.Done? { CompiledPlain(arg, carity, env, st, n, prim); }
    } else {
      KeyedFrameIs(arg, carity, keys);
      if r.Done? {
        var forms := KeyedFrame(arg, carity, keys).value;
        CompiledKeyed(arg, carity, keys, env, st, n, prim);
        CompiledInOrder(forms, env, st, n, prim);
        assert InOrder(forms, r.v, st, r.st, Compiled(env, n, prim));
      }
    }
  }

  lemma ReferencePlain(arg: Obj, carity: int, scopes: seq<Scope>, st: State, n: nat, prim: Prims)
    requires Proper(arg) && Named.EvalArgs(arg, carity, [], scopes, st, n, prim).Done?
    ensures var r := Named.EvalArgs(arg, carity, [], scopes, st, n, prim);
            Holds(r.v, arg, carity, [], st, r.st, Reference(scopes, n, prim))
  {
    PlainFrame(arg, carity);
    var s := MakeFrame(arg, carity, []).value;
    var others := RestArgs(s.rest).value;
    var fixed := Named.EvalAll(s.fixed, scopes, st, n, prim);
    var more := Named.EvalAll(others, scopes, fixed.st, n, prim);
    ReferenceInOrder(s.fixed, scopes, st, n, prim);
    ReferenceInOrder(others, scopes, fixed.st, n, prim);
    InOrderJoin(s.fixed, others, fixed.v, more.v, st, fixed.st, more.st, Reference(scopes, n, prim));
    SplitInSlots(fixed.v, more.v, carity);
  }

  lemma ReferenceKeyed(arg: Obj, carity: nat, keys: seq<string>, scopes: seq<Scope>, st: State, n: nat, prim: Prims)
    requires keys != [] && |keys| <= carity && KeyedFrame(arg, carity, keys).Ok?
    ensures Named.EvalArgs(arg, carity, keys, scopes, st, n, prim)
         == Named.EvalAll(KeyedFrame(arg, carity, keys).value, scopes, st, n, prim)
  {
    var fixed := Named.EvalAll(KeyedFrame(arg, carity, keys).value, scopes, st, n, prim);
    match fixed
    case Done(vs, next) =>
      assert RestArgs(Nil) == Ok([]) && Frame(vs, [], carity) == vs;
      assert Named.EvalAll([], scopes, next, n, prim) == Done([], next);
    case _ =>
  }

  /** The same for the reference. */
  lemma ReferenceArgs(arg: Obj, carity: int, keys: seq<string>, scopes: seq<Scope>, st: State, n: nat, prim: Prims)
    requires Callable(arg, carity, keys)
    ensures var r := Named.EvalArgs(arg, carity, keys, scopes, st, n, prim);
            && (r.Done? ==> Holds(r.v, arg, carity, keys, st, r.st, Reference(scopes, n, prim)))
            && (Unplaceable(arg, carity, keys) ==> r.Threw? && r.at == st)
            && (keys == [] && Unplaceable(arg, carity, keys) ==> r.e == ArityNotMatched)
  {
    var r := Named.EvalArgs(arg, carity, keys, scopes, st, n, prim);
    if keys == [] {
      PlainFrame(arg, carity);
      if r.Done? { ReferencePlain(arg, carity, scopes, st, n, prim); }
    } else {
      KeyedFrameIs(arg, carity, keys);
      if r.Done? {
        var forms := KeyedFrame(arg, carity, keys).value;
        ReferenceKeyed(arg, carity, keys, scopes, st, n, prim);
        ReferenceInOrder(forms, scopes, st, n, prim);
        assert InOrder(forms, r.v, st, r.st, Reference(scopes, n, prim));
      }
    }
  }

  // ----- parameters -----

  /** The names of a parameter list, without its marks. */
  function ParamsOf(ps: Obj): seq<string> {
    if !ps.Cell? || !ps.car.Sym? then []
    else if ps.car == REST || ps.car == KEY then ParamsOf(ps.cdr)
    else [ps.car.name] + ParamsOf(ps.cdr)
  }

  function KeysOf(ps: Obj): seq<string> {
    if !ps.Cell? then [] else if ps.car == KEY then ParamsOf(ps.cdr) else KeysOf(ps.cdr)
  }

  predicate Marked(ps: Obj) {
    ps.Cell? && (ps.car == REST || Marked(ps.cdr))
  }

  /** Later parameters come after those there are, each in the next slot. */
  predicate Appended(a: Args, b: Args, names: seq<string>) {
    && b.arity == a.arity + |names|
    && (forall s | s in a.table :: s in b.table && b.table[s] == a.table[s])
    && (forall i | 0 <= i < |names| :: names[i] in b.table && b.table[names[i]] == a.arity + i)
    && (forall s | s in b.table :: s in a.table || s in names)
  }

  /** What the walk along a parameter list makes of the table it starts with. */
  predicate Grows(ps: Obj, a: Args, b: Args) {
    && Appended(a, b, ParamsOf(ps))
    && b.keys == a.keys + (if a.keyed then ParamsOf(ps) else KeysOf(ps))
    && (b.hasRest <==> a.hasRest || Marked(ps))
  }

  lemma {:induction false} ScanAppends(ps: Obj, a: Args)
    requires ParamNames(ps) && ScanParams(ps, a).Ok? && "&key" !in ScanParams(ps, a).value.table
    ensures Grows(ps, a, ScanParams(ps, a).value)
    decreases ps
  {
    if ps.Cell? {
      if ps.car == KEY {
        ScanAppends(ps.cdr, a.(keyed := true));
      } else if ps.car == REST {
        ScanRest(ps, a);
      } else {
        var next := AddArg(a, ps.car).value;
        ScanAppends(ps.cdr, next);
        GrowsOne(ps, a, next, ScanParams(ps, a).value);
      }
    }
  }

  lemma ScanRest(ps: Obj, a: Args)
    requires ParamNames(ps) && ps.Cell? && ps.car == REST
    requires ScanParams(ps, a).Ok? && "&key" !in ScanParams(ps, a).value.table
    ensures Grows(ps, a, ScanParams(ps, a).value)
  {
    var b := AddArg(a, ps.cdr.car).value.(hasRest := true);
    assert ScanParams(ps, a) == ScanParams(ps.cdr.cdr, b) && ps.cdr.cdr.Nil?;
    var name := ps.cdr.car.name;
    assert name in b.table && ps.cdr.car != KEY && ps.cdr.car != REST;
    assert ParamsOf(ps) == ParamsOf(ps.cdr) == [name] + ParamsOf(Nil) == [name];
    assert KeysOf(ps) == KeysOf(ps.cdr) == KeysOf(Nil) == [];
    KeysJoined(a.keys, name, []);
    AppendedOne(a, b, b, name, []);
  }

  lemma KeysJoined(keys: seq<string>, name: string, names: seq<string>)
    ensures keys + [name] + names == keys + ([name] + names) && keys + [] == keys
  {
  }

  lemma GrowsOne(ps: Obj, a: Args, next: Args, b: Args)
    requires ParamNames(ps) && ps.Cell? && ps.car != KEY && ps.car != REST
    requires AddArg(a, ps.car) == Ok(next) && Grows(ps.cdr, next, b)
    ensures Grows(ps, a, b)
  {
    AppendedOne(a, next, b, ps.car.name, ParamsOf(ps.cdr));
    KeysJoined(a.keys, ps.car.name, ParamsOf(ps.cdr));
  }

  lemma AppendedOne(a: Args, next: Args, b: Args, name: string, names: seq<string>)
    requires name !in a.table && next.table == a.table[name := a.arity] && next.arity == a.arity + 1
    requires Appended(next, b, names)
    ensures Appended(a, b, [name] + names)
  {
    forall i | 0 <= i < |[name] + names|
      ensures ([name] + names)[i] in b.table && b.table[([name] + names)[i]] == a.arity + i
    {
      if i > 0 { assert ([name] + names)[i] == names[i - 1]; } else { assert name in next.table; }
    }
  }

  lemma {:induction false} KeysLast(ps: Obj)
    requires ParamNames(ps)
    ensures |KeysOf(ps)| <= |ParamsOf(ps)| && KeysOf(ps) == ParamsOf(ps)[|ParamsOf(ps)| - |KeysOf(ps)|..]
  {
    if ps.Cell? && ps.car != KEY { KeysLast(ps.cdr); }
  }

  /** Parameter `i` is slot `i`; `&rest` makes the arity negative. */
  lemma ParamsByPosition(ps: Obj)
    requires ValidParams(ps)
    ensures var a, names := ArgTable(ps).value, ParamsOf(ps);
            && a.table.Keys == (set s | s in names) && a.arity == |names| && a.keys == KeysOf(ps)
            && (forall i | 0 <= i < |names| :: a.table[names[i]] == i)
            && Carity(a) == if Marked(ps) then -|names| else |names|
  {
    if ps.Cell? { ScanAppends(ps, NO_ARGS); }
  }

  /** The parameters after `&key` are the keywords; they differ, and have the last slots. */
  lemma KeywordsByPosition(ps: Obj)
    requires ValidParams(ps)
    ensures var keys, names := ArgTable(ps).value.keys, ParamsOf(ps);
            |keys| <= |names| && keys == names[|names| - |keys|..] && Distinct(keys)
    ensures ArgTable(ps).value.keys != [] ==> |ArgTable(ps).value.keys| <= Carity(ArgTable(ps).value)
  {
    ParamsByPosition(ps);
    KeysLast(ps);
    ParamsDiffer(ArgTable(ps).value.table, ParamsOf(ps));
    if KeysOf(ps) != [] { KeyedUnmarked(ps, NO_ARGS); }
  }

  lemma ParamsDiffer(table: Table, names: seq<string>)
    requires forall i | 0 <= i < |names| :: names[i] in table && table[names[i]] == i
    ensures forall n | 0 <= n <= |names| :: Distinct(names[n..])
  {
  }

  lemma {:induction false} KeyedUnmarked(ps: Obj, a: Args)
    requires ScanParams(ps, a).Ok? && (KeysOf(ps) != [] || a.keyed) && !a.hasRest
    ensures !ScanParams(ps, a).value.hasRest
    decreases ps
  {
    if ps.Cell? {
      if ps.car == KEY {
        KeyedUnmarked(ps.cdr, a.(keyed := true));
      } else if ps.car != REST {
        KeyedUnmarked(ps.cdr, AddArg(a, ps.car).value);
      } else {
        RestUnkeyed(ps, a);
      }
    }
  }

  lemma RestUnkeyed(ps: Obj, a: Args)
    requires ps.Cell? && ps.car == REST && ScanParams(ps, a).Ok?
    ensures KeysOf(ps) == [] && !a.keyed
  {
    assert ps.cdr.Cell? && ps.cdr.cdr.Nil?;
    assert KeysOf(ps) == KeysOf(ps.cdr) && KeysOf(Nil) == [] && ParamsOf(Nil) == [];
  }

  /** Inside, the name of a parameter is the slot of its place. */
  lemma ParameterValue(ps: Obj, outer: seq<Scope>, frame: seq<Obj>, st: State, i: nat, m: nat, prim: Prims)
    requires ValidParams(ps) && i < |ParamsOf(ps)| && |frame| == |ParamsOf(ps)|
    ensures var inner, entered := [Scope(ArgTable(ps).value.table, |st.frames|)] + outer, PushFrame(frame, st);
            Named.Eval(Sym(ParamsOf(ps)[i]), inner, entered, m, prim) == Done(frame[i], entered)
  {
    ParamsByPosition(ps);
    var table, name := ArgTable(ps).value.table, ParamsOf(ps)[i];
    var inner, entered := [Scope(table, |st.frames|)] + outer, PushFrame(frame, st);
    assert name in table && table[name] == i && inner[0] == Scope(table, |st.frames|);
    assert Named.Lookup(name, inner) == Some((|st.frames|, i));
    assert entered.frames[|st.frames|] == frame;
  }

  /** A call of a closure evaluates its body in a new frame that holds the values of the arguments,
      and there every parameter names the slot of its place. */
  lemma CallBinds(ps: Obj, code: Obj, outer: seq<Scope>, arg: Obj, scopes: seq<Scope>, st: State, n: nat, prim: Prims,
                  frame: seq<Obj>, next: State, i: nat, m: nat)
    requires ValidParams(ps) && Proper(arg) && i < |ParamsOf(ps)|
    requires var a := ArgTable(ps).value;
             Named.EvalArgs(arg, Carity(a), a.keys, scopes, st, n, prim) == Done(frame, next)
    ensures var a := ArgTable(ps).value;
            var inner, entered := [Scope(a.table, |next.frames|)] + outer, PushFrame(frame, next);
            && Holds(frame, arg, Carity(a), a.keys, st, next, Reference(scopes, n, prim)) && i < |frame|
            && Named.Apply(Scoped(ps, code, outer), arg, scopes, st, n, prim)
               == Named.EvalBody(code, inner, entered, n, prim)
            && Named.Eval(Sym(ParamsOf(ps)[i]), inner, entered, m, prim) == Done(frame[i], entered)
  {
    var a := ArgTable(ps).value;
    ArgsHeld(ps, arg, scopes, st, n, prim, frame, next);
    ParameterValue(ps, outer, frame, next, i, m, prim);
  }

  lemma ArgsHeld(ps: Obj, arg: Obj, scopes: seq<Scope>, st: State, n: nat, prim: Prims, frame: seq<Obj>, next: State)
    requires ValidParams(ps) && Proper(arg)
    requires var a := ArgTable(ps).value;
             Named.EvalArgs(arg, Carity(a), a.keys, scopes, st, n, prim) == Done(frame, next)
    ensures var a := ArgTable(ps).value;
            Holds(frame, arg, Carity(a), a.keys, st, next, Reference(scopes, n, prim)) && |frame| == |ParamsOf(ps)|
  {
    var a := ArgTable(ps).value;
    KeywordsByPosition(ps);
    ParamsByPosition(ps);
    ReferenceArgs(arg, Carity(a), a.keys, scopes, st, n, prim);
    HeldLength(frame, arg, Carity(a), a.keys, st, next, Reference(scopes, n, prim));
  }

  lemma HeldLength(frame: seq<Obj>, arg: Obj, carity: int, keys: seq<string>, st: State, next: State, eval: Evaluator)
    requires Holds(frame, arg, carity, keys, st, next, eval)
    ensures |frame| == if carity < 0 then -carity else carity
  {
  }
}
