/** What the special forms mean, said of the forms they hold and of the values those have
    (`packages/interpreter/src/lisp.ts`, `evalProgN`, `evalCond`, `evalSetQ`). */
module SpecialForms {
  import opened Wrappers
  import opened LispObjects
  import opened Store
  import opened LexicalCompiler
  import opened Arguments
  import opened NamedEval

  function Last(vs: seq<Obj>): Obj {
    if vs == [] then Nil else vs[|vs| - 1]
  }

  // ----- one form after another -----

  /** All forms evaluated in order give the value of the last; the first that fails is the failure. */
  ghost predicate InSequence(r: Res<Obj>, forms: seq<Obj>, st: State, eval: Evaluator) {
    if r.Done? then exists vs :: InOrder(forms, vs, st, r.st, eval) && r.v == Last(vs)
    else StopsAt(forms, st, r, eval)
  }

  lemma SequenceOne(form: Obj, st: State, eval: Evaluator)
    ensures InSequence(eval(form, st), [form], st, eval)
  {
    var r := eval(form, st);
    if r.Done? {
      InOrderNone(r.st, eval);
      InOrderCons([form], r.v, [], st, r.st, r.st, eval);
      assert Last([r.v] + []) == r.v;
    } else {
      InOrderNone(st, eval);
      assert [form][..0] == [];
      assert StopsAt([form], st, r, eval);
    }
  }

  lemma SequenceCons(r: Res<Obj>, forms: seq<Obj>, st: State, eval: Evaluator)
    requires |forms| > 1
    requires match eval(forms[0], st)
             case Done(_, after) => InSequence(r, forms[1..], after, eval)
             case failed => r == failed
    ensures InSequence(r, forms, st, eval)
  {
    var first := eval(forms[0], st);
    if !first.Done? {
      InOrderNone(st, eval);
      assert forms[..0] == [];
      assert StopsAt(forms, st, r, eval);
    } else if r.Done? {
      var vs :| InOrder(forms[1..], vs, first.st, r.st, eval) && r.v == Last(vs);
      InOrderCons(forms, first.v, vs, st, first.st, r.st, eval);
      assert Last([first.v] + vs) == Last(vs);
    } else {
      StopsLater(r, forms, st, first, eval);
    }
  }

  lemma StopsLater(r: Res<Obj>, forms: seq<Obj>, st: State, first: Res<Obj>, eval: Evaluator)
    requires forms != [] && first.Done? && eval(forms[0], st) == first && StopsAt(forms[1..], first.st, r, eval)
    ensures StopsAt(forms, st, r, eval)
  {
    var k, vs, mid :| 0 <= k < |forms[1..]| && InOrder(forms[1..][..k], vs, first.st, mid, eval)
                      && eval(forms[1..][k], mid) == r;
    assert forms[..k + 1][1..] == forms[1..][..k] && forms[..k + 1][0] == forms[0];
    InOrderCons(forms[..k + 1], first.v, vs, st, first.st, mid, eval);
    assert eval(forms[k + 1], mid) == r;
  }

  /** A body, and so `progn`: its forms in order, and the value of the last, nil if there is none. */
  lemma {:induction false} BodyIs(j: Obj, scopes: Scopes, st: State, n: nat, prim: Prims)
    requires Proper(j)
    ensures InSequence(EvalBody(j, scopes, st, n, prim), Items(j), st, Reference(scopes, n, prim))
    decreases j
  {
    var eval := Reference(scopes, n, prim);
    if j.Nil? {
      InOrderNone(st, eval);
    } else if j.cdr.Nil? {
      assert Items(j) == [j.car];
      SequenceOne(j.car, st, eval);
    } else {
      var first := Eval(j.car, scopes, st, n, prim);
      if first.Done? { BodyIs(j.cdr, scopes, first.st, n, prim); }
      assert Items(j)[1..] == Items(j.cdr) && |Items(j.cdr)| > 0;
      SequenceCons(EvalBody(j, scopes, st, n, prim), Items(j), st, eval);
    }
  }

  // ----- cond -----

  /** The tests of clauses; an empty clause has none. */
  function Tests(clauses: seq<Obj>): seq<Obj> {
    if clauses == [] then [] else (if clauses[0].Cell? then [clauses[0].car] else []) + Tests(clauses[1..])
  }

  predicate AllNil(vs: seq<Obj>) {
    forall i | 0 <= i < |vs| :: vs[i].Nil?
  }

  /** Every test is nil. */
  ghost predicate NoneHolds(clauses: seq<Obj>, st: State, next: State, eval: Evaluator) {
    exists vs :: AllNil(vs) && InOrder(Tests(clauses), vs, st, next, eval)
  }

  /** Clause `k` is the first whose test is not nil: the result is the test's value if there is
      nothing behind it, and otherwise that of its body. */
  ghost predicate HoldsFirst(r: Res<Obj>, clauses: seq<Obj>, k: nat, st: State, eval: Evaluator)
    requires k < |clauses| && clauses[k].Cell? && Proper(clauses[k].cdr)
  {
    exists mid ::
      && NoneHolds(clauses[..k], st, mid, eval)
      && var test := eval(clauses[k].car, mid);
      && test.Done? && !test.v.Nil?
      && if clauses[k].cdr.Nil? then r == test else InSequence(r, Items(clauses[k].cdr), test.st, eval)
  }

  /** A test fails before any holds. */
  ghost predicate TestFails(r: Res<Obj>, clauses: seq<Obj>, k: nat, st: State, eval: Evaluator)
    requires k < |clauses| && clauses[k].Cell?
  {
    !r.Done? && exists mid :: NoneHolds(clauses[..k], st, mid, eval) && eval(clauses[k].car, mid) == r
  }

  predicate Clauses(clauses: seq<Obj>) {
    forall k | 0 <= k < |clauses| :: clauses[k].Nil? || (clauses[k].Cell? && Proper(clauses[k].cdr))
  }

  /** What clause `k` decides. */
  ghost predicate Decides(r: Res<Obj>, clauses: seq<Obj>, k: nat, st: State, eval: Evaluator)
    requires k < |clauses| && Clauses(clauses)
  {
    clauses[k].Cell? && (HoldsFirst(r, clauses, k, st, eval) || TestFails(r, clauses, k, st, eval))
  }

  ghost predicate CondGives(r: Res<Obj>, clauses: seq<Obj>, st: State, eval: Evaluator)
    requires Clauses(clauses)
  {
    || (r.Done? && r.v.Nil? && NoneHolds(clauses, st, r.st, eval))
    || exists k | 0 <= k < |clauses| :: Decides(r, clauses, k, st, eval)
  }

  lemma NoneHoldsNone(st: State, eval: Evaluator)
    ensures NoneHolds([], st, st, eval)
  {
    InOrderNone(st, eval);
    assert AllNil([]) && Tests([]) == [];
  }

  lemma NoneHoldsCons(clauses: seq<Obj>, st: State, after: State, next: State, eval: Evaluator)
    requires clauses != [] && NoneHolds(clauses[1..], after, next, eval)
    requires if clauses[0].Cell? then eval(clauses[0].car, st) == Done(Nil, after) else after == st
    ensures NoneHolds(clauses, st, next, eval)
  {
    var vs :| AllNil(vs) && InOrder(Tests(clauses[1..]), vs, after, next, eval);
    if clauses[0].Cell? {
      assert Tests(clauses)[1..] == Tests(clauses[1..]) && Tests(clauses)[0] == clauses[0].car;
      InOrderCons(Tests(clauses), Nil, vs, st, after, next, eval);
      assert AllNil([Nil] + vs);
    } else {
      assert Tests(clauses) == Tests(clauses[1..]);
    }
  }

  lemma NoneHoldsBefore(clauses: seq<Obj>, k: nat, st: State, after: State, next: State, eval: Evaluator)
    requires clauses != [] && k < |clauses[1..]| && NoneHolds(clauses[1..][..k], after, next, eval)
    requires if clauses[0].Cell? then eval(clauses[0].car, st) == Done(Nil, after) else after == st
    ensures NoneHolds(clauses[..k + 1], st, next, eval)
  {
    assert clauses[..k + 1][1..] == clauses[1..][..k] && clauses[..k + 1][0] == clauses[0];
    NoneHoldsCons(clauses[..k + 1], st, after, next, eval);
  }

  lemma LaterDecides(r: Res<Obj>, clauses: seq<Obj>, k: nat, st: State, after: State, eval: Evaluator)
    requires Clauses(clauses) && clauses != [] && Clauses(clauses[1..])
    requires k < |clauses[1..]| && Decides(r, clauses[1..], k, after, eval)
    requires if clauses[0].Cell? then eval(clauses[0].car, st) == Done(Nil, after) else after == st
    ensures Decides(r, clauses, k + 1, st, eval)
  {
    var rest := clauses[1..];
    assert rest[k] == clauses[k + 1];
    if HoldsFirst(r, rest, k, after, eval) {
      var mid :| NoneHolds(rest[..k], after, mid, eval) && eval(rest[k].car, mid).Done?
                 && !eval(rest[k].car, mid).v.Nil?
                 && if rest[k].cdr.Nil? then r == eval(rest[k].car, mid)
                    else InSequence(r, Items(rest[k].cdr), eval(rest[k].car, mid).st, eval);
      NoneHoldsBefore(clauses, k, st, after, mid, eval);
      assert HoldsFirst(r, clauses, k + 1, st, eval);
    } else {
      var mid :| NoneHolds(rest[..k], after, mid, eval) && eval(rest[k].car, mid) == r;
      NoneHoldsBefore(clauses, k, st, after, mid, eval);
      assert TestFails(r, clauses, k + 1, st, eval);
    }
  }

  lemma CondLater(r: Res<Obj>, clauses: seq<Obj>, st: State, after: State, eval: Evaluator)
    requires Clauses(clauses) && clauses != [] && Clauses(clauses[1..]) && CondGives(r, clauses[1..], after, eval)
    requires if clauses[0].Cell? then eval(clauses[0].car, st) == Done(Nil, after) else after == st
    ensures CondGives(r, clauses, st, eval)
  {
    if r.Done? && r.v.Nil? && NoneHolds(clauses[1..], after, r.st, eval) {
      NoneHoldsCons(clauses, st, after, r.st, eval);
    } else {
      var k :| 0 <= k < |clauses[1..]| && Decides(r, clauses[1..], k, after, eval);
      LaterDecides(r, clauses, k, st, after, eval);
    }
  }

  lemma CondHere(j: Obj, test: Res<Obj>, scopes: Scopes, st: State, n: nat, prim: Prims)
    requires j.Cell? && j.car.Cell? && Proper(j.car.cdr) && Clauses(Items(j))
    requires test == Eval(j.car.car, scopes, st, n, prim) && !(test.Done? && test.v.Nil?)
    ensures CondGives(EvalCond(j, scopes, st, n, prim), Items(j), st, Reference(scopes, n, prim))
  {
    var r, eval, clauses := EvalCond(j, scopes, st, n, prim), Reference(scopes, n, prim), Items(j);
    NoneHoldsNone(st, eval);
    assert clauses[..0] == [] && clauses[0] == j.car && r == AfterTest(test, j, scopes, n, prim);
    assert NoneHolds(clauses[..0], st, st, eval) && eval(clauses[0].car, st) == test;
    if test.Done? {
      BodyIs(j.car.cdr, scopes, test.st, n, prim);
      assert HoldsFirst(r, clauses, 0, st, eval);
    } else {
      assert TestFails(r, clauses, 0, st, eval);
    }
    assert Decides(r, clauses, 0, st, eval);
  }

  /** `cond`: the first clause whose test is not nil decides, the tests before it evaluated in
      order; nil if there is none. */
  lemma {:induction false} CondIs(j: Obj, scopes: Scopes, st: State, n: nat, prim: Prims)
    requires Proper(j) && Clauses(Items(j))
    ensures CondGives(EvalCond(j, scopes, st, n, prim), Items(j), st, Reference(scopes, n, prim))
    decreases j
  {
    var r, eval := EvalCond(j, scopes, st, n, prim), Reference(scopes, n, prim);
    if j.Nil? {
      NoneHoldsNone(st, eval);
    } else {
      assert Items(j)[0] == j.car && Items(j)[1..] == Items(j.cdr);
      assert Clauses(Items(j.cdr)) by {
        forall k | 0 <= k < |Items(j.cdr)|
          ensures Items(j.cdr)[k].Nil? || (Items(j.cdr)[k].Cell? && Proper(Items(j.cdr)[k].cdr))
        {
          assert Items(j.cdr)[k] == Items(j)[k + 1];
        }
      }
      var test := if j.car.Cell? then Eval(j.car.car, scopes, st, n, prim) else Done(Nil, st);
      if test.Done? && test.v.Nil? {
        CondIs(j.cdr, scopes, test.st, n, prim);
        if j.car.Cell? {
          assert eval(Items(j)[0].car, st) == Done(Nil, test.st) && r == AfterTest(test, j, scopes, n, prim);
        }
        assert r == EvalCond(j.cdr, scopes, test.st, n, prim);
        CondLater(r, Items(j), st, test.st, eval);
      } else {
        CondHere(j, test, scopes, st, n, prim);
      }
    }
  }

  // ----- setq -----

  /** What was assigned to a variable is what it evaluates to. */
  lemma AssignedIsRead(name: string, v: Obj, scopes: Scopes, st: State, n: nat, prim: Prims)
    requires name !in SPECIAL
    ensures var r := Assign(Sym(name), v, scopes, st);
            r.Done? ==> r.v == v && Eval(Sym(name), scopes, r.st, n, prim) == Done(v, r.st)
  {
    match Lookup(name, scopes)
    case Some((id, offset)) => SlotWritten(id, offset, v, st, id, offset);
    case None => GlobalWritten(name, v, st, name);
  }

  /** The variables and the forms of a `setq`. */
  predicate Paired(j: Obj) {
    j.Nil? || (j.Cell? && j.cdr.Cell? && Paired(j.cdr.cdr))
  }

  /** Each form is evaluated in the state that the assignment before it left, and its value
      assigned to its variable in the state it leaves itself. */
  ghost predicate Assigns(pairs: seq<(Obj, Obj)>, vs: seq<Obj>, states: seq<State>, scopes: Scopes, eval: Evaluator) {
    && |vs| == |pairs| && |states| == |pairs| + 1
    && forall i | 0 <= i < |pairs| :: AssignsOne(pairs[i], vs[i], states[i], states[i + 1], scopes, eval)
  }

  ghost predicate AssignsOne(pair: (Obj, Obj), v: Obj, st: State, next: State, scopes: Scopes, eval: Evaluator) {
    var value := eval(pair.1, st);
    value.Done? && value.v == v && Assign(pair.0, v, scopes, value.st) == Done(v, next)
  }

  ghost predicate AllAssigned(pairs: seq<(Obj, Obj)>, vs: seq<Obj>, st: State, next: State, scopes: Scopes,
                              eval: Evaluator)
  {
    exists states :: Assigns(pairs, vs, states, scopes, eval) && states[0] == st && states[|pairs|] == next
  }

  lemma AssignsCons(pairs: seq<(Obj, Obj)>, v: Obj, vs: seq<Obj>, st: State, after: State, next: State,
                    scopes: Scopes, eval: Evaluator)
    requires pairs != [] && AssignsOne(pairs[0], v, st, after, scopes, eval)
    requires AllAssigned(pairs[1..], vs, after, next, scopes, eval)
    ensures AllAssigned(pairs, [v] + vs, st, next, scopes, eval)
  {
    var states :| Assigns(pairs[1..], vs, states, scopes, eval) && states[0] == after && states[|pairs| - 1] == next;
    var all := [st] + states;
    forall i | 0 <= i < |pairs| ensures AssignsOne(pairs[i], ([v] + vs)[i], all[i], all[i + 1], scopes, eval) {
      if i > 0 { assert pairs[1..][i - 1] == pairs[i]; }
    }
    assert Assigns(pairs, [v] + vs, all, scopes, eval);
  }

  lemma AssignGives(lval: Obj, v: Obj, scopes: Scopes, st: State)
    ensures Assign(lval, v, scopes, st).Done? ==> Assign(lval, v, scopes, st).v == v
  {
  }

  /** `setq`: the values of the forms in order, each assigned before the next form is evaluated;
      the last is the value, and `last` if there is none. */
  lemma {:induction false} SetqIs(j: Obj, last: Obj, scopes: Scopes, st: State, n: nat, prim: Prims)
    requires Paired(j)
    ensures var r := EvalSetq(j, last, scopes, st, n, prim);
            r.Done? ==> exists vs :: AllAssigned(Pairs(j), vs, st, r.st, scopes, Reference(scopes, n, prim))
                                     && r.v == Last([last] + vs)
    decreases j
  {
    var r, eval := EvalSetq(j, last, scopes, st, n, prim), Reference(scopes, n, prim);
    if j.Nil? {
      assert Assigns([], [], [st], scopes, eval);
      assert AllAssigned(Pairs(j), [], st, st, scopes, eval) && Last([last] + []) == last;
    } else if r.Done? {
      SetqStep(j, last, scopes, st, n, prim);
      var set_ := SetOne(j.car, j.cdr.car, scopes, st, n, prim);
      SetqIs(j.cdr.cdr, set_.v, scopes, set_.st, n, prim);
      var vs :| AllAssigned(Pairs(j.cdr.cdr), vs, set_.st, r.st, scopes, eval) && r.v == Last([set_.v] + vs);
      assert Pairs(j)[0] == (j.car, j.cdr.car) && Pairs(j)[1..] == Pairs(j.cdr.cdr);
      AssignsCons(Pairs(j), set_.v, vs, st, set_.st, r.st, scopes, eval);
      assert Last([last] + ([set_.v] + vs)) == Last([set_.v] + vs);
    }
  }

  lemma SetqStep(j: Obj, last: Obj, scopes: Scopes, st: State, n: nat, prim: Prims)
    requires j.Cell? && j.cdr.Cell? && EvalSetq(j, last, scopes, st, n, prim).Done?
    ensures var set_ := SetOne(j.car, j.cdr.car, scopes, st, n, prim);
            && set_.Done?
            && AssignsOne((j.car, j.cdr.car), set_.v, st, set_.st, scopes, Reference(scopes, n, prim))
            && EvalSetq(j, last, scopes, st, n, prim) == EvalSetq(j.cdr.cdr, set_.v, scopes, set_.st, n, prim)
  {
    var value := Eval(j.cdr.car, scopes, st, n, prim);
    if value.Done? { AssignGives(j.car, value.v, scopes, value.st); }
  }

  // ----- the forms themselves -----

  function Form(head: string, rest: Obj): Obj {
    Cell(Sym(head), rest)
  }

  lemma SpecialGoes(head: string, j: Obj, scopes: Scopes, st: State, n: nat, prim: Prims)
    requires head in SPECIAL && head != "quote" && head != "lambda" && (j.Cell? || j.Nil?)
    ensures Eval(Form(head, j), scopes, st, n + 1, prim) == EvalSpecial(Form(head, j), scopes, st, n, prim)
  {
  }

  lemma QuoteMeans(x: Obj, scopes: Scopes, st: State, n: nat, prim: Prims)
    ensures Eval(Form("quote", Cell(x, Nil)), scopes, st, n, prim) == Done(x, st)
  {
  }

  /** `progn` gives the last of its forms' values, all evaluated in order. */
  lemma PrognMeans(j: Obj, scopes: Scopes, st: State, n: nat, prim: Prims)
    requires Proper(j)
    ensures InSequence(Eval(Form("progn", j), scopes, st, n + 1, prim), Items(j), st, Reference(scopes, n, prim))
  {
    SpecialGoes("progn", j, scopes, st, n, prim);
    BodyIs(j, scopes, st, n, prim);
  }

  /** `cond` is decided by the first clause whose test is not nil, and nil if there is none. */
  lemma CondMeans(j: Obj, scopes: Scopes, st: State, n: nat, prim: Prims)
    requires Proper(j) && Clauses(Items(j))
    ensures CondGives(Eval(Form("cond", j), scopes, st, n + 1, prim), Items(j), st, Reference(scopes, n, prim))
  {
    SpecialGoes("cond", j, scopes, st, n, prim);
    CondIs(j, scopes, st, n, prim);
  }

  /** `setq` assigns its variables in order and gives the last value, nil if there is none. */
  lemma SetqMeans(j: Obj, scopes: Scopes, st: State, n: nat, prim: Prims)
    requires Paired(j)
    ensures var r := Eval(Form("setq", j), scopes, st, n + 1, prim);
            r.Done? ==> exists vs :: AllAssigned(Pairs(j), vs, st, r.st, scopes, Reference(scopes, n, prim))
                                     && r.v == Last(vs)
  {
    var r := Eval(Form("setq", j), scopes, st, n + 1, prim);
    SpecialGoes("setq", j, scopes, st, n, prim);
    SetqIs(j, Nil, scopes, st, n, prim);
    if r.Done? {
      var vs :| AllAssigned(Pairs(j), vs, st, r.st, scopes, Reference(scopes, n, prim)) && r.v == Last([Nil] + vs);
      assert Last([Nil] + vs) == Last(vs);
    }
  }
}
