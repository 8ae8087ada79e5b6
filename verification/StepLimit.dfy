/** The bound on nested evaluations decides only whether there is a result, never which: what an
    evaluation gives under one bound it gives under every larger one. So "evaluates to" has a
    meaning of its own, without a bound. */
module StepLimit {
  import opened LispObjects
  import opened Store
  import Quasiquote
  import opened AddressedEval

  lemma {:induction false} MoreEval(x: Obj, env: seq<nat>, st: State, n: nat, m: nat, prim: Prims)
    requires n <= m && Eval(x, env, st, n, prim) != OutOfFuel
    ensures Eval(x, env, st, m, prim) == Eval(x, env, st, n, prim)
    decreases n, 0
  {
    if x.Cell? && x.car != QUOTE && x.car != LAMBDA {
      if x.car.Sym? && x.car.name in SPECIAL {
        MoreSpecial(x, env, st, n - 1, m - 1, prim);
      } else {
        MoreApplication(x, env, st, n - 1, m - 1, prim);
      }
    }
  }

  lemma {:induction false} MoreSpecial(x: Obj, env: seq<nat>, st: State, n: nat, m: nat, prim: Prims)
    requires n <= m && x.Cell? && x.car.Sym? && EvalSpecial(x, env, st, n, prim) != OutOfFuel
    ensures EvalSpecial(x, env, st, m, prim) == EvalSpecial(x, env, st, n, prim)
    decreases n, 4
  {
    var arg := CdrCell(x);
    if arg.Ok? {
      if x.car.name == "progn" {
        MoreBody(arg.value, env, st, n, m, prim);
      } else if x.car.name == "cond" {
        MoreCond(arg.value, env, st, n, m, prim);
      } else if x.car.name == "setq" {
        MoreSetq(arg.value, Nil, env, st, n, m, prim);
      } else if x.car.name == "quasiquote" && arg.value.Cell? && arg.value.cdr.Nil? {
        var form := Quasiquote.Expand(arg.value.car);
        if form.Some? { MoreEval(form.value, env, st, n, m, prim); }
      }
    }
  }

  lemma {:induction false} MoreApplication(x: Obj, env: seq<nat>, st: State, n: nat, m: nat, prim: Prims)
    requires n <= m && x.Cell? && EvalApplication(x, env, st, n, prim) != OutOfFuel
    ensures EvalApplication(x, env, st, m, prim) == EvalApplication(x, env, st, n, prim)
    decreases n, 4
  {
    var arg := CdrCell(x);
    if arg.Ok? {
      if !x.car.Sym? { MoreEval(x.car, env, st, n, m, prim); }
      var fn := EvalHead(x.car, env, st, n, prim);
      if fn.Done? { MoreApply(fn.v, arg.value, env, fn.st, n, m, prim); }
    }
  }

  lemma {:induction false} MoreApply(fn: Obj, arg: Obj, env: seq<nat>, st: State, n: nat, m: nat, prim: Prims)
    requires n <= m && Apply(fn, arg, env, st, n, prim) != OutOfFuel
    ensures Apply(fn, arg, env, st, m, prim) == Apply(fn, arg, env, st, n, prim)
    decreases n, 3
  {
    if fn.Closure? || fn.Builtin? {
      MoreArgs(arg, fn.carity, fn.keys, env, st, n, m, prim);
      var frame := EvalArgs(arg, fn.carity, fn.keys, env, st, n, prim);
      if frame.Done? && fn.Closure? {
        MoreBody(fn.body, [|frame.st.frames|] + fn.env, PushFrame(frame.v, frame.st), n, m, prim);
      }
    }
  }

  lemma {:induction false} MoreArgs(arg: Obj, carity: int, keys: seq<string>, env: seq<nat>, st: State, n: nat, m: nat,
                                    prim: Prims)
    requires n <= m && EvalArgs(arg, carity, keys, env, st, n, prim) != OutOfFuel
    ensures EvalArgs(arg, carity, keys, env, st, m, prim) == EvalArgs(arg, carity, keys, env, st, n, prim)
    decreases n, 2
  {
    var s := MakeFrame(arg, carity, keys);
    if s.Ok? {
      MoreAll(s.value.fixed, env, st, n, m, prim);
      var fixed := EvalAll(s.value.fixed, env, st, n, prim);
      var rest := RestArgs(s.value.rest);
      if fixed.Done? && rest.Ok? { MoreAll(rest.value, env, fixed.st, n, m, prim); }
    }
  }

  lemma {:induction false} MoreAll(xs: seq<Obj>, env: seq<nat>, st: State, n: nat, m: nat, prim: Prims)
    requires n <= m && EvalAll(xs, env, st, n, prim) != OutOfFuel
    ensures EvalAll(xs, env, st, m, prim) == EvalAll(xs, env, st, n, prim)
    decreases n, 1, |xs|
  {
    if xs != [] {
      MoreEval(xs[0], env, st, n, m, prim);
      var first := Eval(xs[0], env, st, n, prim);
      if first.Done? { MoreAll(xs[1..], env, first.st, n, m, prim); }
    }
  }

  lemma {:induction false} MoreBody(j: Obj, env: seq<nat>, st: State, n: nat, m: nat, prim: Prims)
    requires n <= m && EvalBody(j, env, st, n, prim) != OutOfFuel
    ensures EvalBody(j, env, st, m, prim) == EvalBody(j, env, st, n, prim)
    decreases n, 1, j
  {
    if j.Cell? && CdrCell(j).Ok? {
      MoreEval(j.car, env, st, n, m, prim);
      var first := Eval(j.car, env, st, n, prim);
      if first.Done? && !j.cdr.Nil? { MoreBody(j.cdr, env, first.st, n, m, prim); }
    }
  }

  lemma {:induction false} MoreCond(j: Obj, env: seq<nat>, st: State, n: nat, m: nat, prim: Prims)
    requires n <= m && EvalCond(j, env, st, n, prim) != OutOfFuel
    ensures EvalCond(j, env, st, m, prim) == EvalCond(j, env, st, n, prim)
    decreases n, 2, j
  {
    if j.Cell? && j.car.Cell? {
      MoreEval(j.car.car, env, st, n, m, prim);
      var test := Eval(j.car.car, env, st, n, prim);
      if test.Done? {
        if test.v.Nil? {
          if CdrCell(j).Ok? { MoreCond(j.cdr, env, test.st, n, m, prim); }
        } else if CdrCell(j.car).Ok? && !j.car.cdr.Nil? {
          MoreBody(j.car.cdr, env, test.st, n, m, prim);
        }
      }
    } else if j.Cell? && j.car.Nil? && CdrCell(j).Ok? {
      MoreCond(j.cdr, env, st, n, m, prim);
    }
  }

  lemma {:induction false} MoreSetq(j: Obj, last: Obj, env: seq<nat>, st: State, n: nat, m: nat, prim: Prims)
    requires n <= m && EvalSetq(j, last, env, st, n, prim) != OutOfFuel
    ensures EvalSetq(j, last, env, st, m, prim) == EvalSetq(j, last, env, st, n, prim)
    decreases n, 2, j
  {
    if j.Cell? && j.cdr.Cell? {
      MoreEval(j.cdr.car, env, st, n, m, prim);
      var set_ := SetOne(j.car, j.cdr.car, env, st, n, prim);
      if set_.Done? && CdrCell(j.cdr).Ok? { MoreSetq(j.cdr.cdr, set_.v, env, set_.st, n, m, prim); }
    }
  }

  /** `x` evaluates to `r`, under some bound. */
  ghost predicate EvaluatesTo(x: Obj, env: seq<nat>, st: State, prim: Prims, r: Res<Obj>) {
    r != OutOfFuel && exists n: nat :: Eval(x, env, st, n, prim) == r
  }

  /** A form has at most one result, whatever the bounds it is found under. */
  lemma OneResult(x: Obj, env: seq<nat>, st: State, prim: Prims, r: Res<Obj>, q: Res<Obj>)
    requires EvaluatesTo(x, env, st, prim, r) && EvaluatesTo(x, env, st, prim, q)
    ensures r == q
  {
    var n: nat :| Eval(x, env, st, n, prim) == r;
    var m: nat :| Eval(x, env, st, m, prim) == q;
    if n <= m { MoreEval(x, env, st, n, m, prim); } else { MoreEval(x, env, st, m, n, prim); }
  }
}
