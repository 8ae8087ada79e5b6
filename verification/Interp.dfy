/** The evaluator as the source writes it: a loop over tail calls, on an interpreter whose
    globals and frames change in place (`packages/interpreter/src/lisp.ts`). */
module Interpreter {
  import opened LispObjects
  import opened Store
  import opened LexicalCompiler
  import Run = AddressedEval
  import Named = NamedEval
  import Quasiquote
  import opened CompilerCorrectness
  import opened Arguments

  /** What one part of `evalGen` hands back: a value, a tail call still to make, an
      exception, or the step limit of the model. */
  datatype Outcome = Value(v: Obj) | Tail(x: Obj, env: seq<nat>) | Raised(e: Fail) | Stopped

  datatype Evaluated = Values(vs: seq<Obj>) | RaisedIn(e: Fail) | StoppedIn

  /** `qqQuote`: a value as a form that evaluates to it. */
  function Quoted(v: Obj): Obj {
    if v.Sym? || v.Cell? then Cell(QUOTE, Cell(v, Nil)) else v
  }

  /** The result an outcome leads to when its tail call is made by direct recursion. */
  function Final(o: Outcome, st: State, n: nat, prim: Prims): Res<Obj> {
    match o
    case Value(v) => Done(v, st)
    case Raised(e) => Threw(e, st)
    case Stopped => OutOfFuel
    case Tail(x, env) => Run.Eval(x, env, st, n, prim)
  }

  function FinalAll(o: Evaluated, st: State): Res<seq<Obj>> {
    match o
    case Values(vs) => Done(vs, st)
    case RaisedIn(e) => Threw(e, st)
    case StoppedIn => OutOfFuel
  }

  /** The values of the arguments done so far, put before those of the others. */
  function After(vs: seq<Obj>, r: Res<seq<Obj>>): Res<seq<Obj>> {
    match r
    case Done(ws, st) => Done(vs + ws, st)
    case other => other
  }

  lemma AfterNone(r: Res<seq<Obj>>)
    ensures After([], r) == r
  {
    if r.Done? { assert [] + r.v == r.v; }
  }

  /** A slot overwritten by its value: one argument less to evaluate. */
  lemma SlotDone(slots: seq<Obj>, i: nat, v: Obj, st: State, next: State, env: seq<nat>, n: nat, prim: Prims)
    requires i < |slots| && Run.Eval(slots[i], env, st, n, prim) == Done(v, next)
    ensures slots[i := v][i + 1..] == slots[i + 1..]
    ensures After(slots[i := v][..i + 1], Run.EvalAll(slots[i + 1..], env, next, n, prim))
         == After(slots[..i], Run.EvalAll(slots[i..], env, st, n, prim))
  {
    assert slots[i..][0] == slots[i] && slots[i..][1..] == slots[i + 1..];
    assert slots[i := v][..i + 1] == slots[..i] + [v];
    var others := Run.EvalAll(slots[i + 1..], env, next, n, prim);
    if others.Done? { assert slots[..i] + ([v] + others.v) == (slots[..i] + [v]) + others.v; }
  }

  /** An argument without a value: what comes after it does not matter. */
  lemma SlotFails(slots: seq<Obj>, i: nat, st: State, env: seq<nat>, n: nat, prim: Prims)
    requires i < |slots|
    ensures match Run.Eval(slots[i], env, st, n, prim)
            case Done(_, _) => true
            case Threw(e, next) => After(slots[..i], Run.EvalAll(slots[i..], env, st, n, prim)) == Threw(e, next)
            case OutOfFuel => After(slots[..i], Run.EvalAll(slots[i..], env, st, n, prim)) == OutOfFuel
  {
    assert slots[i..][0] == slots[i];
  }

  class Interp {
    var globals: map<string, Obj>
    var frames: seq<seq<Obj>>
    const sealed: set<string>
    const prim: Prims

    constructor (globals: map<string, Obj>, sealed: set<string>, prim: Prims)
      ensures Contents() == State(globals, sealed, []) && this.prim == prim
    {
      this.globals := globals;
      this.sealed := sealed;
      this.frames := [];
      this.prim := prim;
    }

    function Contents(): State
      reads this
    {
      State(globals, sealed, frames)
    }

    method EvalNow(x: Obj, env: seq<nat>) returns (r: Outcome)
      requires !x.Cell?
      ensures !r.Tail? && Final(r, Contents(), 0, prim) == Run.EvalNow(x, env, Contents())
    {
      match x
      case Arg(level, offset, _) =>
        if level < |env| && InFrame(env[level], offset, Contents()) {
          return Value(frames[env[level]][offset]);
        }
        return Raised(BadAddress);
      case Sym(s) => return if s in globals then Value(globals[s]) else Raised(VoidVariable);
      case Lambda(carity, body, keys) => return Value(Closure(carity, body, keys, env));
      case _ => return Value(x);
    }

    /** `evalGen`: one turn of the loop per tail call, in constant stack. Its result is that
        of the direct recursive evaluator, and it is cut short exactly when that one is. */
    method EvalGen(form: Obj, scope: seq<nat>, fuel: nat) returns (r: Outcome)
      modifies this
      ensures !r.Tail?
      ensures Final(r, Contents(), 0, prim) == Run.Eval(form, scope, old(Contents()), fuel, prim)
      decreases fuel, 0
    {
      var x, env, left: nat := form, scope, fuel;
      while x.Cell?
        invariant left <= fuel
        invariant Run.Eval(x, env, Contents(), left, prim) == Run.Eval(form, scope, old(Contents()), fuel, prim)
        decreases left, x.Cell?
      {
        if x.car == QUOTE || x.car == LAMBDA {
          r := QuoteOrLambda(x, env);
          return;
        }
        if left == 0 { return Stopped; }
        left := left - 1;
        if x.car.Sym? && x.car.name in SPECIAL {
          r := EvalSpecial(x, env, left);
        } else {
          r := EvalApplication(x, env, left);
        }
        if !r.Tail? { return; }
        x, env := r.x, r.env;
      }
      r := EvalNow(x, env);
    }

    method QuoteOrLambda(x: Obj, env: seq<nat>) returns (r: Outcome)
      requires x.Cell? && (x.car == QUOTE || x.car == LAMBDA)
      ensures !r.Tail?
      ensures Final(r, Contents(), 0, prim) == Run.Eval(x, env, Contents(), 0, prim)
    {
      var arg := CdrCell(x);
      if arg.Err? { return Raised(arg.error); }
      if x.car == QUOTE {
        return if arg.value.Cell? && arg.value.cdr.Nil? then Value(arg.value.car) else Raised(BadQuote);
      }
      var f := CompileFunc(arg.value);
      return if f.Err? then Raised(f.error)
             else Value(Closure(f.value.carity, f.value.body, f.value.keys, env));
    }

    method EvalSpecial(x: Obj, env: seq<nat>, n: nat) returns (r: Outcome)
      requires x.Cell? && x.car.Sym?
      modifies this
      ensures Final(r, Contents(), n, prim) == Run.EvalSpecial(x, env, old(Contents()), n, prim)
      decreases n, 4
    {
      var arg := CdrCell(x);
      if arg.Err? { return Raised(arg.error); }
      match x.car.name
      case "progn" => r := EvalProgN(arg.value, env, n);
      case "cond" => r := EvalCond(arg.value, env, n);
      case "setq" => r := EvalSetQ(arg.value, env, n);
      case "quasiquote" => r := EvalQuasiquote(x, env, n);
      case _ => r := Raised(NotModelled);
    }

    /** The expansion is left to the loop of `EvalGen`. */
    method EvalQuasiquote(x: Obj, env: seq<nat>, n: nat) returns (r: Outcome)
      requires x.Cell? && x.car == QUASIQUOTE && (x.cdr.Cell? || x.cdr.Nil?)
      ensures Final(r, Contents(), n, prim) == Run.EvalSpecial(x, env, Contents(), n, prim)
    {
      if !x.cdr.Cell? || !x.cdr.cdr.Nil? { return Raised(BadQuasiquote); }
      var form := Quasiquote.Expand(x.cdr.car);
      return if form.None? then Raised(PartMissing) else Tail(form.value, env);
    }

    method EvalOne(x: Obj, env: seq<nat>, n: nat) returns (r: Outcome)
      modifies this
      ensures !r.Tail?
      ensures Final(r, Contents(), 0, prim) == Run.Eval(x, env, old(Contents()), n, prim)
      decreases n, 1
    {
      if x.Cell? { r := EvalGen(x, env, n); } else { r := EvalNow(x, env); }
    }

    /** Every form but the last is evaluated; the last is left to the loop of `EvalGen`. */
    method EvalProgN(body: Obj, env: seq<nat>, n: nat) returns (r: Outcome)
      modifies this
      ensures Final(r, Contents(), n, prim) == Run.EvalBody(body, env, old(Contents()), n, prim)
      decreases n, 2
    {
      if !body.Cell? && !body.Nil? { return Raised(ProperListExpected); }
      var j := body;
      while j.Cell?
        invariant j.Cell? || j.Nil?
        invariant Run.EvalBody(j, env, Contents(), n, prim) == Run.EvalBody(body, env, old(Contents()), n, prim)
        decreases j
      {
        var rest := CdrCell(j);
        if rest.Err? { return Raised(rest.error); }
        if rest.value.Nil? { return Tail(j.car, env); }
        r := EvalOne(j.car, env, n);
        if !r.Value? { return; }
        j := rest.value;
      }
      return Tail(Nil, env);
    }

    method EvalCond(clauses: Obj, env: seq<nat>, n: nat) returns (r: Outcome)
      modifies this
      ensures Final(r, Contents(), n, prim) == Run.EvalCond(clauses, env, old(Contents()), n, prim)
      decreases n, 3
    {
      var j := clauses;
      while j.Cell?
        invariant Run.EvalCond(j, env, Contents(), n, prim) == Run.EvalCond(clauses, env, old(Contents()), n, prim)
        decreases j
      {
        var clause := j.car;
        if clause.Cell? {
          r := EvalOne(clause.car, env, n);
          if !r.Value? { return; }
          if !r.v.Nil? {
            var body := CdrCell(clause);
            if body.Err? { return Raised(body.error); }
            if body.value.Nil? { return Tail(Quoted(r.v), env); }
            r := EvalProgN(body.value, env, n);
            return;
          }
        } else if !clause.Nil? {
          return Raised(CondTestExpected);
        }
        var rest := CdrCell(j);
        if rest.Err? { return Raised(rest.error); }
        j := rest.value;
      }
      return Tail(Nil, env);
    }

    method EvalSetQ(pairs: Obj, env: seq<nat>, n: nat) returns (r: Outcome)
      modifies this
      ensures !r.Tail?
      ensures Final(r, Contents(), n, prim) == Run.EvalSetq(pairs, Nil, env, old(Contents()), n, prim)
      decreases n, 2
    {
      var j, last := pairs, Nil;
      while j.Cell?
        invariant Run.EvalSetq(j, last, env, Contents(), n, prim)
               == Run.EvalSetq(pairs, Nil, env, old(Contents()), n, prim)
        decreases j
      {
        var lval := j.car;
        var right := CdrCell(j);
        if right.Err? { return Raised(right.error); }
        if !right.value.Cell? { return Raised(RightValueExpected); }
        r := EvalOne(right.value.car, env, n);
        if !r.Value? { return; }
        last := r.v;
        r := SetValue(lval, last, env);
        if !r.Value? { return; }
        var rest := CdrCell(right.value);
        if rest.Err? { return Raised(rest.error); }
        j := rest.value;
      }
      return Value(last);
    }

    method SetValue(lval: Obj, v: Obj, env: seq<nat>) returns (r: Outcome)
      modifies this
      ensures !r.Tail? && (r.Value? ==> r.v == v)
      ensures Final(r, Contents(), 0, prim) == Run.Assign(lval, v, env, old(Contents()))
    {
      match lval
      case Arg(level, offset, _) =>
        if level < |env| && InFrame(env[level], offset, Contents()) {
          var id := env[level];
          frames := frames[id := frames[id][offset := v]];
          return Value(v);
        }
        return Raised(BadAddress);
      case Sym(s) =>
        if s in SPECIAL { return Raised(NotVariable); }
        if s in sealed { return Raised(ReadOnlyGlobal); }
        globals := globals[s := v];
        return Value(v);
      case _ => return Raised(NotVariable);
    }

    /** The frame's slots, each overwritten by the value of the form in it. */
    method EvalEach(forms: seq<Obj>, env: seq<nat>, n: nat) returns (o: Evaluated)
      modifies this
      ensures FinalAll(o, Contents()) == Run.EvalAll(forms, env, old(Contents()), n, prim)
      decreases n, 2, 0
    {
      var slots := forms;
      var i := 0;
      assert slots[..0] == [] && slots[0..] == forms;
      AfterNone(Run.EvalAll(forms, env, Contents(), n, prim));
      while i < |slots|
        invariant 0 <= i <= |slots| == |forms|
        invariant slots[i..] == forms[i..]
        invariant After(slots[..i], Run.EvalAll(slots[i..], env, Contents(), n, prim))
               == Run.EvalAll(forms, env, old(Contents()), n, prim)
      {
        ghost var before := Contents();
        var r := EvalOne(slots[i], env, n);
        SlotFails(slots, i, before, env, n, prim);
        match r {
          case Value(v) =>
            SlotDone(slots, i, v, before, Contents(), env, n, prim);
            slots := slots[i := v];
            i := i + 1;
          case Raised(e) => return RaisedIn(e);
          case Stopped => return StoppedIn;
        }
      }
      assert slots[..i] == slots && slots[i..] == [] && slots + [] == slots;
      return Values(slots);
    }

    method EvalApplication(x: Obj, env: seq<nat>, n: nat) returns (r: Outcome)
      requires x.Cell?
      modifies this
      ensures Final(r, Contents(), n, prim) == Run.EvalApplication(x, env, old(Contents()), n, prim)
      decreases n, 4
    {
      var arg := CdrCell(x);
      if arg.Err? { return Raised(arg.error); }
      if x.car.Sym? {
        r := if x.car.name in globals then Value(globals[x.car.name]) else Raised(UndefinedHead);
      } else {
        r := EvalOne(x.car, env, n);
      }
      if !r.Value? { return; }
      r := ApplyTo(r.v, arg.value, env, n);
    }

    /** `makeFrame`. */
    method FrameOf(arg: Obj, carity: int, keys: seq<string>) returns (r: Result<Supplied>)
      ensures r == MakeFrame(arg, carity, keys)
    {
      if keys == [] || |keys| > FixedArgs(carity) { return MakeFrame(arg, carity, keys); }
      var slots := MakeKeyedFrame(arg, FixedArgs(carity), keys);
      return if slots.Err? then Err(slots.error) else Ok(Supplied(slots.value, Nil));
    }

    /** The frame of a call: its arity is checked, then its slots are evaluated in place. */
    method EvalFrame(arg: Obj, carity: int, keys: seq<string>, env: seq<nat>, n: nat) returns (o: Evaluated)
      modifies this
      ensures FinalAll(o, Contents()) == Run.EvalArgs(arg, carity, keys, env, old(Contents()), n, prim)
      ensures o.Values? && Callable(arg, carity, keys) ==>
                Holds(o.vs, arg, carity, keys, old(Contents()), Contents(), Compiled(env, n, prim))
      decreases n, 2, 1
    {
      if Callable(arg, carity, keys) { CompiledArgs(arg, carity, keys, env, Contents(), n, prim); }
      var supplied := FrameOf(arg, carity, keys);
      if supplied.Err? { return RaisedIn(supplied.error); }
      o := EvalEach(supplied.value.fixed, env, n);
      if !o.Values? { return; }
      var rest := RestArgs(supplied.value.rest);
      if rest.Err? { return RaisedIn(rest.error); }
      var more := EvalEach(rest.value, env, n);
      if !more.Values? { return more; }
      return Values(Frame(o.vs, more.vs, carity));
    }

    method ApplyTo(fn: Obj, arg: Obj, env: seq<nat>, n: nat) returns (r: Outcome)
      modifies this
      ensures Final(r, Contents(), n, prim) == Run.Apply(fn, arg, env, old(Contents()), n, prim)
      decreases n, 3
    {
      if !fn.Closure? && !fn.Builtin? { return Raised(NotApplicable); }
      var args := EvalFrame(arg, fn.carity, fn.keys, env, n);
      match args
      case RaisedIn(e) => return Raised(e);
      case StoppedIn => return Stopped;
      case Values(frame) =>
        if fn.Builtin? {
          var v := prim(fn.fname, frame);
          return if v.Ok? then Value(v.value) else Raised(v.error);
        }
        var inner := [|frames|] + fn.env;
        frames := frames + [frame];
        r := EvalProgN(fn.body, inner, n);
    }

    /** A top-level form of the core language, run by the loop on compiled code, against the
        reference: same value with closures compiled, same exception, same globals and
        frames, and never an address outside the chain or a form the model leaves out. */
    method EvalTopLevel(form: Obj, ghost source: State, fuel: nat) returns (r: Outcome)
      requires Core(form) && Fine(form, []) && OkState(source) && Parametric(prim)
      requires Contents() == TState(source)
      modifies this
      ensures !r.Tail?
      ensures Final(r, Contents(), 0, prim) == TRes(Named.Eval(form, [], source, fuel, prim))
      ensures r.Raised? ==> OfSource(r.e)
    {
      TopLevel(form, source, fuel, prim);
      r := EvalGen(form, [], fuel);
    }
  }
}
