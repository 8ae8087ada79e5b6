/** What an evaluation reads and changes, and the parts of `evalGen` that do not depend on
    how a variable is found (`packages/interpreter/src/lisp.ts`, `func.ts`). */
module Store {
  import opened LispObjects

  datatype State = State(globals: map<string, Obj>, sealed: set<string>, frames: seq<seq<Obj>>)

  datatype Res<+T> = Done(v: T, st: State) | Threw(e: Fail, at: State) | OutOfFuel

  /** A builtin's body: the name it is called by and its frame. */
  type Prims = (string, seq<Obj>) -> Result<Obj>

  predicate HasRest(carity: int) {
    carity < 0
  }

  function FixedArgs(carity: int): nat {
    if carity < 0 then -carity - 1 else carity
  }

  /** The unevaluated arguments, split into the fixed ones and the rest. */
  datatype Supplied = Supplied(fixed: seq<Obj>, rest: Obj)

  function MakeFrame(arg: Obj, carity: int, keys: seq<string>): Result<Supplied> {
    if keys != [] then
      if |keys| > FixedArgs(carity) then Err(NotModelled)
      else match KeyedFrame(arg, FixedArgs(carity), keys)
        case Err(e) => Err(e)
        case Ok(slots) => Ok(Supplied(slots, Nil))
    else match TakeFixed(arg, FixedArgs(carity))
      case Err(e) => Err(if e == ArityNotMatched && !Proper(arg) then ProperListExpected else e)
      case Ok(s) =>
        if !s.rest.Nil? && !HasRest(carity) then
          Err(if Proper(arg) then ArityNotMatched else ProperListExpected)
        else Ok(s)
  }

  function TakeFixed(arg: Obj, n: nat): Result<Supplied> {
    if n == 0 then Ok(Supplied([], arg))
    else if !arg.Cell? then Err(ArityNotMatched)
    else match CdrCell(arg)
      case Err(e) => Err(e)
      case Ok(d) =>
        match TakeFixed(d, n - 1)
        case Err(e) => Err(e)
        case Ok(s) => Ok(Supplied([arg.car] + s.fixed, s.rest))
  }

  /** `keyedFrame`: what stands before the first keyword in order, then what follows each keyword;
      a slot that gets neither is nil. The last `|keys|` slots are the keywords'. */
  function KeyedFrame(arg: Obj, total: nat, keys: seq<string>): (r: Result<seq<Obj>>)
    requires |keys| <= total
    ensures r.Ok? ==> |r.value| == total
  {
    match TakeUnkeyed(arg, total)
    case Err(e) => Err(e)
    case Ok(s) => KeyedAfter(s, Proper(arg), total, keys)
  }

  /** The frame once what stands before the first keyword is in it. */
  function KeyedAfter(s: Supplied, proper: bool, total: nat, keys: seq<string>): (r: Result<seq<Obj>>)
    requires |keys| <= total && |s.fixed| <= total
    ensures r.Ok? ==> |r.value| == total
  {
    if Short(s, total - |keys|) then Err(if proper then ArityNotMatched else ProperListExpected)
    else FillKeyed(s.rest, total - |keys|, keys, Padded(s.fixed, total), Below(|s.fixed|))
  }

  /** Too few before the first keyword, or too many. */
  predicate Short(s: Supplied, required: nat) {
    |s.fixed| < required || !(s.rest.Nil? || (s.rest.Cell? && s.rest.car.Key?))
  }

  function TakeUnkeyed(arg: Obj, n: nat): (r: Result<Supplied>)
    ensures r.Ok? ==> |r.value.fixed| <= n
  {
    if n == 0 || !arg.Cell? || arg.car.Key? then Ok(Supplied([], arg))
    else match CdrCell(arg)
      case Err(e) => Err(e)
      case Ok(d) =>
        match TakeUnkeyed(d, n - 1)
        case Err(e) => Err(e)
        case Ok(s) => Ok(Supplied([arg.car] + s.fixed, s.rest))
  }

  function FillKeyed(arg: Obj, required: nat, keys: seq<string>, frame: seq<Obj>, taken: set<nat>)
      : (r: Result<seq<Obj>>)
    requires |frame| == required + |keys|
    ensures r.Ok? ==> |r.value| == |frame|
    decreases arg
  {
    if !arg.Cell? then Ok(frame)
    else if !arg.car.Key? then Err(KeywordExpected)
    else
      var at := IndexOf(keys, arg.car.k);
      if at == |keys| then Err(NoSuchKeyword)
      else match CdrCell(arg)
        case Err(e) => Err(e)
        case Ok(value) =>
          if value.Nil? then Err(KeywordWithoutValue)
          else if required + at in taken then Err(ArgumentTwice)
          else match CdrCell(value)
            case Err(e) => Err(e)
            case Ok(d) => FillKeyed(d, required, keys, frame[required + at := value.car], taken + {required + at})
  }

  /** The first place of a name, or the length of the list. */
  function IndexOf(keys: seq<string>, key: string): (at: nat)
    ensures at <= |keys| && (at < |keys| ==> keys[at] == key) && (at == |keys| <==> key !in keys)
  {
    if keys == [] || keys[0] == key then 0 else 1 + IndexOf(keys[1..], key)
  }

  function Padded(slots: seq<Obj>, total: nat): (r: seq<Obj>)
    requires |slots| <= total
    ensures |r| == total
  {
    slots + Nils(total - |slots|)
  }

  function Nils(n: nat): (r: seq<Obj>)
    ensures |r| == n
  {
    seq(n, i => Nil)
  }

  function Below(n: nat): set<nat> {
    if n == 0 then {} else Below(n - 1) + {n - 1}
  }

  /** What was taken so far, put before what is taken from the rest. */
  function WithTaken(done: seq<Obj>, r: Result<Supplied>): Result<Supplied> {
    match r
    case Err(e) => Err(e)
    case Ok(s) => Ok(Supplied(done + s.fixed, s.rest))
  }

  lemma TakenNone(r: Result<Supplied>)
    ensures WithTaken([], r) == r
  {
    if r.Ok? { assert [] + r.value.fixed == r.value.fixed; }
  }

  lemma Taken(done: seq<Obj>, x: Obj, r: Result<Supplied>)
    ensures WithTaken(done, WithTaken([x], r)) == WithTaken(done + [x], r)
  {
    if r.Ok? { assert done + ([x] + r.value.fixed) == done + [x] + r.value.fixed; }
  }

  /** `keyedFrame` as it is written: two loops over the arguments, and a set of the slots that have
      theirs. */
  method MakeKeyedFrame(arg: Obj, total: nat, keys: seq<string>) returns (r: Result<seq<Obj>>)
    requires |keys| <= total
    ensures r == KeyedFrame(arg, total, keys)
  {
    var frame: seq<Obj>, taken: set<nat>, rest, i := [], {}, arg, 0;
    TakenNone(TakeUnkeyed(arg, total));
    while i < total && rest.Cell? && !rest.car.Key?
      invariant i == |frame| <= total && taken == Below(i)
      invariant TakeUnkeyed(arg, total) == WithTaken(frame, TakeUnkeyed(rest, total - i))
    {
      var d := CdrCell(rest);
      if d.Err? { return Err(d.error); }
      ghost var others := TakeUnkeyed(d.value, total - i - 1);
      Taken(frame, rest.car, others);
      frame, taken, rest, i := frame + [rest.car], taken + {i}, d.value, i + 1;
    }
    assert TakeUnkeyed(rest, total - i) == Ok(Supplied([], rest)) && frame + [] == frame;
    assert KeyedFrame(arg, total, keys) == KeyedAfter(Supplied(frame, rest), Proper(arg), total, keys);
    var required := total - |keys|;
    if i < required || !(rest.Nil? || (rest.Cell? && rest.car.Key?)) {
      return Err(if Proper(arg) then ArityNotMatched else ProperListExpected);
    }
    frame := Padded(frame, total);
    while rest.Cell?
      invariant |frame| == total
      invariant FillKeyed(rest, required, keys, frame, taken) == KeyedFrame(arg, total, keys)
      decreases rest
    {
      if !rest.car.Key? { return Err(KeywordExpected); }
      var at := IndexOf(keys, rest.car.k);
      if at == |keys| { return Err(NoSuchKeyword); }
      var value := CdrCell(rest);
      if value.Err? { return Err(value.error); }
      if value.value.Nil? { return Err(KeywordWithoutValue); }
      if required + at in taken { return Err(ArgumentTwice); }
      var d := CdrCell(value.value);
      if d.Err? { return Err(d.error); }
      frame, taken, rest := frame[required + at := value.value.car], taken + {required + at}, d.value;
    }
    return Ok(frame);
  }

  /** Keywords may come in any order. */
  lemma KeywordsCommute(a: string, x: Obj, b: string, y: Obj, rest: Obj, required: nat, keys: seq<string>,
                        frame: seq<Obj>, taken: set<nat>)
    requires |frame| == required + |keys| && a != b && (rest.Cell? || rest.Nil?)
    ensures var one := FillKeyed(Given(a, x, Given(b, y, rest)), required, keys, frame, taken);
            one.Ok? ==> FillKeyed(Given(b, y, Given(a, x, rest)), required, keys, frame, taken) == one
  {
    var i, j := required + IndexOf(keys, a), required + IndexOf(keys, b);
    if a in keys && b in keys && i !in taken && j !in taken {
      GivenFilled(a, x, Given(b, y, rest), required, keys, frame, taken);
      GivenFilled(b, y, rest, required, keys, frame[i := x], taken + {i});
      GivenFilled(b, y, Given(a, x, rest), required, keys, frame, taken);
      GivenFilled(a, x, rest, required, keys, frame[j := y], taken + {j});
      assert i != j && frame[i := x][j := y] == frame[j := y][i := x];
      assert taken + {i} + {j} == taken + {j} + {i};
    }
  }

  function Given(key: string, value: Obj, rest: Obj): Obj {
    Cell(Key(key), Cell(value, rest))
  }

  lemma GivenFilled(key: string, value: Obj, rest: Obj, required: nat, keys: seq<string>, frame: seq<Obj>,
                    taken: set<nat>)
    requires |frame| == required + |keys| && (rest.Cell? || rest.Nil?)
    requires key in keys && required + IndexOf(keys, key) !in taken
    ensures var at := required + IndexOf(keys, key);
            FillKeyed(Given(key, value, rest), required, keys, frame, taken)
            == FillKeyed(rest, required, keys, frame[at := value], taken + {at})
  {
  }

  /** A keyword that is known and has nothing yet, and a value after it. */
  predicate Gives(arg: Obj, required: nat, keys: seq<string>, taken: set<nat>) {
    && arg.Cell? && arg.car.Key? && arg.cdr.Cell?
    && arg.car.k in keys && required + IndexOf(keys, arg.car.k) !in taken
  }

  function WhyNot(arg: Obj, keys: seq<string>): Fail
    requires arg.Cell?
  {
    if !arg.car.Key? then KeywordExpected
    else if arg.car.k !in keys then NoSuchKeyword
    else if arg.cdr.Nil? then KeywordWithoutValue
    else ArgumentTwice
  }

  lemma NotGiven(arg: Obj, required: nat, keys: seq<string>, frame: seq<Obj>, taken: set<nat>)
    requires |frame| == required + |keys| && arg.Cell? && (arg.cdr.Cell? || arg.cdr.Nil?)
    requires !Gives(arg, required, keys, taken)
    ensures FillKeyed(arg, required, keys, frame, taken) == Err(WhyNot(arg, keys))
  {
  }

  /** `copyRest`: the remaining arguments, which must be a proper list. */
  function RestArgs(rest: Obj): Result<seq<Obj>> {
    if rest.Nil? then Ok([])
    else if !rest.Cell? then Err(ProperListExpected)
    else match RestArgs(rest.cdr)
      case Err(e) => Err(e)
      case Ok(xs) => Ok([rest.car] + xs)
  }

  function Frame(fixed: seq<Obj>, rest: seq<Obj>, carity: int): seq<Obj> {
    if HasRest(carity) then fixed + [ToList(rest)] else fixed
  }

  function Global(s: string, st: State): Res<Obj> {
    if s in st.globals then Done(st.globals[s], st) else Threw(VoidVariable, st)
  }

  function SetGlobal(s: string, v: Obj, st: State): Res<Obj> {
    if s in SPECIAL then Threw(NotVariable, st)
    else if s in st.sealed then Threw(ReadOnlyGlobal, st)
    else Done(v, st.(globals := st.globals[s := v]))
  }

  predicate InFrame(id: nat, offset: nat, st: State) {
    id < |st.frames| && offset < |st.frames[id]|
  }

  function ReadSlot(id: nat, offset: nat, st: State): Res<Obj> {
    if InFrame(id, offset, st) then Done(st.frames[id][offset], st) else Threw(BadAddress, st)
  }

  function WriteSlot(id: nat, offset: nat, v: Obj, st: State): Res<Obj> {
    if InFrame(id, offset, st)
    then Done(v, st.(frames := st.frames[id := st.frames[id][offset := v]]))
    else Threw(BadAddress, st)
  }

  function PushFrame(frame: seq<Obj>, st: State): State {
    st.(frames := st.frames + [frame])
  }

  function CallBuiltin(name: string, frame: seq<Obj>, st: State, prim: Prims): Res<Obj> {
    match prim(name, frame)
    case Ok(v) => Done(v, st)
    case Err(e) => Threw(e, st)
  }

  // ----- what is written is what is read -----

  lemma SlotWritten(id: nat, offset: nat, v: Obj, st: State, j: nat, k: nat)
    ensures var r := WriteSlot(id, offset, v, st);
            if InFrame(id, offset, st) then
              && r.Done? && r.v == v && r.st.globals == st.globals && r.st.sealed == st.sealed
              && ReadSlot(id, offset, r.st) == Done(v, r.st)
              && (InFrame(j, k, r.st) <==> InFrame(j, k, st))
              && (InFrame(j, k, st) && (j, k) != (id, offset) ==> r.st.frames[j][k] == st.frames[j][k])
            else r == Threw(BadAddress, st)
  {
  }

  lemma GlobalWritten(s: string, v: Obj, st: State, other: string)
    ensures var r := SetGlobal(s, v, st);
            if s in SPECIAL then r == Threw(NotVariable, st)
            else if s in st.sealed then r == Threw(ReadOnlyGlobal, st)
            else
              && r.Done? && r.v == v && r.st.frames == st.frames && r.st.sealed == st.sealed
              && Global(s, r.st) == Done(v, r.st)
              && (other != s ==> (other in r.st.globals <==> other in st.globals))
              && (other != s && other in st.globals ==> r.st.globals[other] == st.globals[other])
  {
  }
}
