/** The loops of `lispToJson` (`packages/interpreter/src/objects.ts`). */
module LispJson {
  import opened ExactJson

  /** The items of a list, or the complaint that it is dotted. */
  method ProperItems(list: Lisp) returns (r: Result<seq<Lisp>>)
    ensures r == if Proper(list) then Ok(Items(list)) else Err(Dotted)
  {
    var items, j := [], list;
    while j.Cell?
      invariant Proper(j) == Proper(list) && (Proper(list) ==> items + Items(j) == Items(list))
      decreases j
    {
      items := items + [j.car];
      j := j.cdr;
    }
    if j != Nil { return Err(Dotted); }
    assert items + Items(Nil) == items;
    return Ok(items);
  }

  /** `objectOf`: an object from entries, none of whose keys may come twice. */
  method ObjectFrom(entries: seq<Member>) returns (r: Result<Json>)
    ensures r == ObjectOf(Ok(entries))
  {
    var seen := {};
    for k := 0 to |entries|
      invariant Repeated(entries[k..], seen) == Repeated(entries, {})
    {
      if entries[k].key in seen { return Err(TwiceIn(entries[k].key)); }
      seen := seen + {entries[k].key};
      assert entries[k..][1..] == entries[k + 1..];
    }
    return Ok(Object(entries));
  }

  /** What was converted before, in front of the rest. */
  function Prepend<T>(done: seq<T>, rest: Result<seq<T>>): Result<seq<T>> {
    match rest case Ok(more) => Ok(done + more) case Err(e) => Err(e)
  }

  lemma PrependNone<T>(rest: Result<seq<T>>)
    ensures Prepend([], rest) == rest
  {
    if rest.Ok? { assert [] + rest.value == rest.value; }
  }

  lemma PrependOne<T>(done: seq<T>, one: T, rest: Result<seq<T>>)
    ensures Prepend(done, Prepend([one], rest)) == Prepend(done + [one], rest)
  {
    if rest.Ok? { assert done + ([one] + rest.value) == done + [one] + rest.value; }
  }

  /** `y` is what is left of `x`. */
  ghost predicate Within(y: Lisp, x: Lisp) {
    y == x || y < x
  }

  /** `lispToJson`. */
  method LispToJson(x: Lisp) returns (r: Result<Json>)
    ensures r == ToJson(x)
    decreases x, 2
  {
    if x == Nil { return Ok(Null); }
    if x == True { return Ok(Bool(true)); }
    if x.Str? { return Ok(String(x.s)); }
    if x.Num? { return Ok(Number(x.n)); }
    if x.Big? {
      if x.i < -MAX_SAFE_INTEGER || x.i > MAX_SAFE_INTEGER { return Err(TooLarge); }
      return Ok(Number(x.i as real));
    }
    if x == JSON_FALSE { return Ok(Bool(false)); }
    if x == EMPTY_ARRAY { return Ok(Array([])); }
    if x == EMPTY_OBJECT { return Ok(Object([])); }
    if x.Key? { return Ok(String(x.name)); }
    if !x.Cell? { return Err(NotJson); }
    var proper := ProperItems(x);
    if proper.Err? { return Err(proper.error); }
    var items := proper.value;
    if items[0] == EMPTY_ARRAY {
      var js := ConvertEach(items[1..], x.cdr, x);
      return ArrayOf(js);
    }
    if IsPlist(items) {
      var ms := ConvertPlist(items, x);
      if ms.Err? { return Err(ms.error); }
      r := ObjectFrom(ms.value);
      return;
    }
    if IsAlist(items) {
      var ms := ConvertAlist(items, x);
      if ms.Err? { return Err(ms.error); }
      r := ObjectFrom(ms.value);
      return;
    }
    var js := ConvertEach(items, x, x);
    return ArrayOf(js);
  }

  method ConvertEach(items: seq<Lisp>, ghost list: Lisp, ghost x: Lisp) returns (r: Result<seq<Json>>)
    requires Proper(list) && Items(list) == items && Within(list, x)
    ensures r == EachToJson(list)
    decreases x, 1
  {
    var js: seq<Json> := [];
    ghost var y := list;
    PrependNone(EachToJson(y));
    for k := 0 to |items|
      invariant Proper(y) && Items(y) == items[k..] && Within(y, x)
      invariant EachToJson(list) == Prepend(js, EachToJson(y))
    {
      NextOne(y, items, k);
      var j := LispToJson(items[k]);
      if j.Err? { return Err(j.error); }
      PrependOne(js, j.value, EachToJson(y.cdr));
      js := js + [j.value];
      y := y.cdr;
    }
    assert js + [] == js;
    return Ok(js);
  }

  /** What is left of a list and what is left of its items. */
  lemma NextOne(y: Lisp, items: seq<Lisp>, i: nat)
    requires i < |items| && Proper(y) && Items(y) == items[i..]
    ensures y.Cell? && Proper(y.cdr) && y.car == items[i] && Items(y.cdr) == items[i + 1..]
  {
    assert Items(y)[0] == items[i] && Items(y)[1..] == items[i..][1..] == items[i + 1..];
  }

  lemma NextTwo(y: Lisp, items: seq<Lisp>, i: nat)
    requires i + 1 < |items| && Proper(y) && Items(y) == items[i..]
    ensures y.Cell? && y.cdr.Cell? && Proper(y.cdr.cdr)
    ensures y.car == items[i] && y.cdr.car == items[i + 1] && Items(y.cdr.cdr) == items[i + 2..]
  {
    NextOne(y, items, i);
    NextOne(y.cdr, items, i + 1);
  }

  lemma KeyFirst(items: seq<Lisp>, pair: nat)
    requires IsPlist(items) && 2 * pair < |items|
    ensures 2 * pair + 1 < |items| && items[2 * pair].Key?
  {
    assert 2 * pair % 2 == 0;
  }

  lemma PlistStep(ms: seq<Member>, y: Lisp)
    requires y.Cell? && y.car.Key? && y.cdr.Cell?
    ensures Prepend(ms, PlistToJson(y))
         == match ToJson(y.cdr.car)
            case Ok(j) => Prepend(ms + [Member(y.car.name, j)], PlistToJson(y.cdr.cdr))
            case Err(e) => Err(e)
  {
    var j := ToJson(y.cdr.car);
    if j.Ok? { PrependOne(ms, Member(y.car.name, j.value), PlistToJson(y.cdr.cdr)); }
  }

  method ConvertPlist(items: seq<Lisp>, ghost x: Lisp) returns (r: Result<seq<Member>>)
    requires Proper(x) && Items(x) == items && IsPlist(items)
    ensures r == PlistToJson(x)
    decreases x, 1
  {
    var ms: seq<Member>, i := [], 0;
    ghost var y, pairs := x, 0;
    PrependNone(PlistToJson(y));
    while i < |items|
      invariant i == 2 * pairs <= |items| && Proper(y) && Items(y) == items[i..] && Within(y, x)
      invariant PlistToJson(x) == Prepend(ms, PlistToJson(y))
    {
      KeyFirst(items, pairs);
      NextTwo(y, items, i);
      var j := LispToJson(items[i + 1]);
      PlistStep(ms, y);
      if j.Err? { return Err(j.error); }
      ms := ms + [Member(items[i].name, j.value)];
      y, pairs := y.cdr.cdr, pairs + 1;
      i := i + 2;
    }
    assert ms + [] == ms;
    return Ok(ms);
  }

  method ConvertAlist(items: seq<Lisp>, ghost x: Lisp) returns (r: Result<seq<Member>>)
    requires Proper(x) && Items(x) == items && IsAlist(items)
    ensures r == AlistToJson(x)
    decreases x, 1
  {
    var ms: seq<Member> := [];
    ghost var y := x;
    PrependNone(AlistToJson(y));
    for k := 0 to |items|
      invariant Proper(y) && Items(y) == items[k..] && Within(y, x)
      invariant AlistToJson(x) == Prepend(ms, AlistToJson(y))
    {
      NextOne(y, items, k);
      var j := LispToJson(items[k].cdr);
      if j.Err? { return Err(j.error); }
      PrependOne(ms, Member(items[k].car.s, j.value), AlistToJson(y.cdr));
      ms := ms + [Member(items[k].car.s, j.value)];
      y := y.cdr;
    }
    assert ms + [] == ms;
    return Ok(ms);
  }
}
