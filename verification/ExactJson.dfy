/** JSON as Lisp data and back (`packages/interpreter/src/objects.ts`). */
module ExactJson {
  import opened Wrappers

  /** A JSON value as section 3 of RFC 8259 has it; numbers are finite, and an object's members
      keep their order. */
  datatype Json =
    | Null
    | Bool(b: bool)
    | Number(n: real)
    | String(s: string)
    | Array(items: seq<Json>)
    | Object(members: seq<Member>)

  datatype Member = Member(key: string, value: Json)

  /** The Lisp values that conversion tells apart. `NotFinite` stands for the numbers JSON has
      no form for, `Other` for symbols, functions and the like. */
  datatype Lisp =
    | Nil
    | True
    | Num(n: real)
    | NotFinite
    | Big(i: int)
    | Str(s: string)
    | Key(name: string)
    | Other
    | Cell(car: Lisp, cdr: Lisp)

  datatype Trouble = Dotted | TwiceIn(key: string) | NotJson | TooLarge

  datatype Result<+T> = Ok(value: T) | Err(error: Trouble)

  const JSON_FALSE := Key("false")
  const EMPTY_ARRAY := Key("[]")
  const EMPTY_OBJECT := Key("{}")

  const MAX_SAFE_INTEGER := 9007199254740991

  // ----- JSON to Lisp -----

  function ToList(items: seq<Lisp>): (list: Lisp)
    ensures Proper(list) && Items(list) == items
  {
    if items == [] then Nil
    else
      assert items == [items[0]] + items[1..];
      Cell(items[0], ToList(items[1..]))
  }

  predicate Proper(x: Lisp) {
    x.Nil? || (x.Cell? && Proper(x.cdr))
  }

  function Items(x: Lisp): (items: seq<Lisp>)
    requires Proper(x)
    ensures items == [] <==> x.Nil?
  {
    if x.Nil? then [] else [x.car] + Items(x.cdr)
  }

  predicate IsPlist(items: seq<Lisp>) {
    |items| % 2 == 0 && forall i | 0 <= i < |items| :: i % 2 == 1 || items[i].Key?
  }

  predicate IsAlist(items: seq<Lisp>) {
    forall i | 0 <= i < |items| :: items[i].Cell? && items[i].car.Str?
  }

  predicate WritesAsArray(items: seq<Lisp>)
    requires items != []
  {
    items[0] != EMPTY_ARRAY && !IsPlist(items) && !IsAlist(items)
  }

  function FromJson(j: Json): Lisp
    decreases j
  {
    match j
    case Null => Nil
    case Bool(b) => if b then True else JSON_FALSE
    case Number(n) => Num(n)
    case String(s) => Str(s)
    case Array(items) =>
      if items == [] then EMPTY_ARRAY
      else
        var list := FromItems(items);
        if WritesAsArray(list) then ToList(list) else Cell(EMPTY_ARRAY, ToList(list))
    case Object(members) => if members == [] then EMPTY_OBJECT else FromMembers(members)
  }

  function FromItems(items: seq<Json>): (r: seq<Lisp>)
    ensures |r| == |items|
    decreases items
  {
    seq(|items|, i requires 0 <= i < |items| => FromJson(items[i]))
  }

  function FromMembers(members: seq<Member>): (r: Lisp)
    ensures Proper(r) && (members != [] ==> r.Cell?)
    decreases members
  {
    if members == [] then Nil
    else Cell(Cell(Str(members[0].key), FromJson(members[0].value)), FromMembers(members[1..]))
  }

  // ----- Lisp to JSON -----

  function ToJson(x: Lisp): Result<Json>
    decreases x, 1
  {
    match x
    case Nil => Ok(Null)
    case True => Ok(Bool(true))
    case Str(s) => Ok(String(s))
    case Num(n) => Ok(Number(n))
    case NotFinite => Err(NotJson)
    case Big(i) => if -MAX_SAFE_INTEGER <= i <= MAX_SAFE_INTEGER then Ok(Number(i as real)) else Err(TooLarge)
    case Key(name) =>
      if x == JSON_FALSE then Ok(Bool(false))
      else if x == EMPTY_ARRAY then Ok(Array([]))
      else if x == EMPTY_OBJECT then Ok(Object([]))
      else Ok(String(name))
    case Other => Err(NotJson)
    case Cell(car, cdr) =>
      if !Proper(x) then Err(Dotted)
      else if car == EMPTY_ARRAY then ArrayOf(EachToJson(cdr))
      else if IsPlist(Items(x)) then ObjectOf(PlistToJson(x))
      else if IsAlist(Items(x)) then ObjectOf(AlistToJson(x))
      else ArrayOf(EachToJson(x))
  }

  function ArrayOf(items: Result<seq<Json>>): Result<Json> {
    match items case Ok(js) => Ok(Array(js)) case Err(e) => Err(e)
  }

  /** The first key that an earlier member has too. */
  function Repeated(members: seq<Member>, seen: set<string>): Option<string>
    decreases |members|
  {
    if members == [] then None
    else if members[0].key in seen then Some(members[0].key)
    else Repeated(members[1..], seen + {members[0].key})
  }

  function ObjectOf(members: Result<seq<Member>>): Result<Json> {
    match members
    case Err(e) => Err(e)
    case Ok(ms) => if Repeated(ms, {}).Some? then Err(TwiceIn(Repeated(ms, {}).value)) else Ok(Object(ms))
  }

  function EachToJson(x: Lisp): Result<seq<Json>>
    decreases x, 0
  {
    if !x.Cell? then Ok([])
    else
      match ToJson(x.car)
      case Err(e) => Err(e)
      case Ok(j) => (match EachToJson(x.cdr) case Err(e) => Err(e) case Ok(js) => Ok([j] + js))
  }

  /** Keys and values in turn. */
  function PlistToJson(x: Lisp): Result<seq<Member>>
    decreases x, 0
  {
    if !x.Cell? || !x.car.Key? || !x.cdr.Cell? then Ok([])
    else
      match ToJson(x.cdr.car)
      case Err(e) => Err(e)
      case Ok(j) => (match PlistToJson(x.cdr.cdr) case Err(e) => Err(e) case Ok(ms) => Ok([Member(x.car.name, j)] + ms))
  }

  /** Pairs of a string and a value. */
  function AlistToJson(x: Lisp): Result<seq<Member>>
    decreases x, 0
  {
    if !x.Cell? || !x.car.Cell? || !x.car.car.Str? then Ok([])
    else
      match ToJson(x.car.cdr)
      case Err(e) => Err(e)
      case Ok(j) => (match AlistToJson(x.cdr) case Err(e) => Err(e) case Ok(ms) => Ok([Member(x.car.car.s, j)] + ms))
  }

  // ----- the round trip -----

  predicate UniqueKeys(j: Json)
    decreases j
  {
    match j
    case Array(items) => forall i | 0 <= i < |items| :: UniqueKeys(items[i])
    case Object(members) =>
      && (forall i | 0 <= i < |members| :: UniqueKeys(members[i].value))
      && (forall i, k | 0 <= i < k < |members| :: members[i].key != members[k].key)
    case _ => true
  }

  lemma {:induction false} NoneRepeated(members: seq<Member>, seen: set<string>)
    requires forall i, k | 0 <= i < k < |members| :: members[i].key != members[k].key
    requires forall i | 0 <= i < |members| :: members[i].key !in seen
    ensures Repeated(members, seen) == None
    decreases |members|
  {
    if members != [] { NoneRepeated(members[1..], seen + {members[0].key}); }
  }

  lemma {:induction false} MembersBack(members: seq<Member>)
    requires forall i | 0 <= i < |members| :: UniqueKeys(members[i].value)
    ensures AlistToJson(FromMembers(members)) == Ok(members)
    ensures IsAlist(Items(FromMembers(members)))
    decreases members
  {
    if members != [] {
      RoundTrip(members[0].value);
      MembersBack(members[1..]);
      assert [members[0]] + members[1..] == members;
    }
  }

  lemma {:induction false} EachBack(items: seq<Json>, list: seq<Lisp>)
    requires |items| == |list|
    requires forall i | 0 <= i < |items| :: ToJson(list[i]) == Ok(items[i])
    ensures EachToJson(ToList(list)) == Ok(items)
    decreases |items|
  {
    if items != [] {
      EachBack(items[1..], list[1..]);
      assert [items[0]] + items[1..] == items;
    }
  }

  /** Every JSON value comes back unchanged. */
  lemma {:induction false} RoundTrip(j: Json)
    requires UniqueKeys(j)
    ensures ToJson(FromJson(j)) == Ok(j)
    decreases j
  {
    match j
    case Array(items) =>
      if items != [] {
        forall i | 0 <= i < |items| ensures ToJson(FromItems(items)[i]) == Ok(items[i]) { RoundTrip(items[i]); }
        EachBack(items, FromItems(items));
      }
    case Object(members) =>
      if members != [] {
        MembersBack(members);
        assert !Items(FromMembers(members))[0].Key?;
        NoneRepeated(members, {});
      }
    case _ =>
  }

  /** An array is tagged exactly when its plain list would be misread. */
  lemma TaggedExactlyWhenMisread(items: seq<Json>)
    requires items != [] && UniqueKeys(Array(items))
    ensures FromJson(Array(items)) == Cell(EMPTY_ARRAY, ToList(FromItems(items))) <==>
            ToJson(ToList(FromItems(items))) != Ok(Array(items))
  {
    var list := FromItems(items);
    forall i | 0 <= i < |items| ensures ToJson(list[i]) == Ok(items[i]) { RoundTrip(items[i]); }
    EachBack(items, list);
    if list[0] == EMPTY_ARRAY {
      EachBack(items[1..], list[1..]);
    }
  }

  lemma {:induction false} NoneRepeatedUnique(members: seq<Member>, seen: set<string>)
    requires Repeated(members, seen) == None
    ensures forall i | 0 <= i < |members| :: members[i].key !in seen
    ensures forall i, k | 0 <= i < k < |members| :: members[i].key != members[k].key
    decreases |members|
  {
    if members != [] {
      NoneRepeatedUnique(members[1..], seen + {members[0].key});
      forall i | 0 <= i < |members| ensures members[i].key !in seen {
        if i > 0 { assert members[1..][i - 1] == members[i]; }
      }
      forall i, k | 0 <= i < k < |members| ensures members[i].key != members[k].key {
        assert members[1..][k - 1] == members[k];
        if i > 0 { assert members[1..][i - 1] == members[i]; }
      }
    }
  }

  lemma {:induction false} EachUnique(x: Lisp)
    ensures EachToJson(x).Ok? ==> forall i | 0 <= i < |EachToJson(x).value| :: UniqueKeys(EachToJson(x).value[i])
    decreases x, 0
  {
    if x.Cell? {
      WrittenUnique(x.car);
      EachUnique(x.cdr);
    }
  }

  lemma {:induction false} PlistUnique(x: Lisp)
    ensures PlistToJson(x).Ok? ==>
              forall i | 0 <= i < |PlistToJson(x).value| :: UniqueKeys(PlistToJson(x).value[i].value)
    decreases x, 0
  {
    if x.Cell? && x.cdr.Cell? {
      WrittenUnique(x.cdr.car);
      PlistUnique(x.cdr.cdr);
    }
  }

  lemma {:induction false} AlistUnique(x: Lisp)
    ensures AlistToJson(x).Ok? ==>
              forall i | 0 <= i < |AlistToJson(x).value| :: UniqueKeys(AlistToJson(x).value[i].value)
    decreases x, 0
  {
    if x.Cell? && x.car.Cell? {
      WrittenUnique(x.car.cdr);
      AlistUnique(x.cdr);
    }
  }

  /** Whatever is written has no key twice in one object. */
  lemma {:induction false} WrittenUnique(x: Lisp)
    ensures ToJson(x).Ok? ==> UniqueKeys(ToJson(x).value)
    decreases x, 1
  {
    if x.Cell? && ToJson(x).Ok? {
      if x.car == EMPTY_ARRAY {
        EachUnique(x.cdr);
      } else if IsPlist(Items(x)) {
        PlistUnique(x);
        NoneRepeatedUnique(PlistToJson(x).value, {});
      } else if IsAlist(Items(x)) {
        AlistUnique(x);
        NoneRepeatedUnique(AlistToJson(x).value, {});
      } else {
        EachUnique(x);
      }
    }
  }

  /** Any Lisp value that JSON can hold settles after one trip: reading what was written and
      writing it again gives the same JSON, however the value spelled it. */
  lemma WriteReadWrite(x: Lisp)
    requires ToJson(x).Ok?
    ensures ToJson(FromJson(ToJson(x).value)) == ToJson(x)
  {
    WrittenUnique(x);
    RoundTrip(ToJson(x).value);
  }

  // ----- what is written -----

  predicate WritesItems(items: seq<Lisp>, js: seq<Json>) {
    |js| == |items| && forall i | 0 <= i < |items| :: ToJson(items[i]) == Ok(js[i])
  }

  predicate WritesPairs(items: seq<Lisp>, ms: seq<Member>) {
    && |items| == 2 * |ms|
    && forall i | 0 <= i < |ms| :: WritesPair(items[2 * i], items[2 * i + 1], ms[i])
  }

  predicate WritesPair(key: Lisp, value: Lisp, m: Member) {
    key.Key? && m.key == key.name && ToJson(value) == Ok(m.value)
  }

  predicate WritesEntries(items: seq<Lisp>, ms: seq<Member>) {
    |ms| == |items| && forall i | 0 <= i < |items| :: WritesEntry(items[i], ms[i])
  }

  predicate WritesEntry(entry: Lisp, m: Member) {
    entry.Cell? && entry.car.Str? && m.key == entry.car.s && ToJson(entry.cdr) == Ok(m.value)
  }

  lemma {:induction false} EachWritten(x: Lisp)
    requires Proper(x) && EachToJson(x).Ok?
    ensures WritesItems(Items(x), EachToJson(x).value)
    decreases x
  {
    if x.Cell? { EachWritten(x.cdr); }
  }

  lemma {:induction false} PlistWritten(x: Lisp)
    requires Proper(x) && IsPlist(Items(x)) && PlistToJson(x).Ok?
    ensures WritesPairs(Items(x), PlistToJson(x).value)
    decreases x
  {
    if x.Cell? {
      assert Items(x)[0].Key? && |Items(x)| >= 2;
      var rest := x.cdr.cdr;
      assert Items(x) == [x.car, x.cdr.car] + Items(rest);
      assert IsPlist(Items(rest)) by {
        assert forall i | 0 <= i < |Items(rest)| :: Items(rest)[i] == Items(x)[i + 2];
      }
      PlistWritten(rest);
      PairsCons(x.car, x.cdr.car, Items(rest), PlistToJson(x).value);
    }
  }

  lemma PairsCons(key: Lisp, value: Lisp, items: seq<Lisp>, ms: seq<Member>)
    requires ms != [] && WritesPair(key, value, ms[0]) && WritesPairs(items, ms[1..])
    ensures WritesPairs([key, value] + items, ms)
  {
    var all := [key, value] + items;
    forall i | 0 <= i < |ms| ensures WritesPair(all[2 * i], all[2 * i + 1], ms[i]) {
      if i > 0 {
        assert all[2 * i] == items[2 * (i - 1)] && all[2 * i + 1] == items[2 * (i - 1) + 1] && ms[i] == ms[1..][i - 1];
      }
    }
  }

  lemma {:induction false} AlistWritten(x: Lisp)
    requires Proper(x) && IsAlist(Items(x)) && AlistToJson(x).Ok?
    ensures WritesEntries(Items(x), AlistToJson(x).value)
    decreases x
  {
    if x.Cell? {
      assert Items(x)[0] == x.car;
      assert IsAlist(Items(x.cdr)) by {
        assert forall i | 0 <= i < |Items(x.cdr)| :: Items(x.cdr)[i] == Items(x)[i + 1];
      }
      AlistWritten(x.cdr);
    }
  }

  /** A list that is written is proper. Tagged, it is the array of its other items; a plist is the
      object of its keywords' names and what follows each, an alist that of its pairs, both in
      order; any other list is the array of its items. */
  lemma ListWritten(x: Lisp)
    requires x.Cell? && ToJson(x).Ok?
    ensures Proper(x)
    ensures var items, j := Items(x), ToJson(x).value;
            if items[0] == Key("[]") then j.Array? && WritesItems(items[1..], j.items)
            else if IsPlist(items) then j.Object? && WritesPairs(items, j.members)
            else if IsAlist(items) then j.Object? && WritesEntries(items, j.members)
            else j.Array? && WritesItems(items, j.items)
  {
    if x.car == EMPTY_ARRAY {
      EachWritten(x.cdr);
    } else if IsPlist(Items(x)) {
      PlistWritten(x);
    } else if IsAlist(Items(x)) {
      AlistWritten(x);
    } else {
      EachWritten(x);
    }
  }
}
