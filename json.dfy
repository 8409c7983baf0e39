/** The parsed state log as a JSON value, and the JavaScript readings the viewers
    apply to it: optional property access, truthiness, `typeof`, `Object.entries`,
    `Object.values`, strict equality and `String(value)`. */
module Json {
  import opened Text

  /** A JavaScript value that may be `undefined` (None). */
  datatype Option<+T> = None | Some(value: T)

  /** A value produced by `JSON.parse`. Objects keep their members in insertion order. */
  datatype Value =
    | Null
    | Bool(b: bool)
    | Num(n: int)
    | Str(s: string)
    | Arr(items: seq<Value>)
    | Obj(members: seq<(string, Value)>)

  /** The value bound to `key` in an object's members or a keyed table: the first
      binding. `JSON.parse` keeps the last binding of a repeated key instead; the
      two agree on members without repeated keys (LookupDistinct). */
  function Lookup<V>(members: seq<(string, V)>, key: string): (r: Option<V>)
    ensures r.Some? <==> exists i :: 0 <= i < |members| && members[i].0 == key
    ensures r.Some? ==> (key, r.value) in members
  {
    if members == [] then None
    else if members[0].0 == key then Some(members[0].1)
    else Lookup(members[1..], key)
  }

  /** The first binding of a key is the one looked up. */
  lemma {:induction false} LookupFirst<V>(members: seq<(string, V)>, i: nat)
    requires i < |members|
    requires forall j | 0 <= j < i :: members[j].0 != members[i].0
    ensures Lookup(members, members[i].0) == Some(members[i].1)
    decreases i
  {
    if i > 0 {
      var rest := members[1..];
      assert rest[i - 1] == members[i];
      forall j | 0 <= j < i - 1 ensures rest[j].0 != rest[i - 1].0 {
        assert rest[j] == members[j + 1];
      }
      LookupFirst(rest, i - 1);
    }
  }

  /** No key is bound twice, as in every object `JSON.stringify` writes. */
  ghost predicate DistinctKeys<V>(members: seq<(string, V)>)
  {
    forall i, j | 0 <= i < j < |members| :: members[i].0 != members[j].0
  }

  /** Without repeated keys every binding is the one looked up, so the first binding
      is also the last one. */
  lemma LookupDistinct<V>(members: seq<(string, V)>, i: nat)
    requires i < |members| && DistinctKeys(members)
    ensures Lookup(members, members[i].0) == Some(members[i].1)
  {
    LookupFirst(members, i);
  }

  /** A property every bound value has holds for the value looked up. */
  lemma {:induction false} LookupHas<V>(members: seq<(string, V)>, key: string, p: V -> bool)
    requires forall i | 0 <= i < |members| :: p(members[i].1)
    ensures Lookup(members, key).Some? ==> p(Lookup(members, key).value)
    decreases |members|
  {
    if members != [] && members[0].0 != key {
      var rest := members[1..];
      forall i | 0 <= i < |rest| ensures p(rest[i].1) {
        assert rest[i] == members[i + 1];
      }
      LookupHas(rest, key, p);
    }
  }

  /** `v?.[key]`: a property of an object; anything else yields `undefined`. */
  function Get(v: Option<Value>, key: string): (r: Option<Value>)
    ensures r.Some? ==> v.Some? && v.value.Obj? && (key, r.value) in v.value.members
  {
    if v.Some? && v.value.Obj? then Lookup(v.value.members, key) else None
  }

  /** `v?.k1?.k2?....`: a chain of optional property reads. */
  function Path(v: Option<Value>, keys: seq<string>): Option<Value>
    decreases |keys|
  {
    if keys == [] then v else Path(Get(v, keys[0]), keys[1..])
  }

  /** Reading along any path from `undefined` yields `undefined`. */
  lemma {:induction false} PathOfNone(keys: seq<string>)
    ensures Path(None, keys) == None
    decreases |keys|
  {
    if keys != [] {
      PathOfNone(keys[1..]);
    }
  }

  /** JavaScript truthiness; `undefined`, null, false, 0 and "" are falsy. */
  predicate Truthy(v: Option<Value>)
  {
    match v
    case None => false
    case Some(Null) => false
    case Some(Bool(b)) => b
    case Some(Num(n)) => n != 0
    case Some(Str(s)) => s != ""
    case Some(_) => true
  }

  /** `typeof v === 'object'` for a truthy v: an array or an object. */
  predicate IsContainer(v: Option<Value>)
  {
    v.Some? && (v.value.Arr? || v.value.Obj?)
  }

  /** `Object.entries(v)`: object members, array elements or string characters under
      their index keys, and nothing for numbers, booleans, null and `undefined`. */
  function Entries(v: Option<Value>): (r: seq<(string, Value)>)
    ensures v.Some? && v.value.Obj? ==> r == v.value.members
    ensures v.Some? && v.value.Arr? ==> |r| == |v.value.items|
    ensures !Truthy(v) ==> r == []
  {
    match v
    case Some(Obj(members)) => members
    case Some(Arr(items)) => seq(|items|, i requires 0 <= i < |items| => (NatToString(i), items[i]))
    case Some(Str(s)) => seq(|s|, i requires 0 <= i < |s| => (NatToString(i), Str([s[i]])))
    case _ => []
  }

  /** `Object.values(v)`. */
  function Values(v: Option<Value>): (r: seq<Value>)
    ensures |r| == |Entries(v)|
    ensures forall i | 0 <= i < |r| :: r[i] == Entries(v)[i].1
  {
    var es := Entries(v);
    seq(|es|, i requires 0 <= i < |es| => es[i].1)
  }

  /** `a === b`: primitives compare by value; two arrays or objects read from a parsed
      document are distinct references and never compare equal. */
  predicate StrictEq(a: Option<Value>, b: Option<Value>)
  {
    match (a, b)
    case (None, None) => true
    case (Some(Null), Some(Null)) => true
    case (Some(Bool(x)), Some(Bool(y))) => x == y
    case (Some(Num(x)), Some(Num(y))) => x == y
    case (Some(Str(x)), Some(Str(y))) => x == y
    case _ => false
  }

  /** The numeric value of a field, or `dflt` when it is absent or not a number. */
  function NumOr(v: Option<Value>, dflt: int): (r: int)
    ensures v.Some? && v.value.Num? ==> r == v.value.n
    ensures !(v.Some? && v.value.Num?) ==> r == dflt
  {
    if v.Some? && v.value.Num? then v.value.n else dflt
  }

  /** `v || dflt`: the value itself when it is truthy, else the default. */
  function OrElse(v: Option<Value>, dflt: Value): (r: Value)
    ensures Truthy(v) ==> Some(r) == v
    ensures !Truthy(v) ==> r == dflt
  {
    if Truthy(v) then v.value else dflt
  }

  /** `field?.toLowerCase().includes(term)` for a string field; a missing or
      non-string field never matches. */
  predicate StrIncludes(field: Option<Value>, term: string)
  {
    field.Some? && field.value.Str? && Contains(Lower(field.value.s), term)
  }

  /** `String(v)` for a defined value; arrays render through `join(",")`. */
  function JsString(v: Value): string
  {
    match v
    case Null => "null"
    case Bool(b) => if b then "true" else "false"
    case Num(n) => IntToString(n)
    case Str(s) => s
    case Arr(items) => JoinValues(items, ",")
    case Obj(_) => "[object Object]"
  }

  /** `items.join(sep)`: null elements render as the empty string. */
  function JoinValues(items: seq<Value>, sep: string): (r: string)
    ensures (forall i | 0 <= i < |items| :: items[i].Str?) ==>
              r == Join(seq(|items|, i requires 0 <= i < |items| => items[i].s), sep)
    decreases items
  {
    if items == [] then ""
    else
      var head := if items[0].Null? then "" else JsString(items[0]);
      if |items| == 1 then head
      else
        var rest := items[1..];
        assert (forall i | 0 <= i < |items| :: items[i].Str?) ==>
          seq(|items|, i requires 0 <= i < |items| => items[i].s)[1..]
            == seq(|rest|, i requires 0 <= i < |rest| => rest[i].s);
        head + sep + JoinValues(rest, sep)
  }
}
