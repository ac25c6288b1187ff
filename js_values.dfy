// The JSON values the example server's handlers receive, once express has
// parsed a request body, and the bits of JavaScript semantics the handlers
// rely on: truthiness, property access, `Array.isArray(x) ? x : [x]` and the
// string conversion of a template literal.

module JsValues {
  import opened Common

  /** A parsed JSON value. Numbers are integral; an object keeps its members in
      the order of the text, duplicates included. */
  datatype JsValue =
    | Undefined
    | Null
    | Bool(b: bool)
    | Num(n: int)
    | Str(s: string)
    | Arr(items: seq<JsValue>)
    | Obj(members: seq<(string, JsValue)>)

  /** JavaScript truthiness: undefined, null, false, 0 and "" are falsy; arrays
      and objects, even empty ones, are truthy. */
  predicate Truthy(v: JsValue) {
    match v
    case Undefined => false
    case Null => false
    case Bool(b) => b
    case Num(n) => n != 0
    case Str(s) => s != ""
    case Arr(_) => true
    case Obj(_) => true
  }

  /** Reading a property of an object: the last member with that key (a JSON
      object with a duplicate key keeps the later one), or undefined. */
  function Lookup(members: seq<(string, JsValue)>, key: string): (r: JsValue)
    ensures (forall i :: 0 <= i < |members| ==> members[i].0 != key) ==> r == Undefined
    ensures r != Undefined ==> exists i :: 0 <= i < |members| && members[i] == (key, r)
  {
    if |members| == 0 then Undefined
    else if members[|members| - 1].0 == key then members[|members| - 1].1
    else Lookup(members[..|members| - 1], key)
  }

  /** A later member with the same key hides every earlier one. */
  lemma LookupLastWins(members: seq<(string, JsValue)>, key: string, v: JsValue)
    ensures Lookup(members + [(key, v)], key) == v
  {
  }

  /** A member under another key does not change what a key reads. */
  lemma LookupOtherKey(members: seq<(string, JsValue)>, key: string, other: string, v: JsValue)
    requires other != key
    ensures Lookup(members + [(other, v)], key) == Lookup(members, key)
  {
    assert (members + [(other, v)])[..|members|] == members;
  }

  /** Destructuring a parameter (`{ Add, Remove, Clear }`) throws a TypeError on
      undefined and null; every other value can be destructured. */
  predicate Destructurable(v: JsValue) {
    !v.Undefined? && !v.Null?
  }

  /** `v.key` on a value that can be destructured: an object's member; strings,
      numbers, booleans and arrays have no such own property here. */
  function Property(v: JsValue, key: string): (r: JsValue)
    ensures !v.Obj? ==> r == Undefined
  {
    if v.Obj? then Lookup(v.members, key) else Undefined
  }

  /** `Array.isArray(v) ? v : [v]` */
  function ListOf(v: JsValue): (r: seq<JsValue>)
    ensures v.Arr? ==> r == v.items
    ensures !v.Arr? ==> r == [v]
  {
    if v.Arr? then v.items else [v]
  }

  /** Whether converting a parsed value to a string, as a template literal
      does, throws a TypeError. An object with an own "toString" member hides
      the callable one, and its `valueOf` gives back the object itself, so no
      primitive is found. An array converts each of its items, so it throws
      when one of them does. Other values convert. */
  predicate ToStringThrows(v: JsValue) {
    match v
    case Obj(members) => exists i :: 0 <= i < |members| && members[i].0 == "toString"
    case Arr(items) => exists i :: 0 <= i < |items| && ToStringThrows(items[i])
    case _ => false
  }

  /** What a truthy Add or Remove names: each item of an array, or the value
      itself; a falsy one names nothing. */
  function Named(v: JsValue): (r: set<JsValue>)
    ensures !Truthy(v) ==> r == {}
    ensures Truthy(v) ==> forall x :: x in r <==> x in ListOf(v)
  {
    if Truthy(v) then SetOf(ListOf(v)) else {}
  }
}
