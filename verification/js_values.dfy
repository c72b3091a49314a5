/** The JavaScript values that form records hold once parsed back from
    storage, with the language's truthiness rule that the app's `||`, `!`
    and `Boolean(..)` rely on. */
module JsValues {

  /** A JavaScript value of the kinds form data holds: `undefined`, `null`,
      booleans, integers, strings and arrays. Only `undefined` has no JSON
      form; see `IsJson`. */
  datatype Value =
    | Undefined
    | Null
    | Bool(b: bool)
    | Num(n: int)
    | Str(s: string)
    | Arr(items: seq<Value>)

  /** A plain JavaScript object: property name to value. */
  type Object = map<string, Value>

  /** ToBoolean: `undefined`, `null`, `false`, `0` and `""` are falsy;
      everything else, including an empty array, is truthy. */
  predicate Truthy(v: Value) {
    match v
    case Undefined => false
    case Null => false
    case Bool(b) => b
    case Num(n) => n != 0
    case Str(s) => s != ""
    case Arr(_) => true
  }

  /** `a || b`: the first operand when it is truthy, otherwise the second. */
  function Or(a: Value, b: Value): Value {
    if Truthy(a) then a else b
  }

  /** Property access `o[key]`; a missing property reads as `undefined`. */
  function Get(o: Object, key: string): Value {
    if key in o then o[key] else Undefined
  }

  // JSON -----------------------------------------------------------------------

  /** A value JSON can carry: no `undefined` anywhere in it. */
  predicate IsJson(v: Value) {
    match v
    case Undefined => false
    case Arr(items) => forall i :: 0 <= i < |items| ==> IsJson(items[i])
    case _ => true
  }

  /** An object every property of which JSON can carry. */
  predicate IsJsonObject(o: Object) {
    forall k :: k in o ==> IsJson(o[k])
  }

  /** The properties of `o` that do not hold `undefined`. */
  function DefinedKeys(o: Object): set<string> {
    set k | k in o && o[k] != Undefined
  }

  /** `JSON.parse(JSON.stringify([v]))[0]`: a value written as an array
      element and read back. `undefined` turns into `null`, at any depth. */
  function JsonElement(v: Value): (r: Value)
    ensures IsJson(r)
    ensures IsJson(v) ==> r == v
    ensures v == Undefined ==> r == Null
    ensures v.Arr? <==> r.Arr?
    ensures v.Arr? ==> |r.items| == |v.items|
    ensures v.Arr? ==> forall i :: 0 <= i < |v.items| ==>
      && (v.items[i] == Undefined ==> r.items[i] == Null)
      && (IsJson(v.items[i]) ==> r.items[i] == v.items[i])
  {
    match v
    case Undefined => Null
    case Arr(items) =>
      var out := seq(|items|, i requires 0 <= i < |items| => JsonElement(items[i]));
      assert IsJson(v) ==> out == items;
      Arr(out)
    case _ => v
  }

  /** `JSON.parse(JSON.stringify(o))`: the object written as JSON text and
      read back. A property holding `undefined` is left out of the text, so
      it is gone; every other property comes back as its array-element
      reading. */
  function JsonObject(o: Object): (r: Object)
    ensures IsJsonObject(r)
    ensures r.Keys == DefinedKeys(o)
    ensures forall k :: k in r && IsJson(o[k]) ==> r[k] == o[k]
    ensures forall k :: k in r ==> r[k] == JsonElement(o[k])
  {
    map k | k in o && o[k] != Undefined :: JsonElement(o[k])
  }

  /** An object JSON can carry comes back from the round trip unchanged. */
  lemma JsonObjectKeepsJson(o: Object)
    requires IsJsonObject(o)
    ensures JsonObject(o) == o
  {
    assert forall k :: k in o ==> o[k] != Undefined;
    assert JsonObject(o).Keys == o.Keys;
  }

  /** Writing and reading back twice is the same as once. */
  lemma JsonObjectIdempotent(o: Object)
    ensures JsonObject(JsonObject(o)) == JsonObject(o)
  {
    JsonObjectKeepsJson(JsonObject(o));
  }
}
