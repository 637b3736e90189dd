/**
 * JavaScript values as they come out of `JSON.parse` and go into object
 * literals: null, booleans, integral numbers, strings, arrays and objects.
 * A property that is not there (`undefined`) is `None` where a property is read.
 */
module JsValue {
  import opened Options
  import opened JsString

  datatype Json =
    | JNull
    | JBool(b: bool)
    | JNum(n: int)
    | JStr(s: string)
    | JArr(items: seq<Json>)
    | JObj(fields: map<string, Json>)

  /** JavaScript truthiness: null, false, 0 and "" are falsy, arrays and objects are truthy. */
  predicate Truthy(v: Json) {
    match v
    case JNull => false
    case JBool(b) => b
    case JNum(n) => n != 0
    case JStr(s) => s != ""
    case JArr(_) => true
    case JObj(_) => true
  }

  /** Truthiness of a property read that may be `undefined`. */
  predicate Present(p: Option<Json>) {
    p.Some? && Truthy(p.value)
  }

  /** `p || d` for a property read `p`. */
  function Or(p: Option<Json>, d: Json): Json {
    if Present(p) then p.value else d
  }

  /** `typeof p === 'string'`. */
  predicate IsString(p: Option<Json>) {
    p.Some? && p.value.JStr?
  }

  /**
   * Reading property `key` of `v`: the field of an object, `undefined` on
   * anything else (the keys read here are neither indices nor `length`).
   * Reading a property of null throws; callers test `v.JNull?` first.
   */
  function Member(v: Json, key: string): Option<Json> {
    if v.JObj? && key in v.fields then Some(v.fields[key]) else None
  }

  /** The object whose keys are the indices `"0"`, `"1"`, ... of `vs`. */
  function IndexedFields(vs: seq<Json>): map<string, Json> {
    NatTextsDistinct();
    map i: nat | i < |vs| :: NatText(i) := vs[i]
  }

  lemma NatTextsDistinct()
    ensures forall a: nat, b: nat :: NatText(a) == NatText(b) ==> a == b
  {
    forall a: nat, b: nat | NatText(a) == NatText(b) ensures a == b {
      NatTextInjective(a, b);
    }
  }

  /**
   * The own enumerable properties that `{...v}` copies: an object's fields,
   * the characters of a string or the elements of an array under their
   * indices, and nothing for null, booleans and numbers.
   */
  function Spread(v: Json): map<string, Json> {
    match v
    case JObj(m) => m
    case JStr(s) => IndexedFields(seq(|s|, i requires 0 <= i < |s| => JStr([s[i]])))
    case JArr(items) => IndexedFields(items)
    case _ => map[]
  }

  /** `String(v)`: what a template literal `${v}` or `toString()` writes. */
  function ToText(v: Json): string
    decreases v
  {
    match v
    case JNull => "null"
    case JBool(b) => if b then "true" else "false"
    case JNum(n) => IntText(n)
    case JStr(s) => s
    case JArr(items) => JoinText(items)
    case JObj(_) => "[object Object]"
  }

  /** `items.join(",")`, where a null element writes as the empty string. */
  function JoinText(items: seq<Json>): string
    decreases items
  {
    if |items| == 0 then ""
    else
      var head := if items[0].JNull? then "" else ToText(items[0]);
      if |items| == 1 then head else head + "," + JoinText(items[1..])
  }
}
