/**
 * JavaScript values as the front end receives them from `JSON.parse`, plus
 * `undefined`. An object is its entries in insertion order, the order
 * `Object.entries` lists them; numbers are integers.
 */
module Json {
  import opened Wrappers

  datatype Json =
    | JUndefined
    | JNull
    | JBool(b: bool)
    | JNum(n: int)
    | JStr(s: string)
    | JArr(items: seq<Json>)
    | JObj(fields: seq<(string, Json)>)

  /** `typeof v === "object" && v !== null`: objects and arrays. */
  predicate IsRecord(v: Json) {
    v.JObj? || v.JArr?
  }

  /** The value of the first entry named `key`, if any. */
  function Lookup(fields: seq<(string, Json)>, key: string): Json {
    if fields == [] then JUndefined
    else if fields[0].0 == key then fields[0].1
    else Lookup(fields[1..], key)
  }

  /** Property access `v[key]`: an object's entry, `undefined` for anything else or a missing key. */
  function Get(v: Json, key: string): Json {
    if v.JObj? then Lookup(v.fields, key) else JUndefined
  }

  /** `typeof v === "string" ? v : undefined`. */
  function AsString(v: Json): Option<string> {
    if v.JStr? then Some(v.s) else None
  }

  /** `typeof v === "boolean" ? v : undefined`. */
  function AsBool(v: Json): Option<bool> {
    if v.JBool? then Some(v.b) else None
  }

  /** Neither `null` nor `undefined` occurs anywhere in `v`. */
  predicate NullFree(v: Json) {
    match v
    case JUndefined => false
    case JNull => false
    case JArr(items) => forall i :: 0 <= i < |items| ==> NullFree(items[i])
    case JObj(fields) => forall i :: 0 <= i < |fields| ==> NullFree(fields[i].1)
    case _ => true
  }
}
