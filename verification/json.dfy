/**
  Property and flag values. The source stores untyped `Any?` values; every
  value it stores, sends or reads back is a JSON value, so the model uses one
  tagged JSON datatype for properties, flag values and overrides.
*/
module JsonValues {

  /** `JNull` is Kotlin's `null`; a number keeps its literal text. */
  datatype Json =
    | JNull
    | JBool(b: bool)
    | JNum(literal: string)
    | JStr(s: string)
    | JArr(items: seq<Json>)
    | JObj(fields: map<string, Json>)

  /** A map a `ConcurrentHashMap` could hold: it rejects null values. */
  predicate NoNullValues(m: map<string, Json>) {
    forall k :: k in m ==> m[k] != JNull
  }

  /** A `Map<String, String>` seen as a map of JSON strings. */
  function StringFields(m: map<string, string>): (r: map<string, Json>)
    ensures r.Keys == m.Keys
    ensures forall k :: k in m ==> r[k] == JStr(m[k])
  {
    map k | k in m :: JStr(m[k])
  }
}
