/** The small part of JavaScript's semantics the client relies on: truthiness
    of an optional string, parsed JSON values and property access on them. */
module Js {
  import opened Wrappers

  /** `if (s)` on a string-typed field: `undefined` and `""` are falsy, every
      other string is truthy. */
  predicate Truthy(s: Option<string>) {
    s.Some? && s.value != ""
  }

  /** A value produced by `response.json()`. Numbers are modelled as integers
      since the client never looks at them. */
  datatype JsonValue =
    | JNull
    | JBool(b: bool)
    | JNumber(n: int)
    | JString(s: string)
    | JArray(items: seq<JsonValue>)
    | JObject(fields: seq<(string, JsonValue)>)

  /** The names of a list of named entries (object members, query
      parameters), in order. */
  function Names<V>(entries: seq<(string, V)>): seq<string> {
    seq(|entries|, i requires 0 <= i < |entries| => entries[i].0)
  }

  /** The only way reading a property can go wrong: reading it on `null`. */
  datatype JsError = TypeError

  /** The value bound to `name` among the members of an object as written in
      the JSON text. When a name is repeated, JSON.parse keeps the last one. */
  function LastValue(fields: seq<(string, JsonValue)>, name: string): (r: Option<JsonValue>)
    ensures r.None? <==> forall i :: 0 <= i < |fields| ==> fields[i].0 != name
    ensures r.Some? ==>
      exists i :: 0 <= i < |fields| && fields[i] == (name, r.value)
        && forall j :: i < j < |fields| ==> fields[j].0 != name
    decreases |fields|
  {
    if |fields| == 0 then None
    else if fields[|fields| - 1].0 == name then Some(fields[|fields| - 1].1)
    else LastValue(fields[..|fields| - 1], name)
  }

  /** `data[name]` for a parsed JSON value: a TypeError on `null`, `undefined`
      (None) on booleans, numbers, strings and arrays, and the member's value
      on an object that has it. */
  function Property(data: JsonValue, name: string): (r: Result<Option<JsonValue>, JsError>)
    ensures r.Failure? <==> data.JNull?
    ensures data.JObject? ==> r == Success(LastValue(data.fields, name))
    ensures !data.JNull? && !data.JObject? ==> r == Success(None)
  {
    match data
    case JNull => Failure(TypeError)
    case JObject(fields) => Success(LastValue(fields, name))
    case _ => Success(None)
  }

  /** `v === true`: strict equality with the boolean `true`, so truthy values
      such as `1` or `"true"` do not qualify. */
  predicate StrictlyTrue(v: Option<JsonValue>) {
    v == Some(JBool(true))
  }
}
