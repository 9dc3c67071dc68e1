/** The JavaScript values a credential field can hold once a configuration
    file has been parsed as JSON, and the library's `hasValue` test. */
module JsValues {
  import opened Wrappers
  import opened Text

  datatype JsValue =
    | JNull
    | JBool(b: bool)
    | JNumber(n: real)
    | JString(s: string)
    | JArray(items: seq<JsValue>)
    | JObject(fields: map<string, JsValue>)

  /** Property access `obj[key]` on a plain object: `None` is `undefined`. */
  function Lookup<V>(obj: map<string, V>, key: string): (r: Option<V>)
    ensures r.Some? <==> key in obj
    ensures r.Some? ==> r.value == obj[key]
  {
    if key in obj then Some(obj[key]) else None
  }

  /** `hasValue(value)`: a string must hold a non-whitespace character; any
      other value must be truthy (`undefined`, `null`, `false` and `0` are not). */
  function HasValue(v: Option<JsValue>): (r: bool)
    ensures v.None? || v == Some(JNull) ==> !r
    ensures v.Some? && v.value.JString? ==> (r <==> !AllWhitespace(v.value.s))
    ensures v.Some? && (v.value.JArray? || v.value.JObject?) ==> r
    ensures v.Some? && v.value.JBool? ==> r == v.value.b
    ensures v.Some? && v.value.JNumber? ==> (r <==> v.value.n != 0.0)
  {
    match v
    case None => false
    case Some(JNull) => false
    case Some(JBool(b)) => b
    case Some(JNumber(n)) => n != 0.0
    case Some(JString(s)) => Trim(s) != ""
    case Some(_) => true
  }

  /** A string has a value exactly when some character of it is not whitespace. */
  lemma HasValueString(s: string)
    ensures HasValue(Some(JString(s))) <==> exists i :: 0 <= i < |s| && !IsWhitespace(s[i])
  {
  }
}
