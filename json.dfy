/**
 * The values Python's `json.loads` produces, as far as the pipeline looks at them.
 * The parser itself is not modelled: every operation that parses takes it as a
 * parameter `loads`, a total function from a text to a `Loaded` outcome.
 */
module Json {
  import opened Wrappers

  /** A decoded JSON document: None, bool, number, str, list or dict. */
  datatype Json =
    | JNull
    | JBool(b: bool)
    | JNumber(n: real)
    | JString(s: string)
    | JArray(items: seq<Json>)
    | JObject(fields: map<string, Json>)

  /**
   * What one call of `json.loads` does: return a value, raise
   * `json.JSONDecodeError`, or raise some other exception.
   */
  datatype Loaded = Parsed(value: Json) | DecodeError | OtherError

  /** The empty list `[]`, the pipeline's "no pairs" value. */
  const EmptyList: Json := JArray([])

  /** `len(v)`: defined on str, list and dict; `None` stands for the TypeError
      Python raises on every other value. */
  function Len(v: Json): Option<nat>
  {
    match v
    case JString(s) => Some(|s|)
    case JArray(items) => Some(|items|)
    case JObject(fields) => Some(|fields|)
    case _ => None
  }

  /** Python truthiness, as used by `if qa_pairs:`. */
  predicate Truthy(v: Json)
  {
    match v
    case JNull => false
    case JBool(b) => b
    case JNumber(n) => n != 0.0
    case JString(s) => s != ""
    case JArray(items) => items != []
    case JObject(fields) => fields != map[]
  }

  /** On a value `len` accepts, truthiness is exactly non-emptiness. */
  lemma TruthyIffNonEmpty(v: Json)
    requires Len(v).Some?
    ensures Truthy(v) <==> Len(v).value > 0
  {
    if v.JObject? {
      assert v.fields == map[] <==> |v.fields| == 0;
    }
  }

  /** `v.get(key, default)`: `None` stands for the AttributeError raised when
      `v` is not a dict. */
  function Get(v: Json, key: string, default: Json): (r: Option<Json>)
    ensures r.Some? <==> v.JObject?
    ensures r.Some? && key in v.fields ==> r.value == v.fields[key]
    ensures r.Some? && key !in v.fields ==> r.value == default
  {
    match v
    case JObject(fields) => Some(if key in fields then fields[key] else default)
    case _ => None
  }
}
