/**
 * Parsed JSON values, and `Object.assign` as the two docs-config loaders use it.
 */
module JsonValues {

  /** A parsed JSON document. Numbers are kept as integers. */
  datatype Json =
    | JNull
    | JBool(b: bool)
    | JNumber(n: int)
    | JString(s: string)
    | JArray(items: seq<Json>)
    | JObject(members: map<string, Json>)

  /** A configuration record: the own keys of a plain object and their values. */
  type Config = map<string, Json>

  /**
   * The own keys `Object.assign` copies from a parsed document that may name a
   * configuration key: the members of an object. `null`, booleans and numbers
   * contribute nothing; the index keys of an array or a string are not
   * configuration keys and are not kept.
   */
  function OwnKeys(source: Json): Config {
    match source
    case JObject(m) => m
    case _ => map[]
  }

  /**
   * `Object.assign(target, source)`: every own key of the source overwrites
   * the target's value, and the target's other keys are kept.
   */
  function Assign(target: Config, source: Json): (r: Config)
    ensures r.Keys == target.Keys + OwnKeys(source).Keys
    ensures forall k | k in OwnKeys(source) :: r[k] == OwnKeys(source)[k]
    ensures forall k | k in target && k !in OwnKeys(source) :: r[k] == target[k]
  {
    target + OwnKeys(source)
  }
}
