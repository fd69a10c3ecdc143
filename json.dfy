/**
 * JSON values as the endpoints receive and return them, with JavaScript's
 * truthiness and property access.
 */
module Json {

  import opened Wrappers

  datatype Json =
    | JNull
    | JBool(b: bool)
    | JNum(n: real)
    | JStr(s: string)
    | JArr(items: seq<Json>)
    | JObj(fields: map<string, Json>)

  /**
   * `!!v` for a property value: `undefined`, `null`, `false`, `0` and `""`
   * are falsy; every array and object is truthy, even an empty one.
   */
  predicate Truthy(v: Option<Json>)
  {
    match v
    case None => false
    case Some(JNull) => false
    case Some(JBool(b)) => b
    case Some(JNum(n)) => n != 0.0
    case Some(JStr(s)) => s != ""
    case Some(JArr(_)) => true
    case Some(JObj(_)) => true
  }

  /** `j[name]` for a non-null value: only an object holding the key has it. */
  function Field(j: Json, name: string): (r: Option<Json>)
    ensures r.Some? <==> j.JObj? && name in j.fields
    ensures r.Some? ==> r.value == j.fields[name]
  {
    match j
    case JObj(fields) => if name in fields then Some(fields[name]) else None
    case _ => None
  }

  /** `{ ...base, ...extra }`: the keys of `extra` win. */
  function Spread(base: map<string, Json>, extra: map<string, Json>): (r: map<string, Json>)
    ensures r.Keys == base.Keys + extra.Keys
    ensures forall k :: k in extra ==> r[k] == extra[k]
    ensures forall k :: k in base && k !in extra ==> r[k] == base[k]
  {
    base + extra
  }

  /** `{ success: true, ...fields }`: the spread object's own keys override `success`. */
  function SuccessSpread(fields: map<string, Json>): Json
  {
    JObj(Spread(map["success" := JBool(true)], fields))
  }

  /**
   * The body's `success` is `true` unless the spread object carries its own
   * `success` key, which wins; every other key is the object's.
   */
  lemma SuccessSpreadFields(fields: map<string, Json>)
    ensures "success" !in fields ==> Field(SuccessSpread(fields), "success") == Some(JBool(true))
    ensures "success" in fields ==> Field(SuccessSpread(fields), "success") == Some(fields["success"])
    ensures forall k :: k in fields ==> Field(SuccessSpread(fields), k) == Some(fields[k])
    ensures forall k :: k != "success" && k !in fields ==> Field(SuccessSpread(fields), k).None?
  {
  }

  /** The texts as a JSON array of strings. */
  function Strings(ss: seq<string>): (r: Json)
    ensures r.JArr? && |r.items| == |ss|
    ensures forall k :: 0 <= k < |ss| ==> r.items[k] == JStr(ss[k])
  {
    JArr(seq(|ss|, k requires 0 <= k < |ss| => JStr(ss[k])))
  }
}
