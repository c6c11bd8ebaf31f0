/**
 * The documents the firehose delivers, as `json.loads` hands them to the producer:
 * an object keeps its members in dictionary iteration order, an array its items in
 * index order, and everything else is a scalar.
 */
module Json {

  datatype Json =
    | JObject(members: seq<Member>)
    | JArray(items: seq<Json>)
    | JString(str: string)
    | JNumber(num: int)
    | JBool(b: bool)
    | JNull

  /** One key/value pair of a JSON object. */
  datatype Member = Member(name: string, value: Json)

  /** Strings, numbers, booleans and null: values with nothing inside them. */
  predicate IsScalar(j: Json) {
    !j.JObject? && !j.JArray?
  }
}
