/** JSON values. */
module JsonValues {
  // Numbers are kept as they are written; an object's entries stand in the order they are visited.
  datatype Json =
    | Null
    | Bool(value: bool)
    | Number(literal: string)
    | String(text: string)
    | Array(items: seq<Json>)
    | Object(entries: seq<Entry>)

  datatype Entry = Entry(key: string, value: Json)

  function Values(entries: seq<Entry>): seq<Json> {
    seq(|entries|, k requires 0 <= k < |entries| => entries[k].value)
  }
}
