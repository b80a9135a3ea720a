/** Decoded JSON documents, as both serde_json and Python's `json.load` hand them over.
    Numbers are integers only; an object keeps its members in document order. */
module JsonValues {
  import opened Text

  datatype Json =
    | JNull
    | JBool(b: bool)
    | JInt(i: int)
    | JStr(s: string)
    | JArr(items: seq<Json>)
    | JObj(fields: seq<(string, Json)>)

  predicate HasKey(fields: seq<(string, Json)>, key: string)
  {
    exists k | 0 <= k < |fields| :: fields[k].0 == key
  }

  /** The value of the LAST member called `key`, which is what both decoders keep when a key
      is repeated. */
  function Lookup(fields: seq<(string, Json)>, key: string): (r: Option<Json>)
    ensures r.Some? <==> HasKey(fields, key)
    ensures r.Some? ==> exists k | 0 <= k < |fields| :: fields[k] == (key, r.value)
  {
    if |fields| == 0 then None
    else if fields[|fields| - 1].0 == key then Some(fields[|fields| - 1].1)
    else
      var r := Lookup(fields[..|fields| - 1], key);
      assert forall k | 0 <= k < |fields| - 1 :: fields[..|fields| - 1][k] == fields[k];
      r
  }

  /** The object member `key`, or `None` when the value is not an object or lacks it. */
  function Field(j: Json, key: string): Option<Json>
  {
    if j.JObj? then Lookup(j.fields, key) else None
  }
}
