/**
  JSON values as the extractor builds them with Jackson's tree model.
  An object keeps its fields in insertion order (Jackson's ObjectNode is
  backed by a LinkedHashMap), so an object is an ordered field list.
*/
module Json {
  import opened Wrappers

  datatype Json =
    | JString(str: string)
    | JInt(num: int)
    | JBool(flag: bool)
    | JArray(items: seq<Json>)
    | JObject(fields: seq<Field>)

  datatype Field = Field(key: string, value: Json)

  /** The keys of a field list, in order. */
  function Keys(fields: seq<Field>): (ks: seq<string>)
    ensures |ks| == |fields|
    ensures forall i :: 0 <= i < |fields| ==> ks[i] == fields[i].key
  {
    if fields == [] then [] else [fields[0].key] + Keys(fields[1..])
  }

  /** Value stored under `key`: the first field with that key, as a map lookup. */
  function Lookup(fields: seq<Field>, key: string): (r: Option<Json>)
    ensures r.Some? <==> key in Keys(fields)
  {
    if fields == [] then None
    else if fields[0].key == key then Some(fields[0].value)
    else Lookup(fields[1..], key)
  }

  /**
    `ObjectNode.put` / `set`: a key already present keeps its position and
    gets the new value; a new key is appended at the end.
  */
  function Put(fields: seq<Field>, key: string, value: Json): (r: seq<Field>)
    ensures key in Keys(fields) ==> Keys(r) == Keys(fields)
    ensures key !in Keys(fields) ==> Keys(r) == Keys(fields) + [key]
  {
    if fields == [] then [Field(key, value)]
    else if fields[0].key == key then [Field(key, value)] + fields[1..]
    else [fields[0]] + Put(fields[1..], key, value)
  }

  /** Seen as a map, `put` binds `key` to `value` and leaves every other key as it was. */
  lemma {:induction false} PutLookup(fields: seq<Field>, key: string, value: Json, k: string)
    ensures Lookup(Put(fields, key, value), k) == if k == key then Some(value) else Lookup(fields, k)
  {
    if fields != [] && fields[0].key != key {
      PutLookup(fields[1..], key, value, k);
    }
  }

  /** Putting a key not yet present appends one field: this is how insertion order arises. */
  lemma {:induction false} PutNewKeyAppends(fields: seq<Field>, key: string, value: Json)
    requires key !in Keys(fields)
    ensures Put(fields, key, value) == fields + [Field(key, value)]
  {
    if fields != [] {
      assert fields[0].key == Keys(fields)[0];
      assert Keys(fields[1..]) == Keys(fields)[1..];
      PutNewKeyAppends(fields[1..], key, value);
    }
  }
}
