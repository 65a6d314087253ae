/** Flag and attribute values: any JSON data. Numbers are exact reals. K is the type of member names,
    which are strings in a `Value`. */
module Values {
  import opened Wrappers

  datatype ValueOf<K> =
    | Null
    | Bool(b: bool)
    | Number(n: real)
    | String(s: string)
    | Array(items: seq<ValueOf<K>>)
    | Object(members: map<K, ValueOf<K>>)

  type Value = ValueOf<string>

  /** The value at a path of member names, as attribute lookup finds it. */
  function Find<K>(v: ValueOf<K>, path: seq<K>): Option<ValueOf<K>>
    decreases path
  {
    if path == [] then Some(v)
    else if v.Object? && path[0] in v.members then Find(v.members[path[0]], path[1..])
    else None
  }
}
