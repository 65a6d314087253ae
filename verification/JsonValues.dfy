/** JSON documents as the serialization library holds them. Objects are compared as maps. K is the type of
    member names, which are strings in a `Json`. */
module JsonValues {
  import opened Wrappers

  datatype JsonOf<K> =
    | Null
    | Bool(b: bool)
    | Number(n: real)
    | String(s: string)
    | Array(items: seq<JsonOf<K>>)
    | Object(members: map<K, JsonOf<K>>)

  type Json = JsonOf<string>

  /** What a path of member names leads to. */
  function Find<K>(j: JsonOf<K>, path: seq<K>): Option<JsonOf<K>>
    decreases path
  {
    if path == [] then Some(j)
    else if j.Object? && path[0] in j.members then Find(j.members[path[0]], path[1..])
    else None
  }
}
