/**
 * JSON values as the matchers see them.  Numbers are kept as integers (the
 * event fields the core reads are strings and a u64); an object keeps its
 * members in order.
 */
module Json {

  datatype Json =
    | Null
    | Bool(b: bool)
    | Number(n: int)
    | Str(s: string)
    | Array(items: seq<Json>)
    | Object(members: seq<(string, Json)>)
}
