/** Parsed JSON values; objects are unordered, and an absent key stands for JavaScript's undefined. */
module Json {
  import opened Common

  datatype Json =
    | Null
    | Bool(b: bool)
    | Num(n: real)
    | Str(s: string)
    | Arr(items: seq<Json>)
    | Obj(fields: map<string, Json>)

  function Field(o: map<string, Json>, key: string): Option<Json> {
    if key in o then Some(o[key]) else None
  }

  predicate HasString(o: map<string, Json>, key: string) {
    key in o && o[key].Str?
  }

  predicate HasNumber(o: map<string, Json>, key: string) {
    key in o && o[key].Num?
  }

  predicate HasBool(o: map<string, Json>, key: string) {
    key in o && o[key].Bool?
  }

  /** Two different values with one hash. */
  ghost predicate Collision(hash: Json -> string, a: Json, b: Json) {
    a != b && hash(a) == hash(b)
  }
}
