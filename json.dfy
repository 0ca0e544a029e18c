/**
 * JSON values as the gateway reads them from upstream bodies and builds them
 * for its responses: a response dictionary is an `Obj`.
 */
module Json {
  import opened Wrappers

  datatype Json =
    | Null
    | Str(s: string)
    | Int(n: int)
    | Arr(items: seq<Json>)
    | Obj(fields: map<string, Json>)

  /** `j` is an object whose keys are exactly `keys`. */
  predicate HasKeys(j: Json, keys: set<string>)
  {
    j.Obj? && j.fields.Keys == keys
  }

  /** The string stored under `key` in object `j`, if there is one. */
  function StrField(j: Json, key: string): Option<string>
  {
    if j.Obj? && key in j.fields && j.fields[key].Str? then Some(j.fields[key].s) else None
  }
}
