/**
 Decoded JSON as the exporter handles it. A value is kept opaque: `text` is the
 string Python's `%s` formatting produces for it, which is all the exporter
 ever does with a value apart from comparing it with `'enabled'` and indexing a
 nested object. An object is an ordered sequence of (key, value) members, which
 keeps the insertion order of Python's `dict`.
 */
module Json {
  import opened Base

  datatype Value =
    | Scalar(text: string)
    | Object(text: string, fields: seq<(string, Value)>)

  type Fields = seq<(string, Value)>

  /** The members of a decoded object have pairwise distinct keys. */
  predicate DistinctKeys(fields: Fields) {
    forall i, j :: 0 <= i < j < |fields| ==> fields[i].0 != fields[j].0
  }

  /**
   The value stored under `key`, if any. A decoded object has distinct keys
   (`DistinctKeys`: Python's `json` keeps only the last value of a repeated key),
   so on such an object the member found is the only one with that key.
   */
  function Get(fields: Fields, key: string): (r: Option<Value>)
    ensures r.None? <==> forall i :: 0 <= i < |fields| ==> fields[i].0 != key
    ensures r.Some? ==> exists i :: 0 <= i < |fields| && fields[i] == (key, r.value)
  {
    if |fields| == 0 then None
    else if fields[0].0 == key then Some(fields[0].1)
    else Get(fields[1..], key)
  }

  /** Python's `v[key]` on a decoded JSON value. */
  function Index(v: Value, key: string): (r: Result<Value>)
    ensures v.Scalar? ==> r == Failure(TypeError)
    ensures v.Object? ==> r == (if Get(v.fields, key).Some? then Success(Get(v.fields, key).value)
                                else Failure(KeyError(key)))
  {
    match v
    case Scalar(_) => Failure(TypeError)
    case Object(_, fields) =>
      match Get(fields, key)
      case Some(x) => Success(x)
      case None => Failure(KeyError(key))
  }
}
