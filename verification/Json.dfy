/** Decoded JSON documents, as the Python checkers see them. */
module Json {

  datatype Json = Null | Bool(b: bool) | Num(n: int) | Str(s: string) | Arr(items: seq<Json>) | Obj(fields: map<string, Json>)

  /** `document.get(key)`: a missing key reads as null. */
  function Get(j: Json, key: string): Json
    requires j.Obj?
  {
    if key in j.fields then j.fields[key] else Null
  }

  /** Python's `value == n`, for which true is 1 and false is 0. */
  predicate EqualsInt(j: Json, n: int) {
    j == Num(n) || (j == Bool(true) && n == 1) || (j == Bool(false) && n == 0)
  }

  predicate NonEmptyStr(j: Json) { j.Str? && j.s != "" }
}
