/** JSON values as Python's `json` module hands them to the scripts, and
    the pieces of Python's object semantics the validators lean on:
    which values are hashable and which compare equal as set members,
    numeric equality across int, float and bool, and `len()`. */
module Json {
  import opened Util

  datatype Json =
    | JNull
    | JBool(b: bool)
    | JInt(i: int)
    | JFloat(f: real)
    | JStr(s: string)
    | JArr(items: seq<Json>)
    | JObj(fields: map<string, Json>)

  /** One line of a `.jsonl` file: a JSON object. */
  type Object = map<string, Json>

  /** What a hashable Python value is identified by in a `set`:
      `True == 1 == 1.0`, so booleans and numbers share one key space. */
  datatype Key = KNull | KNum(n: real) | KStr(s: string)

  /** The set key of a value, or None when Python would raise
      `TypeError: unhashable type` (lists and dicts). */
  function HashKey(j: Json): (k: Option<Key>)
    ensures k.None? <==> j.JArr? || j.JObj?
  {
    match j
    case JNull => Some(KNull)
    case JBool(b) => Some(KNum(if b then 1.0 else 0.0))
    case JInt(i) => Some(KNum(i as real))
    case JFloat(f) => Some(KNum(f))
    case JStr(s) => Some(KStr(s))
    case JArr(_) => None
    case JObj(_) => None
  }

  /** The numeric value of a value Python arithmetic accepts (bool, int,
      float), or None when `-` would raise `TypeError`. */
  function NumberOf(j: Json): (n: Option<real>)
    ensures n.Some? <==> j.JBool? || j.JInt? || j.JFloat?
  {
    match j
    case JBool(b) => Some(if b then 1.0 else 0.0)
    case JInt(i) => Some(i as real)
    case JFloat(f) => Some(f)
    case _ => None
  }

  /** Python's `j == n` for an int `n`. */
  predicate EqualsInt(j: Json, n: int) {
    NumberOf(j) == Some(n as real)
  }

  /** Python's `len(j)`, or None when it raises `TypeError`. */
  function LenOf(j: Json): (n: Option<nat>)
    ensures n.Some? <==> j.JStr? || j.JArr? || j.JObj?
  {
    match j
    case JStr(s) => Some(|s|)
    case JArr(a) => Some(|a|)
    case JObj(m) => Some(|m|)
    case _ => None
  }

  /** The value at `key`, or None when `obj[key]` raises `KeyError`. */
  function Field(obj: Object, key: string): Option<Json> {
    if key in obj then Some(obj[key]) else None
  }

  function StrOrNull(s: Option<string>): Json {
    match s
    case Some(v) => JStr(v)
    case None => JNull
  }
}
