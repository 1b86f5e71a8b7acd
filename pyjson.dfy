/**
 * The decoded JSON document the Picta API returns, seen as the Python values that
 * `json.loads` produces, together with the two ways the extractor reads it:
 * plain subscripting (`x["results"][0]`), which raises, and `try_get`, which
 * swallows the error and answers None. Python's None and JSON null are one
 * value, `JNull`.
 */
module PyJson {
  import opened Wrappers

  datatype Json =
    | JNull
    | JBool(b: bool)
    | JInt(i: int)
    | JStr(s: string)
    | JArr(items: seq<Json>)
    | JObj(fields: map<string, Json>)

  /** One subscript of a lookup path: `["key"]` or `[n]`. */
  datatype Step = Key(k: string) | Index(n: nat)

  /** The exceptions that Python subscripting and `.get` raise on a bad document. */
  datatype PyError = KeyError | IndexError | TypeError | AttributeError

  /** Python's `v[step]` on a decoded JSON value. A string subscripted by an
      index yields a one-character string; object keys are always strings, so
      an integer subscript of an object is a KeyError. */
  function Subscript(v: Json, step: Step): Result<Json, PyError>
  {
    match (v, step)
    case (JObj(m), Key(k)) => if k in m then Success(m[k]) else Failure(KeyError)
    case (JObj(_), Index(_)) => Failure(KeyError)
    case (JArr(xs), Index(n)) => if n < |xs| then Success(xs[n]) else Failure(IndexError)
    case (JStr(s), Index(n)) => if n < |s| then Success(JStr([s[n]])) else Failure(IndexError)
    case _ => Failure(TypeError)
  }

  /** `v[p0][p1]...`: the subscripts applied left to right; the first one that
      raises decides the error. */
  function Walk(v: Json, path: seq<Step>): Result<Json, PyError>
    decreases |path|
  {
    if path == [] then Success(v)
    else
      match Subscript(v, path[0])
      case Failure(e) => Failure(e)
      case Success(w) => Walk(w, path[1..])
  }

  /** Python's `v.get(key)`: only a dict has `.get`; a missing key gives None. */
  function DictGet(v: Json, key: string): Result<Json, PyError>
  {
    if !v.JObj? then Failure(AttributeError)
    else if key in v.fields then Success(v.fields[key]) else Success(JNull)
  }

  /** `try_get(v, lambda x: x<path>)` with no expected type: the value at the
      path, or None if any subscript raises. */
  function TryGet(v: Json, path: seq<Step>): Json
  {
    match Walk(v, path)
    case Success(w) => w
    case Failure(_) => JNull
  }

  /** `try_get(v, lambda x: x<path>, compat_str)`: the value at the path if it
      is a string, None otherwise. */
  function TryGetStr(v: Json, path: seq<Step>): Option<string>
  {
    match Walk(v, path)
    case Success(JStr(s)) => Some(s)
    case _ => None
  }

  /** Python truthiness of a decoded JSON value. */
  predicate Truthy(v: Json)
  {
    match v
    case JNull => false
    case JBool(b) => b
    case JInt(i) => i != 0
    case JStr(s) => s != []
    case JArr(xs) => xs != []
    case JObj(m) => m != map[]
  }

  /** A lookup path that starts with a key lookup reads nothing but that member. */
  lemma {:induction false} WalkKeyFirst(v: Json, k: string, rest: seq<Step>)
    ensures Walk(v, [Key(k)] + rest) ==
              if v.JObj? && k in v.fields then Walk(v.fields[k], rest)
              else if v.JObj? then Failure(KeyError) else Failure(TypeError)
  {
    assert ([Key(k)] + rest)[1..] == rest;
  }

  /** Walking a concatenated path is walking the first part, then the second. */
  lemma {:induction false} WalkAppend(v: Json, p: seq<Step>, q: seq<Step>)
    ensures Walk(v, p + q) ==
              match Walk(v, p)
              case Failure(e) => Failure(e)
              case Success(w) => Walk(w, q)
    decreases |p|
  {
    if p == [] {
      assert p + q == q;
    } else {
      assert (p + q)[0] == p[0];
      assert (p + q)[1..] == p[1..] + q;
      match Subscript(v, p[0])
      case Failure(e) =>
      case Success(w) => WalkAppend(w, p[1..], q);
    }
  }
}
