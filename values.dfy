/** Decoded JSON values, the Python exceptions the crawler can raise on them,
    and the few Python operations on them that the crawler uses. */
module Values {

  /** A decoded JSON document: what `response.json()` hands back. Numbers are
      modelled as integers only. */
  datatype Json =
    | JNull
    | JBool(b: bool)
    | JNum(n: int)
    | JStr(s: string)
    | JArr(items: seq<Json>)
    | JObj(fields: map<string, Json>)

  /** The exceptions that the modelled code can raise. */
  datatype PyError =
    | KeyError(key: string)   // a dict subscript with a missing key
    | TypeError               // a subscript or `in` on a value that does not support it
    | ZeroDivisionError       // `np.arange` with a zero step

  /** A Python computation either returns a value or raises. */
  datatype Result<T> = Ok(value: T) | Err(error: PyError)

  /** Python truthiness of a decoded JSON value, as used by `if x:`. */
  predicate Truthy(j: Json) {
    match j
    case JNull => false
    case JBool(b) => b
    case JNum(n) => n != 0
    case JStr(s) => s != ""
    case JArr(items) => items != []
    case JObj(fields) => fields != map[]
  }

  /** The falsy JSON values are exactly None, False, 0, the empty string, the
      empty list and the empty dict. */
  lemma FalsyValues(j: Json)
    ensures !Truthy(j) <==>
      j == JNull || j == JBool(false) || j == JNum(0) || j == JStr("") || j == JArr([]) || j == JObj(map[])
  {
  }

  /** `x` is a dict that has the key `k`. */
  predicate Has(x: Json, k: string) {
    x.JObj? && k in x.fields
  }

  /** Python's `x[k]` for a string key `k`: a dict yields the value or raises
      KeyError, every other JSON value raises TypeError (lists need integer
      indices, strings need integer indices, numbers, booleans and None are not
      subscriptable). */
  function Subscript(x: Json, k: string): (r: Result<Json>)
    ensures r.Ok? <==> Has(x, k)
    ensures r.Ok? ==> r.value == x.fields[k]
    ensures r.Err? ==> r.error == (if x.JObj? then KeyError(k) else TypeError)
  {
    match x
    case JObj(fields) => if k in fields then Ok(fields[k]) else Err(KeyError(k))
    case _ => Err(TypeError)
  }
}
