/** Decoded JSON as PHP's json_decode($body, true) hands it to the client:
    objects become associative arrays, and a body that cannot be decoded
    becomes null. */
module PhpValues {

  datatype Option<+T> = None | Some(value: T)

  /** A decoded JSON value. */
  datatype Value =
    | Null
    | Boolean(b: bool)
    | Number(n: int)
    | Text(s: string)
    | List(items: seq<Value>)
    | Object(fields: map<string, Value>)

  /** What json_decode returned for a transport response. */
  datatype Response = Undecodable | Decoded(value: Value)

  /** PHP's `$response[$key]`: the entry when the response is an
      associative array holding the key, and null otherwise (a missing key,
      a null response or a list). */
  function Offset(r: Response, key: string): (v: Value)
    ensures v != Null ==> r.Decoded? && r.value.Object? && key in r.value.fields && r.value.fields[key] == v
    ensures r.Decoded? && r.value.Object? && key in r.value.fields ==> v == r.value.fields[key]
  {
    match r
    case Decoded(Object(fields)) => if key in fields then fields[key] else Null
    case _ => Null
  }

  /** PHP's `isset` on a value: false only for null. */
  predicate Isset(v: Value) {
    v != Null
  }
}
