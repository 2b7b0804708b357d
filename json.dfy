/**
 * Values held in the Streamlit session state and in the session / ballot
 * JSON files.  Python treats JSON numbers and booleans alike as numbers;
 * strings are the text-area contents and slider labels; everything else
 * (null, lists, objects) is lumped together.
 */
module Json {

  datatype Value = Num(x: real) | Text(s: string) | Other

  /** A JSON object: the session state, an uploaded ballot, an export. */
  type Object = map<string, Value>

  /** `d.get(key, 1)`: a missing judgment is read as equal importance. */
  function GetOrOne(d: Object, key: string): (v: Value)
    ensures key in d ==> v == d[key]
    ensures key !in d ==> v == Num(1.0)
  {
    if key in d then d[key] else Num(1.0)
  }
}
