/** Values shared by every part of the model: an optional value, bytes, and the
    dynamically typed cell values that rows and metadata dictionaries hold. */
module Common {

  /** Python's `None` or a value. */
  datatype Option<+T> = None | Some(value: T)

  /** One byte of a fetched response body or of an encoded image. */
  newtype byte = b: int | 0 <= b < 256

  /** A cell of an input row or a value of a metadata dictionary: Python's
      `None`, a string, an integer, or a list (a bounding-box list, say). */
  datatype Value = Null | Str(s: string) | Int(n: int) | List(items: seq<Value>)

  /** `None` for an absent string, the string otherwise. */
  function OptStr(o: Option<string>): (v: Value)
    ensures o.None? <==> v == Null
    ensures o.Some? ==> v == Str(o.value)
  {
    match o
    case None => Null
    case Some(s) => Str(s)
  }
}
