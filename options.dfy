/** An optional value, used for the optional construction parameters. */
module Options {
  datatype Option<+T> = None | Some(value: T)

  /** JavaScript's `option || fallback` for a number: an absent option and the
      falsy number 0 both give the fallback, so a non-zero default never
      yields 0. */
  function NumberOr(o: Option<real>, fallback: real): (r: real)
    ensures fallback != 0.0 ==> r != 0.0
  {
    match o
    case None => fallback
    case Some(x) => if x == 0.0 then fallback else x
  }

  /** `option || fallback` for a vector (a JavaScript array is never falsy). */
  function VectorOr<T>(o: Option<T>, fallback: T): T {
    if o.Some? then o.value else fallback
  }
}
