/** Optional values and the settled state of an awaited promise. */
module Wrappers {

  /** A value that may be absent (`null` / `undefined` in the source). */
  datatype Option<+T> = None | Some(value: T)

  /** How an awaited call settled: fulfilled with a value, or rejected with an
      `Error` carrying the given message. */
  datatype Outcome<+T> = Ok(value: T) | Fail(message: string)

  /** Forgets the value of a fulfilled outcome, keeping a rejection as it is
      (an `async` function that awaits a call and returns nothing). */
  function Discard<T>(o: Outcome<T>): (r: Outcome<()>)
    ensures r.Ok? <==> o.Ok?
    ensures r.Fail? ==> r.message == o.message
  {
    match o
    case Ok(_) => Ok(())
    case Fail(m) => Fail(m)
  }
}
