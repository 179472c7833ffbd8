/** Option and Result, with the combinators the request pipeline is built from
    (`map_err`, `and_then`, `map_ok` of the Rust futures and results). */
module Wrappers {

  datatype Option<+T> = None | Some(value: T) {
    function GetOr(default: T): T {
      match this
      case Some(v) => v
      case None => default
    }
  }

  datatype Result<+R, +E> = Success(value: R) | Failure(error: E) {

    /** `map_err`: rewrap the error, keep a value. */
    function MapFailure<E2>(wrap: E -> E2): (r: Result<R, E2>)
      ensures r.Success? <==> Success?
      ensures Success? ==> r.value == value
      ensures Failure? ==> r.error == wrap(error)
    {
      match this
      case Success(v) => Success(v)
      case Failure(e) => Failure(wrap(e))
    }

    /** `map_ok`: transform a value, keep an error. */
    function MapSuccess<R2>(f: R -> R2): (r: Result<R2, E>)
      ensures r.Success? <==> Success?
      ensures Success? ==> r.value == f(value)
      ensures Failure? ==> r.error == error
    {
      match this
      case Success(v) => Success(f(v))
      case Failure(e) => Failure(e)
    }

    /** `and_then`: run the next step only on a value; an error short-circuits. */
    function AndThen<R2>(next: R -> Result<R2, E>): (r: Result<R2, E>)
      ensures Success? ==> r == next(value)
      ensures Failure? ==> r == Failure(error)
    {
      match this
      case Success(v) => next(v)
      case Failure(e) => Failure(e)
    }
  }
}
