/** Option and Result, the two failure-carrying datatypes the model uses. */
module Wrappers {

  datatype Option<+T> = None | Some(value: T)

  datatype Result<+R, +E> = Ok(value: R) | Err(error: E)

  // Accumulating a list of results in a loop that stops at the first error.

  function Prepend<T, E>(x: T, r: Result<seq<T>, E>): Result<seq<T>, E> {
    match r
    case Err(e) => Err(e)
    case Ok(xs) => Ok([x] + xs)
  }

  function PrependAll<T, E>(xs: seq<T>, r: Result<seq<T>, E>): Result<seq<T>, E> {
    match r
    case Err(e) => Err(e)
    case Ok(ys) => Ok(xs + ys)
  }

  lemma PrependAllNil<T, E>(r: Result<seq<T>, E>)
    ensures PrependAll([], r) == r
  {
    if r.Ok? { assert [] + r.value == r.value; }
  }

  lemma PrependAllStep<T, E>(xs: seq<T>, x: T, r: Result<seq<T>, E>)
    ensures PrependAll(xs, Prepend(x, r)) == PrependAll(xs + [x], r)
  {
    if r.Ok? { assert xs + ([x] + r.value) == (xs + [x]) + r.value; }
  }
}
