/** Optional values and results, standing for the source's `undefined`/`null` and its exceptions. */
module Wrappers {

  datatype Option<+T> = None | Some(value: T)

  datatype Result<+T, +E> = Success(value: T) | Failure(error: E) {

    predicate IsFailure() {
      Failure?
    }

    function PropagateFailure<U>(): Result<U, E>
      requires Failure?
    {
      Failure(error)
    }

    function Extract(): T
      requires Success?
    {
      value
    }
  }

  /** Whether a check passed or what it threw. */
  datatype Check<+E> = Passed | Thrown(error: E) {

    predicate IsFailure() {
      Thrown?
    }

    function PropagateFailure<U>(): Result<U, E>
      requires Thrown?
    {
      Failure(error)
    }
  }

  /** A check that throws `error` when it does not hold. */
  function Need<E>(condition: bool, error: E): Check<E> {
    if condition then Passed else Thrown(error)
  }

  /** The last element of a history, or None when it is empty (`history.at(-1)`). */
  function Last<T>(s: seq<T>): Option<T> {
    if s == [] then None else Some(s[|s| - 1])
  }

  /** The value stored under a key, or the empty sequence (`map[key] ?? []`). */
  function Entries<T>(m: map<string, seq<T>>, key: string): seq<T> {
    if key in m then m[key] else []
  }
}
