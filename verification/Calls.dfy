/** How a single API or kernel call can end. */
module Calls {
  /** Done: took effect and said so. Lost: took effect, but the caller sees an error. Refused: no effect, error. */
  datatype Outcome = Done | Lost | Refused {
    predicate Effective() { !Refused? }
  }

  /** A step of a process: it returned, or the process died before it. */
  datatype Progress<T> = Crashed | Returned(value: T) {
    predicate IsFailure() { Crashed? }
    function PropagateFailure<U>(): Progress<U>
      requires Crashed?
    { Crashed }
    function Extract(): T
      requires Returned?
    { value }
  }
}
