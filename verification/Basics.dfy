/** What every module shares: an optional value, and bytes. */
module Basics {

  datatype Option<+T> = None | Some(value: T) {
    predicate IsFailure() { None? }
    function PropagateFailure<U>(): Option<U> requires None? { None }
    function Extract(): T requires Some? { value }
  }

  newtype byte = x: int | 0 <= x < 256

  type Bytes = seq<byte>
}
