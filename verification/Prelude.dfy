/** Types that every part of the model shares. */
module Prelude {

  datatype Option<+T> = None | Some(value: T)

  datatype Result<+T, +E> = Ok(value: T) | Err(error: E)

  newtype byte = x: int | 0 <= x < 256

  type Bytes = seq<byte>

  predicate Distinct<T(==)>(items: seq<T>) {
    forall k, l | 0 <= k < l < |items| :: items[k] != items[l]
  }
}
