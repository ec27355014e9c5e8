/** Optional values and error results, standing for Python's `None` and raised exceptions. */
module Wrappers {

  datatype Option<+T> = None | Some(value: T)

  /** `Err` carries the message the source puts into the exception it raises. */
  datatype Result<+T> = Ok(value: T) | Err(error: string)

  /** Concatenation regrouped; stated once so that proofs over long strings need not find it. */
  lemma AppendAssoc<T>(x: seq<T>, y: seq<T>, z: seq<T>)
    ensures (x + y) + z == x + (y + z)
  {
  }
}
