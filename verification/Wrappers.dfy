/** Small result types shared by the modules. */
module Wrappers {

  /** An optional value. */
  datatype Option<+T> = None | Some(value: T)

  function Max(a: nat, b: nat): nat { if a > b then a else b }

  /** The outcome of a step that the program aborts with an error (or a panic). */
  datatype Result<+T, +E> = Ok(value: T) | Err(error: E)
}
