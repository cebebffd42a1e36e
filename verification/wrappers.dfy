/** Failure-compatible datatypes shared by every module of the model.
    A Rust `panic!`, `unwrap()` on `None`/`Err` or `unimplemented!()`, and a
    Python exception, all become an `Err` carrying the message the program
    would print.
 */
module Wrappers {

  /** The conventional Some/None datatype (Rust `Option`, Python `None`). */
  datatype Option<+T> = None | Some(value: T) {

    predicate IsFailure() {
      None?
    }

    function PropagateFailure<U>(): Option<U>
      requires None?
    {
      None
    }

    function Extract(): T
      requires Some?
    {
      value
    }
  }

  /** A value or an error message. */
  datatype Result<+T> = Ok(value: T) | Err(error: string) {

    predicate IsFailure() {
      Err?
    }

    function PropagateFailure<U>(): Result<U>
      requires Err?
    {
      Err(error)
    }

    function Extract(): T
      requires Ok?
    {
      value
    }
  }
}
