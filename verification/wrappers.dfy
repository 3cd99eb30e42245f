/** Failure-carrying datatypes standing in for Python's `None` returns and exceptions. */
module Wrappers {

  /** A value that may be absent, as a Python function that falls off its end returns `None`. */
  datatype Option<+T> = None | Some(value: T)

  /** The Python exceptions the modelled code can raise. */
  datatype PyError =
    | ValueError         // `list.index` miss, explicit `raise ValueError`, `max()` of an empty sequence
    | KeyError           // dict or Enum name lookup miss
    | IndexError         // list subscript out of range
    | TypeError          // wrong arity, unhashable key, `reduce` of an empty sequence
    | UnboundLocalError  // a local read on a path that never assigned it

  /** Either the value a call returns or the exception it raises. */
  datatype Result<+T> = Ok(value: T) | Err(error: PyError) {

    predicate IsFailure() {
      Err?
    }

    function PropagateFailure<U>(): Result<U>
      requires Err?
    {
      Err(error)
    }

    function Extract(): T
      requires Ok?
    {
      value
    }
  }
}
