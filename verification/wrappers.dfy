module Options {
  datatype Option<+T> = None | Some(value: T)
}

module Bytes {
  type Byte = bv8
}

module Results {
  /** The outcome of a bus transaction, and of everything that propagates its failure with `?`. */
  datatype Result<+T> = Success(value: T) | Failure
  {
    predicate IsFailure() {
      Failure?
    }

    function PropagateFailure<U>(): Result<U>
      requires Failure?
    {
      Failure
    }

    function Extract(): T
      requires Success?
    {
      value
    }
  }
}
