/** Failure-compatible wrappers shared by the whole model: `Option` for values that may
    be absent (a failed number parse, an exhausted stream) and `Result` for computations
    that either produce a value or stop with an error (every `panic!` of the evaluator,
    the lexer's `LexicalError`). Both work with Dafny's `:-` operator. */
module Results {

  datatype Option<+T> = None | Some(value: T) {

    predicate IsFailure() {
      None?
    }

    function PropagateFailure<U>(): Option<U>
      requires None?
    {
      None
    }

    function Extract(): T
      requires Some?
    {
      value
    }
  }

  datatype Result<+T, +E> = Ok(value: T) | Err(error: E) {

    predicate IsFailure() {
      Err?
    }

    function PropagateFailure<U>(): Result<U, E>
      requires Err?
    {
      Err(error)
    }

    function Extract(): T
      requires Ok?
    {
      value
    }
  }
}
