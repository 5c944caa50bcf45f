/** Failure-carrying wrappers shared by every module: an optional value,
    the exceptions the modelled Python code raises, and a result that is
    either a value or one of those exceptions. */
module Base {

  datatype Option<+T> = None | Some(value: T)

  /** The Python exceptions the modelled code can raise, with the detail
      each one carries in the source's message. */
  datatype Error =
    | KeyError(key: string)
    | TypeError(message: string)
    | ValueError(message: string)
    | IndexError
    | AttributeError(attr: string)
    | NameError(name: string)
    | ImportError(path: string)
    | StopIteration
    | SearchRequestError

  datatype Result<+T> = Ok(value: T) | Err(error: Error) {
    predicate IsFailure() {
      Err?
    }

    function PropagateFailure<U>(): Result<U>
      requires Err?
    {
      Err(error)
    }

    function Extract(): T
      requires Ok?
    {
      value
    }
  }
}
