/** Small failure-carrying wrappers shared by the other modules. */
module Results {

  /** A value that may be missing, as Python's `None`. */
  datatype Option<+T> = None | Some(value: T)

  /** The outcome of a step that may raise: `Err` stands for the exception. */
  datatype Result<+T> = Ok(value: T) | Err(reason: string)
}
