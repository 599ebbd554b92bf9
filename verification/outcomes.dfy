/** Java's nullable references and thrown exceptions, as values. */
module Outcomes {

  /** A Java reference that may be null: `None` stands for `null`. */
  datatype Option<+T> = None | Some(value: T)

  /** What a Java call ends with: a returned value, or an exception and its message. */
  datatype Result<+T> = Ok(value: T) | Err(message: string)
}
