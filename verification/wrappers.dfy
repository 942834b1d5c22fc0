/** Failure-carrying wrappers shared by the whole model. */
module Wrappers {
  datatype Option<+T> = None | Some(value: T)

  /** `Panic` stands for a Rust `panic!`/`expect` with its message. */
  datatype Result<+T> = Ok(value: T) | Panic(message: string)
}
