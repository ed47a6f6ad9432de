/** Result types shared by the modules of the model. */
module Wrappers {
  datatype Option<+T> = None | Some(value: T)

  datatype Result<+T, +E> = Ok(value: T) | Err(error: E)

  /** How a remote store answers a command: one that succeeds has taken effect, one that fails may have. */
  datatype Reply = Reply(ok: bool, applied: bool) {
    predicate Valid() { ok ==> applied }
  }
}
