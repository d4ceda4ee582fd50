/** Values the modules share: something that may be missing, a call that may fail, a statement that may get lost. */
module Wrappers {

  datatype Option<+T> = None | Some(value: T)

  datatype Attempt<+T> = Good(value: T) | Bad(err: string)

  /** A database statement is done, or the caller sees an error although the statement may have been applied. */
  datatype Db = Done | Lost(applied: bool)
}
