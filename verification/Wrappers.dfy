/** The optional value shared by every module of the project. */
module Wrappers {
  datatype Option<+T> = None | Some(value: T)

  /** An operation's outcome where the recorder distinguishes success, a missing file and every other error. */
  datatype IoResult = IoOk | IoNotFound | IoError
}
