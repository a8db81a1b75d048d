/** Presence, absence and failure, shared by every module. */
module Options {

  datatype Option<+T> = None | Some(value: T)

  /** An error as the code can tell it apart: whether it is the "player is online"
      error, and its message text. */
  datatype Error = Error(online: bool, message: string)
}
