/** Small value types shared by the whole model: optional values, the errno
    codes the RFCOMM engine tells apart, and the success/failure status every
    callback and write returns (0 or -1 with errno set, in the C code). */
module Sys {

  datatype Option<+T> = None | Some(value: T)

  /** The errno values the session engine distinguishes. Any other code is
      `Other`. */
  datatype Errno =
    | EConnAborted
    | EConnReset
    | ENotConn
    | ENotSup
    | ETimedOut
    | EBadMsg
    | EIo
    | Other(code: int)

  /** Result of a write or of a message callback: 0, or -1 with errno. */
  datatype Status = Ok | Err(errno: Errno)
}
