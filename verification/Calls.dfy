/** How calls to the database and to Redis can turn out. */
module Calls {

  /** A status write: done; failed; done, but reported as failed. */
  datatype Write = Written | WriteFailed | WriteLost

  /** SETNX on a key that is free: set; an error; set, but an error. */
  datatype Lock = LockSet | LockError | LockLost
}
