/** Shared by every module: the Go (value, error) and (value, ok) pairs, and what the
    environment may answer. */
module Wrappers {

  datatype Option<+T> = None | Some(value: T)

  datatype Result<+T> = Ok(value: T) | Err(error: string)

  /** Whether an operation of a database, a node or the network fails. */
  method Fails(reliable: bool) returns (failed: bool)
    ensures reliable ==> !failed
  {
    failed := *;
    if reliable {
      failed := false;
    }
  }

  method AnyText() returns (s: string)
  {
    s := *;
  }
}
