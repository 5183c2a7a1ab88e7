/** Values shared by every part of the model. */
module Wrappers {

  /** A value that may be absent: a nullable column, an optional parameter,
      a query that returned no row. */
  datatype Option<T> = None | Some(value: T)

  /** How a call into the database or the storage service ended when the caller
      only looks at its `error` field: it succeeded, or it reported a message. */
  datatype Outcome = Success | Failure(message: string)
}
