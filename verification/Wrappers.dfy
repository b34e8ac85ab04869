/** Option and Result, as the other modules use them. */
module Wrappers {
  datatype Option<+T> = None | Some(value: T)

  /** The error kinds of `StorageError` that the modelled code distinguishes. */
  datatype StorageError =
    | InvalidStorageKey
    | MissingBlob
    | PreconditionFailed
    | Io
    | Provider

  datatype Result<+T> = Ok(value: T) | Err(error: StorageError)
}
