/** Failure-carrying values shared by every layer of the model: Go's `(value, error)` pairs and
    nil-able pointers become `Result` and `Option`. */
module Results {

  /** A value that may be absent (Go's nil pointer or nil error). */
  datatype Option<+T> = None | Some(value: T)

  /** A Go `error`. Messages are the text `Error()` would return; `NotFound` is the store's
      answer for a missing key, whose exact text belongs to the ledger library and is not modelled. */
  datatype Error = Message(text: string) | NotFound(key: string)

  /** The outcome of an operation that returns an entity or an error, never both. */
  datatype Result<+T> = Ok(value: T) | Err(error: Error)
}
