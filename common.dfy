/** Failure-carrying values shared by every module of the model: Go's
    `(value, error)` pairs become `Result`, a bare `error` return becomes
    `Outcome`, and a possibly-nil pointer result becomes `Option`. */
module Common {

  datatype Option<+T> = None | Some(value: T)

  datatype Result<+T> = Success(value: T) | Failure(error: Error)

  datatype Outcome = Pass | Fail(error: Error)

  /** The errors the core can report.  Reading a file that the content map
      does not hold is a `ReadError`; a JSON decoding failure (whose details
      belong to encoding/json, outside the model) is a `DecodeError`; a lookup
      that fails with a formatted message is a `Message`. */
  datatype Error =
    | ReadError(path: string)
    | DecodeError(detail: string)
    | Message(text: string)
}
