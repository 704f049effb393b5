/** Values that stand for Python's `None` and for the exceptions the crawler
    lets escape. A raised exception becomes a `Failure` carrying what raised. */
module Common {

  /** `None` or a present value. */
  datatype Option<+T> = None | Some(value: T)

  /** The exceptions the crawler does not catch. */
  datatype Error =
    | ValueError(reason: string)   // e.g. unpacking `zip(*[])` into two names
    | KeyError(key: string)        // subscripting a dictionary with an absent key
    | RequestFailed(url: string)   // fetching a listing page raised

  /** A computation that either produced a value or raised. */
  datatype Result<+T> = Success(value: T) | Failure(error: Error)
}
