/** Values every layer of the service passes around: Go's nil-able results and its errors. */
module Common {

  /** A Go value that may be nil: a pointer result, an error, or a slice (None is the nil slice). */
  datatype Option<+T> = None | Some(value: T)
  {
    function GetOr(default: T): T
    {
      match this
      case Some(v) => v
      case None => default
    }
  }

  /** A value or the error that took its place. */
  datatype Result<+T> = Ok(value: T) | Err(error: Error)

  /** The errors the core produces or forwards. */
  datatype Error =
    | UserNotFound                      // the ErrUserNotFound sentinel: no row has the requested id
    | StorageFailure(reason: string)    // any other database error
    | TransportFailure(reason: string)  // the outbound GET itself failed
    | ReadFailure(reason: string)       // reading the response body failed
    | DecodeFailure(reason: string)     // the body is not JSON of the expected shape
    | IndexOutOfRange                   // the runtime panic of indexing an empty slice
}
