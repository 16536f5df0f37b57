/** An optional value: `null`/`undefined` in the app is `None`. */
module Wrappers {

  datatype Option<+T> = None | Some(value: T)
  {
    /** The value, or `default` when absent (the app's `x || default` on a nullable field). */
    function GetOr(default: T): T
    {
      match this
      case Some(v) => v
      case None => default
    }
  }
}

/**
 * The hosted backend, seen from the app: every request is an opaque call whose answer is a
 * parameter of the model. The services turn that answer into the `{ success, data }` or
 * `{ success: false, error }` objects the screens inspect.
 */
module Backend {

  /** The answer to one request: the data asked for, or the error object's message. */
  datatype Response<+T> = Data(value: T) | Error(message: string)

  /** What a service method returns to its caller; a thrown error never escapes it. */
  datatype ServiceResult<+T> = Success(data: T) | Failure(error: string)

  /**
   * The `try { if (error) throw error; return { success: true, data } }
   * catch (error) { return { success: false, error: error.message } }` shape shared by every
   * service method.
   */
  function ToServiceResult<T>(r: Response<T>): (s: ServiceResult<T>)
    ensures s.Success? <==> r.Data?
    ensures r.Data? ==> s.data == r.value
    ensures r.Error? ==> s.error == r.message
  {
    match r
    case Data(v) => Success(v)
    case Error(m) => Failure(m)
  }
}
