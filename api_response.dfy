/** The REST response envelope and its static factories. */
module ApiResponse {
  import opened Wrappers

  /** The Spring HttpStatus constants the web layer uses. */
  datatype HttpStatus = OK | CREATED | BAD_REQUEST | UNAUTHORIZED | FORBIDDEN | NOT_FOUND | CONFLICT | INTERNAL_SERVER_ERROR
  {
    function Value(): int
    {
      match this
      case OK => 200
      case CREATED => 201
      case BAD_REQUEST => 400
      case UNAUTHORIZED => 401
      case FORBIDDEN => 403
      case NOT_FOUND => 404
      case CONFLICT => 409
      case INTERNAL_SERVER_ERROR => 500
    }
  }

  /** The JSON body; the timestamp field is left out. */
  datatype ApiResponse<T> = ApiResponse(success: bool, data: Option<T>, error: Option<string>, message: Option<string>, status: int)

  /**
   * The shape every factory promises: a success carries no error and a 2xx
   * status, a failure carries no data and a 4xx/5xx status.
   */
  predicate WellFormed<T>(r: ApiResponse<T>)
  {
    && (r.success <==> 200 <= r.status < 300)
    && (r.success ==> r.error.None?)
    && (!r.success ==> r.data.None? && r.status >= 400)
  }

  function Success<T>(data: T): (r: ApiResponse<T>)
    ensures WellFormed(r) && r.success && r.status == 200
    ensures r.data == Some(data) && r.message.None?
  {
    ApiResponse(true, Some(data), None, None, OK.Value())
  }

  function SuccessWithMessage<T>(data: T, message: string): (r: ApiResponse<T>)
    ensures WellFormed(r) && r.success && r.status == 200
    ensures r.data == Some(data) && r.message == Some(message)
  {
    ApiResponse(true, Some(data), None, Some(message), OK.Value())
  }

  function Created<T>(data: T): (r: ApiResponse<T>)
    ensures WellFormed(r) && r.success && r.status == 201
    ensures r.data == Some(data) && r.message.None?
  {
    ApiResponse(true, Some(data), None, None, CREATED.Value())
  }

  function CreatedWithMessage<T>(data: T, message: string): (r: ApiResponse<T>)
    ensures WellFormed(r) && r.success && r.status == 201
    ensures r.data == Some(data) && r.message == Some(message)
  {
    ApiResponse(true, Some(data), None, Some(message), CREATED.Value())
  }

  /** error(...) takes any HttpStatus; the response is well formed when that status is an error status. */
  function Error<T>(error: string, status: HttpStatus): (r: ApiResponse<T>)
    ensures !r.success && r.data.None? && r.status == status.Value()
    ensures r.error == Some(error) && r.message.None?
    ensures WellFormed(r) <==> status.Value() >= 400
  {
    ApiResponse(false, None, Some(error), None, status.Value())
  }

  function ErrorWithMessage<T>(error: string, message: string, status: HttpStatus): (r: ApiResponse<T>)
    ensures !r.success && r.data.None? && r.status == status.Value()
    ensures r.error == Some(error) && r.message == Some(message)
    ensures WellFormed(r) <==> status.Value() >= 400
  {
    ApiResponse(false, None, Some(error), Some(message), status.Value())
  }

  function BadRequest<T>(error: string): (r: ApiResponse<T>)
    ensures WellFormed(r) && !r.success && r.status == 400 && r.error == Some(error)
    ensures r.message.None?
  {
    ApiResponse(false, None, Some(error), None, BAD_REQUEST.Value())
  }

  function NotFound<T>(error: string): (r: ApiResponse<T>)
    ensures WellFormed(r) && !r.success && r.status == 404 && r.error == Some(error)
    ensures r.message.None?
  {
    ApiResponse(false, None, Some(error), None, NOT_FOUND.Value())
  }

  function Conflict<T>(error: string): (r: ApiResponse<T>)
    ensures WellFormed(r) && !r.success && r.status == 409 && r.error == Some(error)
    ensures r.message.None?
  {
    ApiResponse(false, None, Some(error), None, CONFLICT.Value())
  }

  function InternalError<T>(error: string): (r: ApiResponse<T>)
    ensures WellFormed(r) && !r.success && r.status == 500 && r.error == Some(error)
    ensures r.message.None?
  {
    ApiResponse(false, None, Some(error), None, INTERNAL_SERVER_ERROR.Value())
  }
}
