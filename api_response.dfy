/**
 * The uniform JSON envelope every endpoint answers with
 * (apps/server/src/utils/ApiResponse.ts), and the HTTP response that
 * carries it. The construction timestamp is not modelled.
 */
module Envelope {
  import opened Wrappers

  /** One entry of an envelope's `errors` list. */
  datatype FieldError = FieldError(field: string, message: string)

  /**
   * `new ApiResponse(success, message, data, errors)`: the datatype
   * constructor stores its four arguments as they are; `undefined` is None.
   */
  datatype ApiResponse<T> = ApiResponse(
    success: bool,
    message: string,
    data: Option<T>,
    errors: Option<seq<FieldError>>)

  /** `res.status(status).json(body)`. */
  datatype HttpResponse<T> = HttpResponse(status: int, body: ApiResponse<T>)

  /** `ApiResponse.success(message, data)`. */
  function Success<T>(message: string, data: Option<T>): (r: ApiResponse<T>)
    ensures r.success && r.message == message && r.data == data && r.errors.None?
  {
    ApiResponse(true, message, data, None)
  }

  /** `ApiResponse.error(message, errors)`. */
  function Error<T>(message: string, errors: Option<seq<FieldError>>): (r: ApiResponse<T>)
    ensures !r.success && r.message == message && r.data.None? && r.errors == errors
  {
    ApiResponse(false, message, None, errors)
  }

  /** A success envelope and an error envelope can never be confused by their flag. */
  lemma SuccessAndErrorDiffer<T>(m1: string, d: Option<T>, m2: string, e: Option<seq<FieldError>>)
    ensures Success(m1, d).success != Error<T>(m2, e).success
    ensures Success(m1, d) != Error(m2, e)
  {
  }
}
