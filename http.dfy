/** The HTTP values the controllers and services hand back to the framework. */
module Http {
  import opened Common

  const StatusOk := 200
  const StatusCreated := 201
  const StatusNoContent := 204
  const StatusBadRequest := 400
  const StatusNotFound := 404

  /** Data of a `JsonResponse`: null data (sent as `{}`, or as an empty body
      once a 204 is prepared), an already serialized JSON text, or the
      structured validation report built by `ValidationErrorService`. */
  datatype JsonBody =
    | NullData
    | RawJson(json: string)
    | ErrorReport(status: string, errors: map<string, string>)

  /** A `JsonResponse`; `location` is the `Location` header when one is set. */
  datatype JsonResponse = JsonResponse(status: int, body: JsonBody, location: Option<string>)

  /** Symfony's `HttpException`: the kernel answers with `statusCode` and
      shows `message` as the error detail. */
  datatype HttpException = HttpException(statusCode: int, message: string)
}
