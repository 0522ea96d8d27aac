/** The error responses of the route handlers: an HTTP status and the JSON
    `error` message. */
module Http {

  datatype ApiError = ApiError(status: nat, message: string)

  const BadRequest := 400
  const Forbidden := 403
  const NotFound := 404
  const Conflict := 409
  const InternalError := 500
}
