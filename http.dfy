/** The HTTP error an endpoint answers with: a status code and a detail text. */
module Http {

  datatype HttpError = HttpError(status: int, detail: string)

  const NotFound := 404
  const BadRequest := 400
  const Forbidden := 403
  const Unprocessable := 422
  const ServerError := 500
}
