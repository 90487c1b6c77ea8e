/** The HTTPException the web handlers raise: a status code, a detail text and headers. */
module Http {

  datatype HttpError = HttpError(status: int, detail: string, headers: map<string, string>)

  const BadRequest := 400
  const TooManyRequests := 429
  const InternalServerError := 500

  /** What the framework answers when a handler lets an unexpected exception escape. */
  const ServerFault := HttpError(InternalServerError, "Internal Server Error", map[])
}
