/** What the endpoints raise as `HTTPException(status_code=..., detail=...)`. */
module Http {
  datatype HttpError = HttpError(status: int, detail: string)
}
