/** The error responses of the query layer and the query-string rule the
    endpoints share. */
module Http {

  /** `HTTPException(status_code, detail)`, plus the request validation
      failure FastAPI raises before a handler runs. */
  datatype ApiError =
    | Unprocessable            // 422: a field or query parameter out of bounds
    | NotFound(detail: string) // 404
    | Conflict(detail: string) // 409
    | InternalError            // 500: an exception escaped the handler

  /** `Query(..., min_length=2, max_length=20)` and `Field(min_length=2,
      max_length=20)`. */
  predicate SymbolLengthOk(s: string) {
    2 <= |s| <= 20
  }
}
