/** Optional values and the outcome of one request to the API. */
module Outcomes {

  /** A value that may be missing: an absent JSON key, `null`, or a lookup that found nothing. */
  datatype Option<+T> = None | Some(value: T)

  /** What a route answers, without the HTTP plumbing: 201 with the stored record, 200 with a
      body, or 400 / 404 with the error message the route puts in `{ error: ... }`. */
  datatype Response<+T> =
    | Created(value: T)
    | Ok(value: T)
    | BadRequest(error: string)
    | NotFound(error: string)
}
