/** Outcomes of the store's request handlers.

    A handler either returns a response body or raises an HTTP error; the
    model returns the body in `Ok` and the status code of the raised error in
    `Err`. */
module Http {

  /** Status codes the handlers raise. */
  const BadRequest: int := 400
  const Unauthorized: int := 401
  const Forbidden: int := 403
  const NotFound: int := 404

  /** A response body, or the status code of the error the handler raised. */
  datatype Result<T> = Ok(value: T) | Err(status: int)
}
