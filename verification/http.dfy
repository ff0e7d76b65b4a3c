/** The shape of every response the bookstore's handlers send. */
module Http {

  /**
   * A response: a success status with its JSON body, or an error status with the
   * `{ message }` body every error carries.
   */
  datatype Reply<+T> = Ok(status: nat, body: T) | Err(status: nat, message: string)

  const OK: nat := 200
  const CREATED: nat := 201
  const BAD_REQUEST: nat := 400
  const UNAUTHORIZED: nat := 401
  const FORBIDDEN: nat := 403
  const NOT_FOUND: nat := 404
  const SERVER_ERROR: nat := 500
}
