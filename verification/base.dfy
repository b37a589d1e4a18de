/** Shared vocabulary of the inventory model: optional values, error-or-value
    results, and the opaque document identities the database hands out. */
module Base {

  /** A value that may be missing (a JavaScript `null`/`undefined`). */
  datatype Option<+T> = None | Some(value: T) {
    function GetOr(default: T): T {
      match this
      case Some(v) => v
      case None => default
    }
  }

  /** Either the value an operation produced or the error it reported. */
  datatype Result<+R, +E> = Success(value: R) | Failure(error: E)

  /** Document identities (MongoDB ObjectIds), kept opaque. */
  type ProductId = nat
  type SupplierId = nat
  type CategoryId = nat
  type UserId = nat

  /** Creation time, a monotone counter standing in for `createdAt`. */
  type Timestamp = nat
}
