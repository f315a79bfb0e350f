/** Identifiers, optional values and the two failure kinds the services raise. */
module Common {

  /** Database identities (Java `Long` primary keys). */
  type UserId = int
  type PostId = int
  type CommentId = int
  type NotificationId = int

  /** Timestamps, in whole seconds. */
  type Time = int

  datatype Option<T> = None | Some(value: T)

  /** `ResourceNotFoundException` (also raised when no caller is authenticated)
      and `BadRequestException`. */
  datatype Error = NotFound | BadRequest

  datatype Result<T> = Ok(value: T) | Err(error: Error)
}
