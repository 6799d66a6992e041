/** Values shared by every flow: optional values, the error surface of the
    service (an HTTP status class plus the reason the guard gave), and the
    identity types of a user record. */
module Base {

  datatype Option<+T> = None | Some(value: T)

  /** HTTP status classes the services throw with `AppError`. */
  datatype Status = BadRequest | Unauthorized | Forbidden | NotFound

  /** Which guard fired; stands for the human-readable message of the error. */
  datatype Reason =
    | UserNotFound
    | UserDeleted
    | UserBlocked
    | AlreadyVerified
    | NotVerified
    | OtpNotFound
    | OtpMismatch
    | PasswordMismatch
    | ConfirmMismatch
    | StaleToken
    | CategoryNotFound
    | CategoryDeleted
    | CategoryAlreadyDeleted

  /** `AppError(status, message)`, or the exception `jwt.verify` throws when a
      token was not signed with the secret the flow verifies against. */
  datatype Error = AppError(status: Status, reason: Reason) | TokenRejected

  datatype Result<+T> = Success(value: T) | Failure(error: Error)

  type Email = string
  type UserId = nat

  datatype Role = UserRole | AdminRole | SuperAdminRole
}
