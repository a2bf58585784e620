/** Values shared by the front end and the back end. */
module Common {

  /** An optional value: Java's null / Optional.empty() and JavaScript's
      null / undefined are `None`. */
  datatype Option<+T> = None | Some(value: T)

  /** The outcome of an operation that may throw: the value, or the message
      of the exception (the services throw RuntimeException(message)). */
  datatype Result<+T> = Ok(value: T) | Err(error: string)

  /** Booking.BookingStatus on the server; the same names travel as strings
      to the browser. */
  datatype BookingStatus = PENDING | CONFIRMED | CANCELLED | COMPLETED

  /** The message of Spring's UnexpectedRollbackException. A notice runs in
      the caller's transaction (both are @Transactional with the default
      REQUIRED propagation), so an exception leaving the notice marks that
      transaction rollback-only even when the caller catches it: the commit
      then throws, and everything the caller changed is undone. */
  const RolledBack := "Transaction silently rolled back because it has been marked as rollback-only"
}
