/** Outcomes shared by the booking and authentication services. */
module Results {

  /** An entity that a lookup may or may not find. */
  datatype Option<+T> = None | Some(value: T)

  /** The faults the services report to their callers. */
  datatype Error =
    | NotFound            // the booking id is not in the table
    | Forbidden           // the acting user does not own the booking
    | DuplicateAccount    // registration with an email that already has an account
    | InvalidCredentials  // login with an unknown email or a wrong password

  datatype Result<+T> = Ok(value: T) | Err(error: Error)
}
