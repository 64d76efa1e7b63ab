/** Small vocabulary shared by every component of the model. */
module Common {

  datatype Option<+T> = None | Some(value: T)

  /** How a write-to-temporary, fsync, rename, fsync-directory sequence can end.
      `Lost` leaves the old file; `Unproven` has renamed the new file into place
      but failed to fsync the directory, so the caller sees an error; `Durable`
      is the only outcome reported as success. */
  datatype WriteOutcome = Lost | Unproven | Durable

  function Max(a: int, b: int): (m: int)
    ensures m >= a && m >= b && (m == a || m == b)
  {
    if a < b then b else a
  }
}
