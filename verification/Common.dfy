/** Results and optional values, shared by every component. */
module Common {
  datatype Option<+T> = None | Some(value: T)

  datatype Result<+T, +E> = Success(value: T) | Failure(error: E)
}

/** What a person may be, and whether they may sign in. */
module People {
  datatype Kind = Owner | Admin | Guest

  datatype Status = Invited | Active | Suspended
}
