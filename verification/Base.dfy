/** Failure-carrying datatypes and the widest integer, shared by every module. */
module Base {
  /** The largest 64-bit signed integer. */
  const MAX_INT := 0x7fff_ffff_ffff_ffff

  datatype Option<+T> = None | Some(value: T)

  datatype Result<+T, +E> = Ok(value: T) | Err(error: E)
}
