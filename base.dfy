/** Small value types shared by both emitters: Rust's `Option`, a
    `Result` for the conditions under which the Rust code panics, the
    outcome of a dump, and the integer widths the XML attributes decode to. */
module Base {

  datatype Option<+T> = None | Some(value: T) {
    /** Rust's `Option::unwrap_or`. */
    function UnwrapOr(default: T): T {
      match this
      case Some(v) => v
      case None => default
    }
  }

  datatype Result<+T, +E> = Ok(value: T) | Err(error: E)

  /** What a dump reports: it ran to the end, or it stopped at a fault. */
  datatype Outcome<+E> = Pass | Fail(error: E)

  /** Rust `i32`. */
  type i32 = x: int | -0x8000_0000 <= x < 0x8000_0000

  /** Rust `u32`. */
  type u32 = x: int | 0 <= x < 0x1_0000_0000
}
