/** Value types shared by every component of the marketplace backend:
    optional values, results, the fixed-width integers of the Rust server,
    and the placeholder user every handler acts for. */
module Common {

  /** An optional value (Rust's `Option`). */
  datatype Option<T> = None | Some(value: T) {

    /** The carried value, or `default` when there is none (`unwrap_or`). */
    function GetOr(default: T): T {
      match this
      case Some(v) => v
      case None => default
    }
  }

  /** The outcome of a fallible operation (Rust's `Result`). */
  datatype Result<T, E> = Ok(value: T) | Err(error: E)

  /** Largest value of a Rust `u32`. */
  const U32_MAX: int := 0xFFFF_FFFF

  /** A Rust `u32`: the quantity type of cart lines. */
  type U32 = x: int | 0 <= x <= U32_MAX

  /** Largest value of a Rust `usize` on a 64-bit target. */
  const USIZE_MAX: int := 0xFFFF_FFFF_FFFF_FFFF

  /** A Rust `usize`: the page, limit and count type of catalog search. */
  type Usize = x: int | 0 <= x <= USIZE_MAX

  /** Every HTTP handler acts for this fixed user; there is no authentication. */
  const DemoUser: string := "user123"
}
