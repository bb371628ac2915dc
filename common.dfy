/**
 * Shared vocabulary of the model: optional values, fallible results and the
 * fixed-width integers that appear in the Rust source.
 */
module Common {

  /** Rust's `Option<T>`. */
  datatype Option<+T> = None | Some(value: T) {

    /** `Option::or`: this value when present, otherwise `other`. */
    function Or(other: Option<T>): Option<T> {
      if Some? then this else other
    }
  }

  /**
   * Rust's `anyhow::Result<T>`: an error is represented by the text that the
   * program would display for it.
   */
  datatype Result<+T> = Ok(value: T) | Err(msg: string) {

    /** Together with `PropagateFailure` and `Extract`: Rust's `?` operator, written `:-`. */
    predicate IsFailure() {
      Err?
    }

    function PropagateFailure<U>(): Result<U>
      requires Err?
    {
      Err(msg)
    }

    function Extract(): T
      requires Ok?
    {
      value
    }
  }

  /** `anyhow::Result<()>`. */
  datatype Outcome = Pass | Fail(msg: string)

  /**
   * The text shown for an error to which `anyhow::Context::context` added
   * `ctx` (anyhow's alternate display: the context, then the cause).
   */
  function WithContext(ctx: string, cause: string): string {
    ctx + ": " + cause
  }

  newtype byte = x: int | 0 <= x < 0x100
  newtype u16 = x: int | 0 <= x < 0x1_0000
  newtype u32 = x: int | 0 <= x < 0x1_0000_0000
  newtype u64 = x: int | 0 <= x < 0x1_0000_0000_0000_0000

  /** `std::num::NonZeroU32`. */
  type NonZeroU32 = x: u32 | x != 0 witness 1

  /** `std::path::PathBuf`, kept as the text of the path. */
  type Path = string
}
