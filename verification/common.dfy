/**
 * Vocabulary shared by every module of the model: optional values, results
 * standing in for Go's `(value, error)` pairs, and the conventions for time and
 * byte strings.
 */
module Common {

  /** A value that may be absent (a Go `ok == false` lookup, a nil pointer). */
  datatype Option<+T> = None | Some(value: T)

  /** A Go `(value, error)` pair where exactly one side is meaningful. */
  datatype Result<+T, +E> = Ok(value: T) | Err(error: E)

  /** A Go function that returns only an `error`. */
  datatype Outcome<+E> = Pass | Fail(error: E)

  /**
   * Wall-clock time in whole seconds since Go's zero `time.Time`
   * (January 1, year 1, UTC), so that `IsZero()` is `t == ZeroTime`.
   */
  type Instant = int

  const ZeroTime: Instant := 0

  /** One `[0-9a-fA-F]` character, as both the UUID pattern and URL unescaping accept it. */
  predicate IsHexDigit(c: char) {
    ('0' <= c <= '9') || ('a' <= c <= 'f') || ('A' <= c <= 'F')
  }

  /**
   * A Go string is a sequence of bytes and `len` counts bytes. Where that
   * matters the model stores one byte per char, so every char is below 256.
   */
  type ByteString = s: string | forall i | 0 <= i < |s| :: s[i] as int < 256
}
