/** Small shared vocabulary: optional values and bytes. */
module Common {

  /** A value that may be absent (a C# `null` reference, a `Try...` call that failed). */
  datatype Option<+T> = None | Some(value: T) {
    function GetOr(default: T): T {
      match this
      case Some(v) => v
      case None => default
    }
  }

  /** An unsigned 8-bit value, as in a C# `byte[]`. */
  newtype byte = x: int | 0 <= x < 256
}
