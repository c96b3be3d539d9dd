/** Small shared vocabulary: an optional value for the Go `(value, err)`
    pairs the handlers branch on, and bytes as bounded integers. */
module Prelude {

  /** `None` stands for a Go call that returned a non-nil error. */
  datatype Option<+T> = None | Some(value: T) {
    function GetOr(default: T): T {
      if Some? then value else default
    }
  }

  /** One octet, as Go's `byte`. */
  type byte = b: int | 0 <= b < 256
}
