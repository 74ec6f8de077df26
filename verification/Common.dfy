/** Small value types shared by the other modules. */
module Common {

  datatype Option<+T> = None | Some(value: T)

  /** A byte of a wire message. */
  type byte = x: int | 0 <= x < 256

  /** An unsigned 16-bit integer. */
  type uint16 = x: int | 0 <= x < 65536
}
