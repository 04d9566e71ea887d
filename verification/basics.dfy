/** Types shared by the components. */
module Basics {

  /** Texts, paths, patterns and streams are sequences of bytes, as the source
      compares and splits them. */
  type byte = b: int | 0 <= b < 256
  type Bytes = seq<byte>

  datatype Option<+T> = None | Some(value: T)
}
