/** What several parts share: an optional value, and the size of a machine word. */
module Basics {

  datatype Option<+T> = None | Some(value: T)

  /** 2^32: words are the numbers below. */
  const WORD := 0x1_0000_0000
}
