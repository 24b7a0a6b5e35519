/** What several modules need: optional values and bytes as numbers. */
module Basics {

  datatype Option<+T> = None | Some(value: T)

  type Octet = x: int | 0 <= x < 256
}
