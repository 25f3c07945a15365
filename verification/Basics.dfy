/** Definitions that several modules share. */
module Basics {

  datatype Option<+T> = None | Some(value: T)

  const MIN_INT64 := -0x8000_0000_0000_0000
  const MAX_INT64 := 0x7fff_ffff_ffff_ffff
}
