/** Types that several components share. */
module Basics {
  type Byte = bv8

  datatype Option<T> = None | Some(value: T)
}
