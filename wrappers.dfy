/** Small shared wrapper types. */
module Wrappers {

  /** An optional value: `None` stands for a null pointer or an absent buffer. */
  datatype Option<+V> = None | Some(value: V)
}
