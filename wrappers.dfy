/** Small shared value types. */
module Wrappers {

  /** An optional value; `None` stands for a null pointer or an absent entry. */
  datatype Option<+T> = None | Some(value: T)
}
