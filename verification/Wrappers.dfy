/** Option values, used wherever the source uses a nullable column or field. */
module Wrappers {
  datatype Option<+T> = None | Some(value: T)
}
