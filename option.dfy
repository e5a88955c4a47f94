/** An optional value, for searches that may find nothing and reads that may run past the end. */
module Opt {
  datatype Option<T> = None | Some(value: T)
}
