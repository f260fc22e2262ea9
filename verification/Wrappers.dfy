/** The optional value used wherever the Go code returns nil, an error or a missing map entry. */
module Wrappers {
  datatype Option<+T> = None | Some(value: T)
}
