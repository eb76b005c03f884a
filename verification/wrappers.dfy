/** The optional value used wherever the Go code returns nil for "absent". */
module Wrappers {

  datatype Option<+T> = None | Some(value: T)
}
