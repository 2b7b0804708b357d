/** Stock optional-value datatype used for the source's "no result" paths. */
module Wrappers {

  datatype Option<+T> = None | Some(value: T)
}
