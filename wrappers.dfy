/** The optional-value datatype used for a file that may not exist and for
    optional schema settings. */
module Wrappers {
  datatype Option<+T> = None | Some(value: T)
}
