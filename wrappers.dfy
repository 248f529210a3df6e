/** The optional value used for Python's "nothing here" results
    (an empty dict, a min over an empty generator). */
module Wrappers {

  datatype Option<+T> = None | Some(value: T)
}
