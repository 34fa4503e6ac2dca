/** The optional value a form read returns: `None` where the page yields `null`. */
module Wrappers {

  datatype Option<+T> = None | Some(value: T)
}
