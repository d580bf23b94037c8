/** The optional value used for PHP's "value or FALSE" returns. */
module Wrappers {

  datatype Option<+T> = None | Some(value: T)
}
