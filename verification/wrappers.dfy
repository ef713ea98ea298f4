/** The optional value used where the source returns None or leaves a
    reference unset. */
module Wrappers {

  datatype Option<+T> = None | Some(value: T)

}
