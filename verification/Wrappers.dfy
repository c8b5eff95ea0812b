/** An optional value: the source's nil, error return or run-time panic, as each user says. */
module Wrappers {

  datatype Option<+T> = None | Some(value: T)
}
