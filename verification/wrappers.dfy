/** The optional value used for every `Option<…>` of the service. */
module Wrappers {

  datatype Option<+T> = None | Some(value: T)
}
