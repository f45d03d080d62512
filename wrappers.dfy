/** The optional value used for the nullable fields of a listing. */
module Wrappers {

  datatype Option<+T> = None | Some(value: T)
}
