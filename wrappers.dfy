/** The optional value used for fields that a JSON document or the command line may omit. */
module Wrappers {

  datatype Option<+T> = None | Some(value: T)
}
