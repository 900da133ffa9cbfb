/** An optional value: the model's "not found" that is kept apart from the sentinel text. */
module Wrappers {

  datatype Option<+T> = None | Some(value: T)
}
