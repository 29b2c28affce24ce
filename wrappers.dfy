/** The optional value used for JavaScript's nullable fields (`?T`, `null`, `undefined`). */
module Wrappers {

  datatype Option<+T> = None | Some(value: T)
}
