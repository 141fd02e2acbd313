/** The optional value used throughout the model. For a JavaScript value,
    `None` stands for `undefined` (a lookup that found nothing). */
module Wrappers {
  datatype Option<+T> = None | Some(value: T)
}
