/** The optional value shared by the model: `None` stands for JavaScript's
    `null` / `undefined`, or for text that does not parse. */
module Wrappers {
  datatype Option<+T> = None | Some(value: T)
}
