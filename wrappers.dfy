/** The optional value shared by the model: the widget's focus and
    JavaScript's `undefined` on an array read that misses. */
module Wrappers {
  datatype Option<T> = None | Some(value: T)
}
