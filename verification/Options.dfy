/** The optional value every part of the model shares. */
module Options {
  datatype Option<T> = None | Some(value: T)
}
