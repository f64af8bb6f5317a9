/** std::optional. */
module Options {
  datatype Option<T> = None | Some(value: T)
}
