/** The optional value returned where the runtime uses `std::optional` or a lookup that may miss. */
module Options {
  datatype Option<+T> = None | Some(value: T)
}
