/** The usual optional value; None stands for SIZE_MAX or nullptr in the source. */
module Options {
  datatype Option<+T> = None | Some(value: T)
}
