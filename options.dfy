/** The optional value used throughout the model: an absent query parameter,
    a failed regular-expression match, a progress that is not a number. */
module Options {
  datatype Option<+T> = None | Some(value: T)
}
