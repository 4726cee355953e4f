/** The optional value used throughout the model: a package whose location lookup failed,
    a missing data folder, an unknown download total. */
module Options {
  datatype Option<+T> = None | Some(value: T)
}
