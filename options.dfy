/** The optional-value datatype used throughout the model. */
module Options {

  /** `None` stands for a missing value: an absent request field, or an
      Invalid Date where a time value is expected. */
  datatype Option<+T> = None | Some(value: T)
}
