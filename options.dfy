/** The optional-value datatype used for Python's `Optional[...]` arguments. */
module Options {

  datatype Option<+T> = None | Some(value: T)

}
