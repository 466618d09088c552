/** The optional value returned by a search that may find nothing (Python's `None`). */
module Options {

  datatype Option<+T> = None | Some(value: T)
}
