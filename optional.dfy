/** Python's `Optional[...]`: a value that may be absent (`None`). */
module Optional {

  datatype Option<+T> = None | Some(value: T)
}
