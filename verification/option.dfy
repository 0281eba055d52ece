module Optional {
  datatype Option<T> = None | Some(value: T)
}
