/** An optional value, shared by the modules that hold or return one. */
module Options {

  datatype Option<T> = None | Some(value: T)
}
