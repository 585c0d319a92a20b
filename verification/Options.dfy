/** The optional value shared by the modules. */
module Options {

  datatype Option<+T> = None | Some(value: T)
}
