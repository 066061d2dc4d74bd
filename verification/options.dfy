/** The optional value used wherever the shell works with a possibly-NULL pointer. */
module Options {

  datatype Option<+T> = None | Some(value: T)

}
