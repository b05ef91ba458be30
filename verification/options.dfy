/** The optional value used for partial foreign calls (URL parsing, JSON parsing). */
module Options {

  datatype Option<+T> = None | Some(value: T)
}
