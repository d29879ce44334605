/** An optional value: `None` plays the part of a C null pointer. */
module Options {

  datatype Option<+T> = None | Some(value: T)

}
