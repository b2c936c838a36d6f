/** The optional value used for absent fields and absent storage entries. */
module Options {

  datatype Option<T> = None | Some(value: T)
}
