/** A value or nothing. */
module Options {

  datatype Opt<T> = None | Some(v: T)
}
