/** The optional value used for "no hit", "nothing sent" and similar results. */
module Options {
  datatype Option<T> = None | Some(value: T)
}
