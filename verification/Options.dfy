/** The optional value used for the scripts' `None` and for the daemons' `Option`. */
module Options {
  datatype Option<+T> = None | Some(value: T)
}
