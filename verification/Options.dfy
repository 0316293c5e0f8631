/** The optional value used for steps that a ledger may refuse. */
module Options {
  datatype Option<+T> = None | Some(value: T)
}
