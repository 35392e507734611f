/** The optional value used for the source's `T | null` fields and `T | undefined` results. */
module Options {

  datatype Option<+T> = None | Some(value: T)
}
