/** The usual optional-value datatype, used for "found at index k" and for a storage key that may be absent. */
module Options {

  datatype Option<+T> = None | Some(value: T)
}
