/** A value that may be missing: the source's null pointers, empty optionals
    and out-parameters that are left unset when a call returns false. */
module Options {
  datatype Option<+T> = None | Some(value: T)
}
