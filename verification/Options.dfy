/** Values that may be missing: Python's and TypeScript's `None`, `null` and absent keys. */
module Options {

  datatype Option<T> = None | Some(value: T)
}
