/** The conventional optional value, for nullable columns and absent cache keys. */
module Options {
  datatype Option<+T> = None | Some(value: T)
}
