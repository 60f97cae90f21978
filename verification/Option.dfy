/** A value or its absence; absence stands for the store's "not found" errors. */
module OptionType {
  datatype Option<+T> = None | Some(value: T)
}
