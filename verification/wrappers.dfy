/** Python's `None`-or-value results, as the conventional Option datatype. */
module Wrappers {

  datatype Option<+T> = None | Some(value: T)
}
