/** Optional values: the Listbox selection, which is either one row or nothing. */
module Wrappers {

  datatype Option<+T> = None | Some(value: T)
}
