/** The optional value used for the HUD and toast elements, which the
    debug module holds as "an element or null". */
module Wrappers {
  datatype Option<T> = None | Some(value: T)
}
