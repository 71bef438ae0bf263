/** An optional value, for JavaScript's `undefined` props and out-of-range lookups. */
module Wrappers {

  datatype Option<T> = None | Some(value: T)
}
