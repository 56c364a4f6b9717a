/** The option type used by every lookup. */
module Wrappers {
  datatype Option<+T> = None | Some(value: T)

  /** The first answer if there is one, else the second. */
  function Or<T>(first: Option<T>, second: Option<T>): Option<T> {
    if first.Some? then first else second
  }
}
