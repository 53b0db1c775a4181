/** An optional value, standing for a DOM lookup or attribute read that may yield `null`. */
module Wrappers {
  datatype Option<+T> = None | Some(value: T)
}
