/** Optional values: an absent row estimate, a declined negotiation, a filter that does not translate. */
module Wrappers {
  datatype Option<+T> = None | Some(value: T)
}
