/** Optional values: Ruby's `nil` versus a present value. */
module Optional {
  datatype Option<+T> = None | Some(value: T)
}
