/** Optional values: a Python `None` or dictionary miss on one side, a present value on the other. */
module Wrappers {

  datatype Option<+T> = None | Some(value: T)
}
