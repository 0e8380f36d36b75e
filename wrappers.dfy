/** Optional values: the model's stand-in for a JSON key that may be absent
    (Python's `dict.get(...)` returning `None`). */
module Wrappers {

  datatype Option<+T> = None | Some(value: T)
}
