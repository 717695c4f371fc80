/** Optional values: the model's stand-in for a Python lookup or conversion
    that may raise (a missing key, a null, a failed `int(...)`). */
module Wrappers {

  datatype Option<+T> = None | Some(value: T)
}
