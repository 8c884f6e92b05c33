/** Optional values: `None` stands for a JavaScript `undefined` (a field that
    the JSON record does not carry) or for `NaN` (a number that could not be
    computed). */
module Wrappers {

  datatype Option<+T> = None | Some(value: T)
}
