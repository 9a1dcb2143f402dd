/** Optional values: a collaborator's result that may be absent (Python's None). */
module Wrappers {

  datatype Option<+T> = None | Some(value: T)
}
