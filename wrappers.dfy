/** Optional values, used for Swift optionals (`URL?`, `Data?`, `Error?`). */
module Wrappers {

  datatype Option<+T> = None | Some(value: T)
}
