/** Optional values, used for the workspace's nullable references
    (the search marker, the file chosen in the upload input). */
module Wrappers {

  datatype Option<+T> = None | Some(value: T)
}
