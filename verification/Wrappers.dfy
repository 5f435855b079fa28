/** The two-way choice used wherever the system has a nullable column, an optional
    JSON member or an operation that may report nothing. */
module Wrappers {

  datatype Option<+T> = None | Some(value: T)
}
