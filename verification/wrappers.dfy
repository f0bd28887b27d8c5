/** Optional values and (value, error) results, shared by the model: `Option` stands for a Go
    pointer or interface value that may be nil, `Result` for a Go `(value, error)`
    pair of which exactly one half is meaningful. */
module Wrappers {

  datatype Option<+T> = None | Some(value: T)

  datatype Result<+R, +E> = Success(value: R) | Failure(error: E)
}
