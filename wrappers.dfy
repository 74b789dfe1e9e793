/** Optional values and failure-carrying results, used where the Python code
    returns `None` or raises an exception. */
module Wrappers {

  /** `None` stands for Python's `None`; `Some(v)` for a present value. */
  datatype Option<T> = None | Some(value: T)

  /** The two exceptions the core raises. */
  datatype Exception =
    | ValueError       // change_name was given an empty or absent name
    | KeyError(id: int) // update addressed an id the collection does not hold

  /** `Ok(v)` is a normal return of `v`; `Err(e)` is raising `e`. */
  datatype Result<T> = Ok(value: T) | Err(error: Exception)
}
