/** Optional values (a lookup that may miss, a form field that may be absent)
    and results (a request that may be refused). */
module Results {

  datatype Option<T> = None | Some(value: T) {

    /** The value, or `default` when there is none: Python's `dict.get(key, default)`. */
    function GetOr(default: T): T
    {
      match this
      case Some(v) => v
      case None => default
    }
  }

  datatype Result<T, E> = Ok(value: T) | Err(error: E)
}
