/** Results of operations that either return a value or raise a fixed code. */
module Results {
  datatype Option<+T> = None | Some(value: T) {
    function GetOr(default: T): T { if Some? then value else default }
  }

  datatype Result<+T, +E> = Ok(value: T) | Err(code: E)
}
