/** Optional values and success/failure results shared by the whole model. */
module Results {

  /** JavaScript `undefined` (None) or a present value. */
  datatype Option<+T> = None | Some(value: T)

  /** A computed value, or the error the source throws instead of returning. */
  datatype Result<+T, +E> = Ok(value: T) | Err(error: E)
}
