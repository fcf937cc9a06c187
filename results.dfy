/** Optional values and the two ways a conversion can fail. */
module Results {

  datatype Option<+T> = None | Some(value: T)

  /** The errors the converter throws: an emitter handed a primitive it does
      not know, or a conversion asked for a target it does not know. */
  datatype Error = UnsupportedPrimitiveType | UnsupportedTarget

  datatype Result<+T> = Ok(value: T) | Err(error: Error)
}
