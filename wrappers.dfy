/** Optional values and value-or-error results, as the library's `null`-or-value
    and `{ value }`-or-`{ error }` return shapes. */
module Wrappers {

  /** `None` stands for JavaScript's `null`/`undefined`. */
  datatype Option<+T> = None | Some(value: T)

  /** The shape `{ value }` or `{ error }` returned by option-value parsing. */
  datatype Result<+T, +E> = Ok(value: T) | Err(error: E)
}
