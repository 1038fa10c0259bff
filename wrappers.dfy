/** Optional values and results with an error, as the plugin's NULL returns and FALSE exits need. */
module Wrappers {

  /** A value that may be missing, like a `gchar *` that may be NULL. */
  datatype Option<+T> = None | Some(value: T)

  /** A value or the reason it could not be produced. */
  datatype Result<+R, +E> = Success(value: R) | Failure(error: E)
}
