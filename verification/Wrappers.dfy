/** Optional values and success-or-error results, shared by every module of the project. */
module Wrappers {
  datatype Option<+T> = None | Some(value: T)

  datatype Result<+T, +E> = Ok(value: T) | Err(error: E)

  /** Truth of a Python value of type `str | None`: present and not empty. */
  predicate NonEmpty(s: Option<string>) {
    s.Some? && s.value != ""
  }
}
