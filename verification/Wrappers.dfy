/** Optional values and results, shared by every module. */
module Wrappers {
  datatype Option<+T> = None | Some(value: T)

  datatype Result<+T, +E> = Ok(value: T) | Err(error: E)
}

/** Code-point facts that several string rules depend on. */
module Characters {
  /** The code points that JavaScript's `trim` and `\s` treat as white space. */
  predicate IsWhiteSpace(code: int) {
    || 9 <= code <= 13
    || code in {32, 160, 5760, 8232, 8233, 8239, 8287, 12288, 65279}
    || 8192 <= code <= 8202
  }

  /** `value.trim().length > 0` */
  predicate NotBlank(s: string) {
    exists i | 0 <= i < |s| :: !IsWhiteSpace(s[i] as int)
  }
}
