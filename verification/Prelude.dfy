/** The optional value shared by every module: Python's `None` and TypeScript's `null`. */
module Prelude {

  datatype Option<+T> = None | Some(value: T)

  /** Python truthiness of an optional string: present and not empty. */
  predicate Truthy(s: Option<string>) {
    s.Some? && s.value != ""
  }

  /** Python's `s or ""`. */
  function OrEmpty(s: Option<string>): string {
    if s.Some? then s.value else ""
  }
}
