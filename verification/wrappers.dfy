/** JavaScript's optional values (a field that may be `undefined`) and its truthiness. */
module Wrappers {

  /** `None` is a field left `undefined`; `Some(v)` is a field holding `v`. */
  datatype Option<T> = None | Some(value: T)

  /** The held value if there is one, else `fallback`: what a spread or `??` yields. */
  function Otherwise<T>(o: Option<T>, fallback: T): T {
    if o.Some? then o.value else fallback
  }

  /** JavaScript truthiness of an optional string: `undefined` and `""` are falsy. */
  predicate Truthy(s: Option<string>) {
    s.Some? && s.value != ""
  }
}
