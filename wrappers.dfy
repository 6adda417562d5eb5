/** Optional values: a JavaScript property that may be `undefined`. */
module Wrappers {

  datatype Option<+T> = None | Some(value: T)

  /** `v || fallback` for a string property: the value when it is a non-empty string, otherwise the fallback. */
  function Or(v: Option<string>, fallback: string): (s: string)
    ensures v.Some? && v.value != "" ==> s == v.value
    ensures (v.None? || v.value == "") ==> s == fallback
  {
    if v.Some? && v.value != "" then v.value else fallback
  }
}
