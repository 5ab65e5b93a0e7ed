/** Optional values: JavaScript's `undefined` / `null` results and missing fields. */
module Wrappers {

  datatype Option<T> = None | Some(value: T) {

    /** The carried value, or `default` when there is none (`x ?? default`). */
    function GetOr(default: T): T {
      match this
      case Some(v) => v
      case None => default
    }
  }

  /** The truthiness of an optional string: present and not "". */
  predicate Truthy(s: Option<string>) { s.Some? && s.value != "" }

  /** `l && l.length > 0` for an optional list. */
  predicate NonEmptyList<T>(l: Option<seq<T>>) { l.Some? && l.value != [] }
}
