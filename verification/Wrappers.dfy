/** Optional values, for the source's null and undefined, and small predicates shared by the modules. */
module Wrappers {
  datatype Option<+T> = None | Some(value: T) {
    function GetOr(default: T): T {
      if None? then default else value
    }
  }

  /** JavaScript's view of an optional string as a condition. */
  predicate Truthy(s: Option<string>) {
    s.Some? && s.value != ""
  }

  predicate Distinct<T(==)>(s: seq<T>) {
    forall i, j | 0 <= i < j < |s| :: s[i] != s[j]
  }
}
