/** Optional values: a JavaScript `undefined`, a SQL NULL and a stripped
    JSON key are all `None` here. */
module Wrappers {

  datatype Option<+T> = None | Some(value: T) {

    /** The encapsulated value, or `default` when absent. */
    function GetOr(default: T): T {
      match this
      case Some(v) => v
      case None => default
    }
  }

  /** SQL `COALESCE(preferred, fallback)`: the first argument when it is
      non-NULL, the second otherwise. */
  function Coalesce<T>(preferred: Option<T>, fallback: Option<T>): (r: Option<T>)
    ensures preferred.Some? ==> r == preferred
    ensures preferred.None? ==> r == fallback
    ensures r.None? <==> preferred.None? && fallback.None?
  {
    if preferred.Some? then preferred else fallback
  }

  /** JavaScript truthiness of an optional string: absent and `""` are falsy. */
  predicate Truthy(s: Option<string>) {
    s.Some? && s.value != ""
  }

  /** JavaScript `s || null` on an optional string: falsy becomes absent. */
  function OrNull(s: Option<string>): (r: Option<string>)
    ensures r.Some? <==> Truthy(s)
    ensures r.Some? ==> r == s
  {
    if Truthy(s) then s else None
  }

  /** JavaScript `s || fallback` on an optional string. */
  function OrElse(s: Option<string>, fallback: string): (r: string)
    ensures Truthy(s) ==> r == s.value
    ensures !Truthy(s) ==> r == fallback
  {
    OrNull(s).GetOr(fallback)
  }
}
