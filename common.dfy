/** Shared value types of the client: optional values (`undefined`/`null`),
    identifiers, and the `{ success: true } | { error: '...' }` objects the
    hooks return to their callers. */
module Common {

  /** Identifiers are the database's opaque uuid strings. */
  type Id = string

  /** A value that may be `undefined` or `null` on the TypeScript side. */
  datatype Option<+T> = None | Some(value: T) {
    function GetOr(default: T): T {
      match this
      case Some(v) => v
      case None => default
    }
  }

  /** A notice a page shows: `toast({ title, description, variant })`, where
      `destructive` is the error style. */
  datatype Toast = Toast(title: string, description: string, destructive: bool)

  /** The `{ success: true }` / `{ error: message }` return objects. */
  datatype Outcome = Success | Failure(error: string)

  /** A success that carries a value (`{ url }`, `{ conversation }`) or an error. */
  datatype Result<+T> = Ok(value: T) | Err(error: string)

  /** JavaScript truthiness of an optional string: `undefined` and `''` are falsy. */
  predicate Truthy(s: Option<string>) {
    s.Some? && s.value != ""
  }

  /** `s || fallback` for an optional string. */
  function OrElse(s: Option<string>, fallback: string): (r: string)
    ensures Truthy(s) ==> r == s.value
    ensures !Truthy(s) ==> r == fallback
  {
    if Truthy(s) then s.value else fallback
  }

  /** `s || undefined` for a form string, and `xs.length > 0 ? xs : undefined`
      (or `: null`) for a list: the empty value becomes absent. */
  function NonEmptyOrNone<T>(s: seq<T>): (r: Option<seq<T>>)
    ensures r.None? <==> |s| == 0
    ensures r.Some? ==> r.value == s
  {
    if |s| == 0 then None else Some(s)
  }
}
