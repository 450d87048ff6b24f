/** What every module shares: optional values, and the bodies and answers of HTTP routes. */
module Prelude {
  /** An optional value: the source's `undefined` and `null`. */
  datatype Option<+T> = None | Some(value: T)

  /** A value in a request body. */
  datatype Json = Number(value: real) | Text(text: string) | List(items: seq<Json>) | Other

  /** How a route answered; a conflict may say with what. */
  datatype Reply<+T, +C> = Ok200(body: T) | BadRequest400 | Conflict409(detail: C)

  /** A non-empty string. */
  predicate IsName(j: Json) {
    j.Text? && j.text != ""
  }

  function Max(a: nat, b: nat): nat {
    if a < b then b else a
  }
}
