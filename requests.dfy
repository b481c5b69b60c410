/**
 * Request bodies as the two result/share routes see them: each field is absent
 * (`undefined`) or a JSON value, and the routes test them for JavaScript
 * falsiness or for `== null`.
 */
module Requests {
  import opened Wrappers

  /** A JSON value; arrays and objects are all truthy, so one case stands for them. */
  datatype Json = JNull | JBool(b: bool) | JNum(n: int) | JStr(s: string) | JComposite

  /** A field of a request body: `None` is `undefined`. */
  type Field = Option<Json>

  /** `!v`: undefined, null, false, 0 and the empty string. */
  predicate Falsy(v: Field)
  {
    match v
    case None => true
    case Some(j) => j == JNull || j == JBool(false) || j == JNum(0) || j == JStr("")
  }

  /** `v == null`: only undefined and null. */
  predicate Nullish(v: Field)
  {
    v.None? || v.value == JNull
  }

  /** Loose equality with null is stricter than falsiness: every nullish field is falsy, not conversely. */
  lemma NullishIsFalsy(v: Field)
    ensures Nullish(v) ==> Falsy(v)
    ensures Falsy(v) && !Nullish(v) <==> v.Some? && v.value in {JBool(false), JNum(0), JStr("")}
  {
  }

  /** The 400 message of both routes for a game id `ObjectId.isValid` refuses. */
  const InvalidGameId := "gameId inválido."

  /** A route's answer: a 400 with its message, or what it goes on with: the document to insert or the list to send. */
  datatype Reply<T> = BadRequest(message: string) | Ok(value: T)
}
