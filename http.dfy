/**
 * What an Express middleware tells the client. A middleware keeps running
 * after it answers: it goes on to `next()` unless a later statement in the
 * same middleware throws, and then the route handler does not run. Either
 * way the client only ever receives the first answer, so a middleware, and a
 * chain of them, is modelled by the first verdict it produces.
 */
module Http {

  const BadRequest := 400
  const Unauthorized := 401

  datatype Verdict = Next | Reject(status: int, message: string)

  /** The verdict the client sees when `first` runs before `later`. */
  function Then(first: Verdict, later: Verdict): Verdict
  {
    if first.Reject? then first else later
  }
}
