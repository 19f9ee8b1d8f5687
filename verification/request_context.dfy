/**
 * The slice of a request the middleware sees: its Authorization header and
 * its mutable locals, plus the middleware's verdict.
 */
module RequestContext {
  import Jwt

  /** A value stored in the request locals. */
  datatype Local = TextLocal(text: string) | ClaimsLocal(claims: Jwt.Claims)

  /** A middleware either passes the request on or answers it with an error. */
  datatype Reply = Next | Reject(status: int, error: string)

  class Ctx {
    const authorization: string
    var locals: map<string, Local>

    constructor (authorization: string, locals: map<string, Local>)
      ensures this.authorization == authorization && this.locals == locals
    {
      this.authorization := authorization;
      this.locals := locals;
    }
  }
}
