/**
 * The second copy of bearer authentication: the same checks and messages,
 * but only `user_id` and `role_id` are stored, never `claims`.
 */
module MidelewareAuth {
  import opened Wrappers
  import opened Jwt
  import opened RequestContext
  import AuthMiddleware

  /** JWTAuth: on success stores `user_id` and `role_id` only, then passes the request on. */
  method JWTAuth(ctx: Ctx, validate: string -> Option<Claims>) returns (reply: Reply)
    modifies ctx
    ensures AuthMiddleware.Authenticate(ctx.authorization, validate).Failure? ==>
      reply == Reject(401, AuthMiddleware.Authenticate(ctx.authorization, validate).error) && ctx.locals == old(ctx.locals)
    ensures AuthMiddleware.Authenticate(ctx.authorization, validate).Success? ==>
      var c := AuthMiddleware.Authenticate(ctx.authorization, validate).value;
      reply == Next && ctx.locals == old(ctx.locals)["user_id" := TextLocal(c.userId)]["role_id" := TextLocal(c.roleId)]
  {
    var auth := ctx.authorization;
    if auth == "" {
      return Reject(401, "missing authorization");
    }
    var parts := AuthMiddleware.SplitN2(auth);
    if |parts| != 2 || parts[0] != "Bearer" {
      return Reject(401, "invalid authorization");
    }
    var validated := validate(parts[1]);
    if validated.None? {
      return Reject(401, "invalid token");
    }
    ctx.locals := ctx.locals["user_id" := TextLocal(validated.value.userId)];
    ctx.locals := ctx.locals["role_id" := TextLocal(validated.value.roleId)];
    reply := Next;
  }
}
