/**
 * Bearer authentication: the Authorization header must be "Bearer " followed
 * by a token that the abstract validator accepts; on success the claims and
 * the principal are stored in the request locals.
 */
module AuthMiddleware {
  import opened Wrappers
  import opened Jwt
  import opened RequestContext

  /** The index of the first space in `s`, if any. */
  function FirstSpace(s: string): (r: Option<nat>)
    ensures r.None? <==> ' ' !in s
    ensures r.Some? ==> r.value < |s| && s[r.value] == ' ' && ' ' !in s[..r.value]
  {
    if s == [] then None
    else if s[0] == ' ' then Some(0)
    else
      var rest := FirstSpace(s[1..]);
      assert s == [s[0]] + s[1..];
      if rest.None? then None
      else
        assert s[..rest.value + 1] == [s[0]] + s[1..][..rest.value];
        Some(rest.value + 1)
  }

  /** Splitting at the first space into at most two parts. */
  function SplitN2(s: string): (parts: seq<string>)
    ensures 1 <= |parts| <= 2
    ensures |parts| == 1 <==> ' ' !in s
    ensures |parts| == 1 ==> parts[0] == s
    ensures |parts| == 2 ==> parts[0] + " " + parts[1] == s && ' ' !in parts[0]
  {
    match FirstSpace(s)
    case None => [s]
    case Some(i) =>
      assert s == s[..i] + " " + s[i + 1..];
      [s[..i], s[i + 1..]]
  }

  /** The token of an Authorization header, or the error message the request is refused with. */
  function BearerToken(header: string): (r: Result<string, string>)
    ensures header == "" ==> r == Failure("missing authorization")
    ensures header != "" && r.Failure? ==> r.error == "invalid authorization"
  {
    if header == "" then Failure("missing authorization")
    else
      var parts := SplitN2(header);
      if |parts| != 2 || parts[0] != "Bearer" then Failure("invalid authorization")
      else Success(parts[1])
  }

  /**
   * A header is accepted exactly when it starts with "Bearer " (case as
   * written), and the token is all of the rest, further spaces included.
   */
  lemma BearerTokenIsSuffix(header: string)
    ensures BearerToken(header).Success? <==> |header| >= 7 && header[..7] == "Bearer "
    ensures BearerToken(header).Success? ==> BearerToken(header).value == header[7..]
  {
    if header != "" {
      var parts := SplitN2(header);
      if |parts| == 2 && parts[0] == "Bearer" {
        assert header == "Bearer " + parts[1];
        assert header[..7] == "Bearer ";
        assert header[7..] == parts[1];
      }
      if |header| >= 7 && header[..7] == "Bearer " {
        assert header[6] == ' ';
        var i := FirstSpace(header).value;
        assert i == 6;
        assert parts == [header[..6], header[7..]];
      }
    }
  }

  /** Authentication outcome: the validated claims, or the 401 message. */
  function Authenticate(header: string, validate: string -> Option<Claims>): (r: Result<Claims, string>)
    ensures r.Success? <==> BearerToken(header).Success? && validate(BearerToken(header).value).Some?
    ensures r.Success? ==> r.value == validate(BearerToken(header).value).value
    ensures r.Failure? && BearerToken(header).Failure? ==> r.error == BearerToken(header).error
    ensures r.Failure? && BearerToken(header).Success? ==> r.error == "invalid token"
  {
    match BearerToken(header)
    case Failure(e) => Failure(e)
    case Success(token) =>
      match validate(token)
      case None => Failure("invalid token")
      case Some(c) => Success(c)
  }

  /** JWTAuth: on success stores `claims`, `user_id` and `role_id`, then passes the request on. */
  method JWTAuth(ctx: Ctx, validate: string -> Option<Claims>) returns (reply: Reply)
    modifies ctx
    ensures Authenticate(ctx.authorization, validate).Failure? ==>
      reply == Reject(401, Authenticate(ctx.authorization, validate).error) && ctx.locals == old(ctx.locals)
    ensures Authenticate(ctx.authorization, validate).Success? ==>
      var c := Authenticate(ctx.authorization, validate).value;
      reply == Next &&
      ctx.locals == old(ctx.locals)["claims" := ClaimsLocal(c)]["user_id" := TextLocal(c.userId)]["role_id" := TextLocal(c.roleId)]
  {
    var auth := ctx.authorization;
    if auth == "" {
      return Reject(401, "missing authorization");
    }
    var parts := SplitN2(auth);
    if |parts| != 2 || parts[0] != "Bearer" {
      return Reject(401, "invalid authorization");
    }
    var validated := validate(parts[1]);
    if validated.None? {
      return Reject(401, "invalid token");
    }
    var claims := validated.value;
    ctx.locals := ctx.locals["claims" := ClaimsLocal(claims)];
    ctx.locals := ctx.locals["user_id" := TextLocal(claims.userId)];
    ctx.locals := ctx.locals["role_id" := TextLocal(claims.roleId)];
    reply := Next;
  }
}
