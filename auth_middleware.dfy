/**
 * The Express middlewares `requireAuth` and `optionalAuth`: read the
 * `Authorization` header, extract a Bearer token, resolve it to a user through
 * the auth provider (a parameter here) and attach that user to the request.
 */
module AuthMiddleware {
  import opened Outcomes
  import opened Strings

  /** The scheme prefix both middlewares look for, trailing space included. */
  const BEARER_PREFIX: string := "Bearer "

  const MSG_NO_TOKEN: string := "Token de autorización no proporcionado"
  const MSG_BAD_TOKEN: string := "Token inválido o expirado"
  const MSG_INTERNAL: string := "Error interno de autenticación"

  datatype User = User(id: string, username: Option<string>)

  /** What the auth provider's `getUser(token)` gives back. */
  datatype UserLookup =
    | Resolved(user: User)   // `data.user` is set and there is no error
    | Unresolved             // an error, or no user
    | Threw                  // the call itself threw

  /** What a middleware does with the request: answer it, or pass it on with `next()`. */
  datatype Outcome = Respond(status: int, message: string) | Next

  /**
   * The token both middlewares extract: `None` when the header is missing or
   * does not start with `Bearer `, otherwise `authHeader.split(' ')[1]`, i.e.
   * the text after the prefix up to the next space.
   */
  function BearerToken(header: Option<string>): (t: Option<string>)
    ensures t.Some? <==> header.Some? && StartsWith(header.value, BEARER_PREFIX)
    ensures t.Some? ==>
      var rest := header.value[|BEARER_PREFIX|..];
      ' ' !in t.value && StartsWith(rest, t.value)
      && (|t.value| == |rest| || rest[|t.value|] == ' ')
  {
    if header.None? || !StartsWith(header.value, BEARER_PREFIX) then None
    else
      var h := header.value;
      var rest := h[|BEARER_PREFIX|..];
      assert h == "Bearer" + [' '] + rest;
      SplitAfterField("Bearer", ' ', rest);
      SplitFirstField(rest, ' ');
      Some(Split(h, ' ')[1])
  }

  /** A Bearer header whose token holds no space yields exactly that token. */
  lemma BearerTokenOf(token: string)
    requires ' ' !in token
    ensures BearerToken(Some(BEARER_PREFIX + token)) == Some(token)
  {
    var h := BEARER_PREFIX + token;
    assert h[|BEARER_PREFIX|..] == token;
    assert StartsWith(h, BEARER_PREFIX);
    SplitAfterField("Bearer", ' ', token);
    assert h == "Bearer" + [' '] + token;
    SplitNoSep(token, ' ');
  }

  /** Well-formed headers, on concrete text: `Bearer abc` gives `abc`, `Bearer ` gives `''`. */
  lemma BearerTokenAccepts()
    ensures BearerToken(Some("Bearer abc")) == Some("abc")
    ensures BearerToken(Some("Bearer ")) == Some("")
  {
    BearerTokenOf("abc");
    BearerTokenOf("");
  }

  /** Only the second space-separated field is the token. */
  lemma BearerTokenStopsAtSpace(token: string, more: string)
    requires ' ' !in token
    ensures BearerToken(Some(BEARER_PREFIX + token + " " + more)) == Some(token)
  {
    var h := BEARER_PREFIX + token + " " + more;
    assert h == "Bearer" + [' '] + (token + [' '] + more);
    assert h[|BEARER_PREFIX|..] == token + [' '] + more;
    SplitAfterField("Bearer", ' ', token + [' '] + more);
    SplitAfterField(token, ' ', more);
  }

  /** The scheme is matched case-sensitively and needs its trailing space. */
  lemma BearerTokenRejects()
    ensures BearerToken(Some("bearer abc")) == None
    ensures BearerToken(Some("Bearer")) == None
    ensures BearerToken(None) == None
  {
    assert "bearer abc"[0] != BEARER_PREFIX[0];
  }

  /** The request object the middlewares read and update. */
  class Request {
    const authorization: Option<string>
    var user: Option<User>

    constructor (authorization: Option<string>)
      ensures this.authorization == authorization && user == None
    {
      this.authorization := authorization;
      user := None;
    }
  }

  /**
   * `requireAuth`: a missing or non-Bearer header, or a token that does not
   * resolve, is answered with 401; a failure of the provider call with 500.
   * Only a resolved user is attached, and only then is `next()` reached.
   */
  method RequireAuth(req: Request, getUser: string -> UserLookup) returns (out: Outcome)
    modifies req
    ensures BearerToken(req.authorization).None? ==>
      out == Respond(401, MSG_NO_TOKEN) && req.user == old(req.user)
    ensures BearerToken(req.authorization).Some? ==>
      match getUser(BearerToken(req.authorization).value)
      case Resolved(u) => out == Next && req.user == Some(u)
      case Unresolved => out == Respond(401, MSG_BAD_TOKEN) && req.user == old(req.user)
      case Threw => out == Respond(500, MSG_INTERNAL) && req.user == old(req.user)
    ensures out == Next ==> req.user.Some?
  {
    var token := BearerToken(req.authorization);
    if token.None? {
      return Respond(401, MSG_NO_TOKEN);
    }
    match getUser(token.value)
    case Resolved(u) =>
      req.user := Some(u);
      out := Next;
    case Unresolved =>
      out := Respond(401, MSG_BAD_TOKEN);
    case Threw =>
      out := Respond(500, MSG_INTERNAL);
  }

  /**
   * `optionalAuth`: never answers the request itself; it attaches the user only
   * for a Bearer header whose token resolves, and otherwise leaves it alone.
   */
  method OptionalAuth(req: Request, getUser: string -> UserLookup) returns (out: Outcome)
    modifies req
    ensures out == Next
    ensures req.user ==
      var token := BearerToken(req.authorization);
      if token.Some? && getUser(token.value).Resolved? then Some(getUser(token.value).user)
      else old(req.user)
  {
    var token := BearerToken(req.authorization);
    if token.Some? {
      var found := getUser(token.value);
      if found.Resolved? {
        req.user := Some(found.user);
      }
    }
    out := Next;
  }
}
