/**
 * The request gate of `middleware/auth.go`: the decision `AuthMiddleware`
 * takes on the Authorization header, and the context value the handlers
 * read back with `UserFromContext`. Signature checking belongs to the JWT
 * library and arrives as a parameter.
 */
module Auth {
  import opened Wrappers
  import opened Text

  const MissingToken := "Missing token"
  const BadFormat := "Invalid authorization header format"
  const Unauthorized := "Unauthorized "

  /** The claims of a token, each value rendered as text. */
  type Claims = map<string, string>

  /**
   * A context key: the middleware's own key type (`contextKey`) or a plain
   * string. Go compares keys by type and value, so the two never meet.
   */
  datatype ContextKey = Typed(name: string) | Plain(name: string)

  const UserKey := Typed("user")

  datatype Context = Context(values: map<ContextKey, Claims>)

  /** `context.WithValue(ctx, userCtxKey, claims)`. */
  function WithUser(ctx: Context, claims: Claims): (r: Context)
    ensures UserKey in r.values && r.values[UserKey] == claims
    ensures forall k :: k in ctx.values && k != UserKey ==> k in r.values && r.values[k] == ctx.values[k]
  {
    Context(ctx.values[UserKey := claims])
  }

  /** `UserFromContext`: the type assertion panics unless the middleware stored claims. */
  function UserFromContext(ctx: Context): (claims: Claims)
    requires UserKey in ctx.values
    ensures claims == ctx.values[UserKey]
  {
    ctx.values[UserKey]
  }

  /** What the handlers read is what the middleware stored. */
  lemma UserRoundTrip(ctx: Context, claims: Claims)
    ensures UserFromContext(WithUser(ctx, claims)) == claims
  {
  }

  /** A lookup under the plain string "user" does not see the middleware's claims. */
  lemma PlainKeyMisses(ctx: Context, claims: Claims)
    requires Plain("user") !in ctx.values
    ensures Plain("user") !in WithUser(ctx, claims).values
  {
  }

  /** What `jwt.ParseWithClaims` reports: an error, or a token with its validity and claims. */
  datatype ParseResult = ParseError | Parsed(valid: bool, claims: Claims)

  /**
   * What the middleware does: refuse with 401 and a message, pass the request
   * on with the claims in its context, or (a token parsed without error yet
   * not valid) write nothing and call nothing.
   */
  datatype Decision = Refuse(code: int, message: string) | Forward(ctx: Context) | Silent

  /** The header check: exactly two space-separated parts, the first "Bearer". */
  function BearerToken(header: string): (r: Option<string>)
    ensures r.Some? ==> header == "Bearer " + r.value && ' ' !in r.value
    ensures r.Some? ==> |header| >= 7 && header[..7] == "Bearer " && header[7..] == r.value
  {
    var parts := Split(header, ' ');
    if |parts| != 2 || parts[0] != "Bearer" then None
    else
      assert Join(parts, ' ') == parts[0] + [' '] + parts[1];
      Some(parts[1])
  }

  /** The header check accepts exactly "Bearer " followed by a token without spaces. */
  lemma BearerTokenExact(header: string, token: string)
    requires ' ' !in token
    ensures BearerToken(header) == Some(token) <==> header == "Bearer " + token
  {
    if header == "Bearer " + token {
      var parts := ["Bearer", token];
      assert Join(parts[1..], ' ') == token;
      assert Join(parts, ' ') == header;
      assert ' ' !in parts[0];
      SplitJoin(parts, ' ');
    }
  }

  /**
   * `AuthMiddleware` for one request: `parse` stands for `jwt.ParseWithClaims`
   * with the HMAC method check and the secret from SECRET_TOKEN.
   */
  function Authorize(header: string, ctx: Context, parse: string -> ParseResult): (d: Decision)
    ensures header == [] ==> d == Refuse(401, MissingToken)
    ensures header != [] && BearerToken(header).None? ==> d == Refuse(401, BadFormat)
    ensures d.Forward? <==> BearerToken(header).Some? && parse(BearerToken(header).value).Parsed?
                            && parse(BearerToken(header).value).valid
    ensures d.Forward? ==> d.ctx == WithUser(ctx, parse(BearerToken(header).value).claims)
    ensures (header != [] && BearerToken(header).Some? && parse(BearerToken(header).value).ParseError?) ==>
              d == Refuse(401, Unauthorized)
    ensures (header != [] && BearerToken(header).Some? && parse(BearerToken(header).value).Parsed? &&
             !parse(BearerToken(header).value).valid) ==> d == Silent
  {
    if ByteLen(header) == 0 then Refuse(401, MissingToken)
    else match BearerToken(header)
      case None => Refuse(401, BadFormat)
      case Some(token) =>
        match parse(token)
        case ParseError => Refuse(401, Unauthorized)
        case Parsed(valid, claims) => if valid then Forward(WithUser(ctx, claims)) else Silent
  }

  /** Only a request whose header carries "Bearer " and a token the parser accepts reaches a handler. */
  lemma ForwardNeedsBearer(header: string, ctx: Context, parse: string -> ParseResult)
    requires Authorize(header, ctx, parse).Forward?
    ensures exists token :: header == "Bearer " + token && ' ' !in token && parse(token).Parsed? && parse(token).valid
  {
    var token := BearerToken(header).value;
    assert header == "Bearer " + token;
  }

  /** The scheme is case-sensitive and the separator a single space. */
  lemma RejectedHeaders(ctx: Context, parse: string -> ParseResult)
    ensures Authorize("bearer abc", ctx, parse) == Refuse(401, BadFormat)
    ensures Authorize("Bearer  abc", ctx, parse) == Refuse(401, BadFormat)
    ensures Authorize("Bearer", ctx, parse) == Refuse(401, BadFormat)
  {
    assert "bearer abc"[..7][0] == 'b';
    assert "Bearer  abc"[7..][0] == ' ';
  }

  /** "Bearer " with nothing after it passes the format check and reaches the parser with an empty token. */
  lemma EmptyTokenReachesParser()
    ensures BearerToken("Bearer ") == Some("")
  {
    BearerTokenExact("Bearer ", "");
  }
}
