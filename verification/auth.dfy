/** The decision logic of the middlewares `authenticateToken` and
    `authorizeAdmin` in `auth.js`. The JWT verifier is an oracle from the
    token to either its claims or a failure. */
module Auth {
  import opened Wrappers
  import Strings
  import Http

  datatype Role = Admin | User

  /** `req.user` */
  datatype AuthUser = AuthUser(username: string, role: Role)

  /** A verified token's payload; absent claims are missing keys. */
  type Claims = map<string, string>

  /** What `verifier.verify(token)` does: resolve with claims or throw. */
  datatype Verdict = Verified(claims: Claims) | VerifyFailed

  /** A middleware either calls `next()` (with `req.user` set) or answers. */
  datatype Outcome = Next(user: AuthUser) | Answer(response: Http.Response)

  const BearerPrefix := "Bearer "

  /** The users that receive the admin role. */
  const AdminUsers: seq<string> := ["n11521147@qut.edu.au"]

  // ---- token extraction -----------------------------------------------------

  predicate IsBearer(header: string) {
    |header| >= |BearerPrefix| && header[..|BearerPrefix|] == BearerPrefix
  }

  /** The token: from an `Authorization: Bearer …` header the second
      space-separated piece (`split(' ')[1]`), otherwise a non-empty `token`
      cookie. */
  function ExtractToken(header: Option<string>, cookie: Option<string>): (t: Option<string>)
    ensures header.Some? && IsBearer(header.value) ==>
      var rest := header.value[|BearerPrefix|..];
      && t.Some?
      && ' ' !in t.value
      && t.value <= rest
      && (|t.value| < |rest| ==> rest[|t.value|] == ' ')
    ensures !(header.Some? && IsBearer(header.value)) ==>
      t == (if cookie.Some? && cookie.value != "" then cookie else None)
  {
    if header.Some? && IsBearer(header.value) then
      var h := header.value;
      var rest := h[|BearerPrefix|..];
      BearerSplit(h);
      Strings.SplitHead(rest, ' ');
      Some(Strings.Split(h, ' ')[1])
    else if cookie.Some? && cookie.value != "" then cookie
    else None
  }

  /** Splitting a bearer header on spaces gives `"Bearer"` followed by the
      pieces of what comes after the prefix. */
  lemma BearerSplit(h: string)
    requires IsBearer(h)
    ensures Strings.Split(h, ' ') == ["Bearer"] + Strings.Split(h[|BearerPrefix|..], ' ')
  {
    var rest := h[|BearerPrefix|..];
    assert h == "Bearer" + [' '] + rest;
    assert ' ' !in "Bearer";
    Strings.SplitAfterFirst("Bearer", ' ', rest);
  }

  /** A bearer header decides the token on its own; the cookie is consulted
      only without one. */
  lemma BearerWinsOverCookie(header: string, c1: Option<string>, c2: Option<string>)
    requires IsBearer(header)
    ensures ExtractToken(Some(header), c1) == ExtractToken(Some(header), c2)
  {
  }

  // ---- claims and role ------------------------------------------------------

  function Claim(claims: Claims, name: string): string {
    if name in claims then claims[name] else ""
  }

  /** `payload.username || payload['cognito:username'] || payload['sub']` */
  function UsernameOf(claims: Claims): (u: Option<string>)
    ensures u.None? <==> Claim(claims, "username") == "" && Claim(claims, "cognito:username") == "" && Claim(claims, "sub") == ""
    ensures u.Some? ==> u.value != "" && u.value in claims.Values
    ensures Claim(claims, "username") != "" ==> u == Some(claims["username"])
    ensures Claim(claims, "username") == "" && Claim(claims, "cognito:username") != "" ==> u == Some(claims["cognito:username"])
    ensures Claim(claims, "username") == "" && Claim(claims, "cognito:username") == "" && Claim(claims, "sub") != "" ==>
      u == Some(claims["sub"])
  {
    if Claim(claims, "username") != "" then Some(claims["username"])
    else if Claim(claims, "cognito:username") != "" then Some(claims["cognito:username"])
    else if Claim(claims, "sub") != "" then Some(claims["sub"])
    else None
  }

  function RoleOf(username: string): (r: Role)
    ensures r == Admin <==> username in AdminUsers
  {
    if username in AdminUsers then Admin else User
  }

  // ---- middlewares ----------------------------------------------------------

  /** `authenticateToken`: no token (or an empty one) is 401 and the verifier
      is not asked; a token the verifier rejects, or whose claims name no
      user, is 403; otherwise `next()` runs with the user and its role. */
  function AuthenticateToken(header: Option<string>, cookie: Option<string>, verify: string -> Verdict): (o: Outcome)
    ensures var t := ExtractToken(header, cookie);
      (t.None? || t.value == "") ==> o == Answer(Http.Error(401, "No token provided"))
    ensures var t := ExtractToken(header, cookie);
      t.Some? && t.value != "" && verify(t.value).VerifyFailed? ==> o == Answer(Http.Error(403, "Invalid token"))
    ensures var t := ExtractToken(header, cookie);
      t.Some? && t.value != "" && verify(t.value).Verified? && UsernameOf(verify(t.value).claims).None? ==>
      o == Answer(Http.Error(403, "Invalid token payload"))
    ensures o.Answer? ==> o.response.status == 401 || o.response.status == 403
    ensures o.Next? <==>
      var t := ExtractToken(header, cookie);
      t.Some? && t.value != "" && verify(t.value).Verified? && UsernameOf(verify(t.value).claims).Some?
    ensures o.Next? ==>
      var claims := verify(ExtractToken(header, cookie).value).claims;
      && Some(o.user.username) == UsernameOf(claims)
      && (o.user.role == Admin <==> o.user.username in AdminUsers)
  {
    match ExtractToken(header, cookie)
    case None => Answer(Http.Error(401, "No token provided"))
    case Some(token) =>
      if token == "" then Answer(Http.Error(401, "No token provided"))
      else
        match verify(token)
        case VerifyFailed => Answer(Http.Error(403, "Invalid token"))
        case Verified(claims) =>
          match UsernameOf(claims)
          case None => Answer(Http.Error(403, "Invalid token payload"))
          case Some(username) => Next(AuthUser(username, RoleOf(username)))
  }

  /** `authorizeAdmin`: `next()` exactly for a user whose role is admin. */
  function AuthorizeAdmin(user: Option<AuthUser>): (o: Outcome)
    ensures o.Next? <==> user.Some? && user.value.role == Admin
    ensures o.Next? ==> o.user == user.value
    ensures o.Answer? ==> o.response == Http.Error(403, "Access denied. Admins only.")
  {
    if user.Some? && user.value.role == Admin then Next(user.value)
    else Answer(Http.Error(403, "Access denied. Admins only."))
  }

  /** Behind both middlewares, a request reaches an admin route exactly when
      its token verifies and names a user on the admin list. */
  lemma AdminRouteAccess(header: Option<string>, cookie: Option<string>, verify: string -> Verdict)
    ensures var auth := AuthenticateToken(header, cookie, verify);
      var gate := if auth.Next? then AuthorizeAdmin(Some(auth.user)) else auth;
      gate.Next? <==>
        var t := ExtractToken(header, cookie);
        && t.Some? && t.value != "" && verify(t.value).Verified?
        && UsernameOf(verify(t.value).claims).Some?
        && UsernameOf(verify(t.value).claims).value in AdminUsers
  {
  }
}
