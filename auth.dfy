/** The authentication middleware (Backend/middleware/auth.js): where the token is read
    from, the role gate, and the early exits of `requireAuth` that run before any lookup. The
    signature check of the token is a parameter `verify` (the decoded user id, or None when
    `jwt.verify` throws). */
module Auth {
  import opened Http
  import opened Strings
  import opened MealModel
  import opened Records

  /** The three places a token may come from; "" stands for an absent value. */
  datatype Credentials = Credentials(authorization: string, cookieToken: string, queryToken: string)

  const BearerPrefix: string := "Bearer "

  /** `getTokenFromReq`: a `Bearer ` header (prefix stripped), else the `accesstoken` cookie,
      else the `token` query parameter, else null (None). */
  function TokenFromRequest(c: Credentials): (r: Option<string>)
    ensures r.None? <==> !StartsWith(c.authorization, BearerPrefix) && c.cookieToken == "" && c.queryToken == ""
  {
    if StartsWith(c.authorization, BearerPrefix) then Some(c.authorization[|BearerPrefix|..])
    else if c.cookieToken != "" then Some(c.cookieToken)
    else if c.queryToken != "" then Some(c.queryToken)
    else None
  }

  /** A bearer header wins over the cookie and the query, and yields the text after the prefix. */
  lemma BearerFirst(token: string, cookie: string, query: string)
    ensures TokenFromRequest(Credentials(BearerPrefix + token, cookie, query)) == Some(token)
  {
    assert (BearerPrefix + token)[..|BearerPrefix|] == BearerPrefix;
    assert (BearerPrefix + token)[|BearerPrefix|..] == token;
  }

  /** A header that does not start with exactly `Bearer ` (say `bearer x` or `Token x`) is
      ignored: the outcome is the one without any header. */
  lemma NonBearerHeaderIgnored(header: string, cookie: string, query: string)
    requires !StartsWith(header, BearerPrefix)
    ensures TokenFromRequest(Credentials(header, cookie, query)) == TokenFromRequest(Credentials("", cookie, query))
  {
  }

  /** Without a bearer header, the cookie wins over the query. */
  lemma CookieBeforeQuery(header: string, cookie: string, query: string)
    requires !StartsWith(header, BearerPrefix) && cookie != ""
    ensures TokenFromRequest(Credentials(header, cookie, query)) == Some(cookie)
  {
  }

  /** `requireRole(roles)`: one role or an array of roles. */
  datatype RoleList = OneRole(role: string) | RoleSeq(roles: seq<string>) {
    /** `Array.isArray(roles) ? roles : [roles]`. */
    function Allowed(): (xs: seq<string>)
      ensures this.OneRole? ==> xs == [this.role]
      ensures this.RoleSeq? ==> xs == this.roles
    {
      match this
      case OneRole(r) => [r]
      case RoleSeq(rs) => rs
    }
  }

  /** The gate `requireRole` puts before a handler: no user is 401, a user whose role is not
      allowed is 403, otherwise the request goes on (Ok). */
  function RequireRole(roles: RoleList, user: Option<User>): (r: Result<()>)
    ensures r.Ok? <==> user.Some? && user.value.role.Name() in roles.Allowed()
    ensures user.None? ==> r == Err(401, "Unauthorized")
    ensures user.Some? && r.Err? ==> r == Err(403, "Forbidden")
  {
    if user.None? then Err(401, "Unauthorized")
    else if user.value.role.Name() !in roles.Allowed() then Err(403, "Forbidden")
    else Ok(())
  }

  /** One role string gates exactly as the one-element list does. */
  lemma OneRoleIsList(role: string, user: Option<User>)
    ensures RequireRole(OneRole(role), user) == RequireRole(RoleSeq([role]), user)
  {
  }

  /** The gate for a single role admits exactly the users with that role. */
  lemma SingleRoleAdmitsOnlyIt(role: Role, user: User)
    ensures RequireRole(OneRole(role.Name()), Some(user)).Ok? <==> user.role == role
  {
    if user.role.Name() == role.Name() {
      assert ParseRole(role.Name()) == Some(role);
      assert ParseRole(user.role.Name()) == Some(user.role);
    }
  }

  const MissingSecret: string := "Server auth misconfigured (SECRET missing)"

  /** What `requireAuth` decides: a missing secret is 500 and a missing or empty token is 401,
      both before the token is verified or a user looked up; a token that fails to verify or
      names no stored user is 401; otherwise the id of the authenticated user. */
  function Authenticate(c: Credentials, users: map<Id, User>, secretSet: bool, verify: string -> Option<Id>): (r: Result<Id>)
    ensures r.Ok? ==> r.value in users
    ensures r.Err? ==> r.status == 500 || r == Err(401, "Unauthorized")
  {
    if !secretSet then Err(500, MissingSecret)
    else
      var token := TokenFromRequest(c);
      if token.None? || token.value == "" then Err(401, "Unauthorized")
      else
        var id := verify(token.value);
        if id.None? || id.value !in users then Err(401, "Unauthorized")
        else Ok(id.value)
  }

  /** The early exits do not depend on the user store or on the verifier; a request passes
      only with the secret set, a non-empty token, and a token that verifies to a stored user. */
  lemma AuthenticateEarlyExits(c: Credentials, users: map<Id, User>, users': map<Id, User>,
                               verify: string -> Option<Id>, verify': string -> Option<Id>)
    ensures Authenticate(c, users, false, verify) == Err(500, MissingSecret)
    ensures var t := TokenFromRequest(c);
            (t.None? || t.value == "") ==>
              Authenticate(c, users, true, verify) == Err(401, "Unauthorized")
              && Authenticate(c, users, true, verify) == Authenticate(c, users', true, verify')
    ensures Authenticate(c, users, true, verify).Ok? ==>
              var t := TokenFromRequest(c);
              t.Some? && t.value != "" && verify(t.value) == Some(Authenticate(c, users, true, verify).value)
  {
  }

  /** `Bearer ` with nothing after it is an empty token, refused before the cookie is read. */
  lemma EmptyBearerRefused(cookie: string, query: string, users: map<Id, User>, verify: string -> Option<Id>)
    ensures TokenFromRequest(Credentials(BearerPrefix, cookie, query)) == Some("")
    ensures Authenticate(Credentials(BearerPrefix, cookie, query), users, true, verify) == Err(401, "Unauthorized")
  {
    BearerFirst("", cookie, query);
    assert BearerPrefix + "" == BearerPrefix;
  }

  /** An incoming request; `requireAuth` attaches the authenticated user to it. */
  class Request {
    const credentials: Credentials
    var user: Option<User>

    constructor(c: Credentials)
      ensures credentials == c && user.None?
    {
      credentials := c;
      user := None;
    }

    /** `requireAuth`: on success `req.user` is the stored user the token names. */
    method RequireAuth(users: map<Id, User>, secretSet: bool, verify: string -> Option<Id>) returns (r: Result<()>)
      modifies this
      ensures var a := Authenticate(credentials, users, secretSet, verify);
              (r.Ok? <==> a.Ok?)
              && (a.Ok? ==> user == Some(users[a.value]))
              && (a.Err? ==> r == Err(a.status, a.message) && user == old(user))
    {
      if !secretSet {
        return Err(500, MissingSecret);
      }
      var token := TokenFromRequest(credentials);
      if token.None? || token.value == "" {
        return Err(401, "Unauthorized");
      }
      var decoded := verify(token.value);
      if decoded.None? || decoded.value !in users {
        return Err(401, "Unauthorized");
      }
      user := Some(users[decoded.value]);
      r := Ok(());
    }
  }
}
