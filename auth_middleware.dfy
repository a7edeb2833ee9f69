/**
 * The request authentication of `middleware/auth.middleware.ts`, which the
 * store, product, order and cart routes use: `protect`, which takes the
 * cookie before the Bearer header, answers every refusal with 401 and does
 * not look at the token type, and its own `authorize`.
 */
module AuthMiddleware {
  import opened Wrappers
  import opened Common
  import opened Strings
  import opened UserModel
  import opened Database
  import opened Auth

  // ---------------------------------------------------------------- token

  /** The token `protect` settles on: the `accessToken` cookie first, then the Bearer header. */
  function CookieFirstToken(authorization: Option<string>, accessToken: Option<string>): (r: Option<string>)
    ensures Truthy(accessToken) ==> r == accessToken
    ensures !Truthy(accessToken) && HasBearer(authorization) ==> r == Some(BearerToken(authorization.value))
    ensures !Truthy(accessToken) && !HasBearer(authorization) ==> r.None?
  {
    if Truthy(accessToken) then accessToken
    else if HasBearer(authorization) then Some(BearerToken(authorization.value))
    else None
  }

  /** The assignments to `let token` in `protect`. */
  method ProtectToken(req: HttpRequest) returns (token: Option<string>)
    ensures token == CookieFirstToken(req.authorization, req.accessToken)
  {
    token := None;
    if Truthy(req.accessToken) {
      token := req.accessToken;
    } else if req.authorization.Some? && StartsWith(req.authorization.value, BearerPrefix) {
      token := Some(BearerToken(req.authorization.value));
    }
  }

  /**
   * The two middlewares agree when the request carries only one of the two
   * credentials, and disagree when it carries a Bearer header and a cookie
   * that differ: `extractToken` takes the header, `protect` the cookie.
   */
  lemma TokenPrecedenceDiffers(authorization: Option<string>, accessToken: Option<string>)
    ensures !HasBearer(authorization) || !Truthy(accessToken) ==>
              (Truthy(ExtractToken(authorization, accessToken)) <==> Truthy(CookieFirstToken(authorization, accessToken)))
              && (Truthy(ExtractToken(authorization, accessToken)) ==>
                    ExtractToken(authorization, accessToken) == CookieFirstToken(authorization, accessToken))
    ensures HasBearer(authorization) && Truthy(accessToken) ==>
              && ExtractToken(authorization, accessToken) == Some(BearerToken(authorization.value))
              && CookieFirstToken(authorization, accessToken) == accessToken
  {
  }

  /** A request with the Bearer header `"Bearer a"` and the cookie `"b"`: the two middlewares verify different tokens. */
  lemma TokenPrecedenceExample()
    ensures ExtractToken(Some("Bearer a"), Some("b")) == Some("a")
    ensures CookieFirstToken(Some("Bearer a"), Some("b")) == Some("b")
  {
    var h := "Bearer a";
    assert StartsWith(h, BearerPrefix);
    assert h[7..] == "a";
    assert "a"[0..1] == "a";
    assert !OccursAt("a", " ", 0);
    assert IndexOf("a", " ") == None;
  }

  // ---------------------------------------------------------------- protect

  /**
   * `protect`, as the decision it reaches. Both `jwt` errors other than
   * expiry are instances of `JsonWebTokenError`; a user id that is not an
   * id makes `findById` throw a cast error.
   */
  function ProtectSpec(authorization: Option<string>, accessToken: Option<string>,
                       verify: string -> Verified, users: seq<User>): Gate<AuthUser> {
    var token := CookieFirstToken(authorization, accessToken);
    if !Truthy(token) then Stop(401, "Access denied. No token provided.")
    else
      match verify(token.value)
      case Expired => Stop(401, "Token expired")
      case Malformed => Stop(401, "Invalid token")
      case NotYetValid => Stop(401, "Invalid token")
      case Payload(userId, _) =>
        match ParseNat(userId)
        case None => Stop(401, "Authentication failed")
        case Some(id) =>
          match FindUser(users, id)
          case None => Stop(401, "User not found")
          case Some(k) =>
            if !users[k].isActive then Stop(401, "Account is deactivated")
            else Next(AuthUser(users[k].id, Some(RoleName(users[k].role))))
  }

  /**
   * Every refusal of `protect` is a 401, a missing token gives "Access
   * denied. No token provided.", and a request passes exactly when its token
   * verifies to the id of a stored, active user, whatever the token's type.
   */
  lemma ProtectOutcomes(authorization: Option<string>, accessToken: Option<string>,
                        verify: string -> Verified, users: seq<User>)
    ensures var g := ProtectSpec(authorization, accessToken, verify, users);
            var token := CookieFirstToken(authorization, accessToken);
            && (g.Stop? ==> g.code == 401)
            && (!Truthy(token) ==> g == Stop(401, "Access denied. No token provided."))
            && (g.Next? <==>
                  && Truthy(token) && verify(token.value).Payload?
                  && ParseNat(verify(token.value).userId).Some?
                  && FindUser(users, ParseNat(verify(token.value).userId).value).Some?
                  && users[FindUser(users, ParseNat(verify(token.value).userId).value).value].isActive)
            && (g.Next? ==>
                  var k := FindUser(users, ParseNat(verify(token.value).userId).value).value;
                  g.value == AuthUser(users[k].id, Some(RoleName(users[k].role))))
  {
  }

  /**
   * For the same single credential, a deactivated account is refused with
   * 403 by `authenticate` and with 401 by `protect`, and a token whose type
   * is not `"access"` is refused by `authenticate` and let through by `protect`.
   */
  lemma AuthenticateAndProtectDiffer(header: string, verify: string -> Verified, users: seq<User>)
    requires StartsWith(header, BearerPrefix) && BearerToken(header) != []
    requires verify(BearerToken(header)).Payload?
    requires ParseNat(verify(BearerToken(header)).userId).Some?
    requires FindUser(users, ParseNat(verify(BearerToken(header)).userId).value).Some?
    ensures var k := FindUser(users, ParseNat(verify(BearerToken(header)).userId).value).value;
            !users[k].isActive && verify(BearerToken(header)).tokenType.None? ==>
              && AuthenticateSpec(Some(header), None, verify, users) == Stop(403, "Account is deactivated")
              && ProtectSpec(Some(header), None, verify, users) == Stop(401, "Account is deactivated")
    ensures var k := FindUser(users, ParseNat(verify(BearerToken(header)).userId).value).value;
            users[k].isActive && verify(BearerToken(header)).tokenType == Some("refresh") ==>
              && AuthenticateSpec(Some(header), None, verify, users) == Stop(401, "Invalid token type")
              && ProtectSpec(Some(header), None, verify, users).Next?
  {
  }

  /** `protect`: on a pass it assigns `req.user`; on a refusal the request is left as it was. */
  method Protect(req: HttpRequest, verify: string -> Verified, users: seq<User>) returns (g: Gate<AuthUser>)
    modifies req
    ensures g == ProtectSpec(req.authorization, req.accessToken, verify, users)
    ensures g.Next? ==> req.user == Some(g.value)
    ensures g.Stop? ==> req.user == old(req.user)
  {
    var token := ProtectToken(req);
    if !Truthy(token) {
      return Stop(401, "Access denied. No token provided.");
    }
    g := ProtectSpec(req.authorization, req.accessToken, verify, users);
    if g.Next? {
      req.user := Some(g.value);
    }
  }

  // ---------------------------------------------------------------- authorize

  /** `authorize(...roles)` of `auth.middleware.ts`: an absent role is simply not in the list. */
  function Authorize(roles: seq<string>, user: Option<AuthUser>): (g: Gate<AuthUser>)
    ensures g.Next? <==> user.Some? && user.value.role.Some? && user.value.role.value in roles
    ensures g.Next? ==> g.value == user.value
    ensures user.None? ==> g == Stop(401, "Authentication required")
    ensures user.Some? && !(user.value.role.Some? && user.value.role.value in roles) ==>
              g == Stop(403, "Not authorized to access this route")
  {
    if user.None? then Stop(401, "Authentication required")
    else if !(user.value.role.Some? && user.value.role.value in roles) then Stop(403, "Not authorized to access this route")
    else Next(user.value)
  }

  /** The two `authorize`s pass the same requests; they differ only in a user without a role (401 against 403) and in their messages. */
  lemma AuthorizeAgree(roles: seq<string>, user: Option<AuthUser>)
    ensures Auth.Authorize(roles, user).Next? <==> Authorize(roles, user).Next?
    ensures user.Some? && user.value.role.None? ==>
              Auth.Authorize(roles, user).code == 401 && Authorize(roles, user).code == 403
  {
  }
}
