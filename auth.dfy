/**
 * The request authentication of `middleware/auth.ts`: where the token is
 * taken from, the checks `authenticate` makes on the verified payload and the
 * user before attaching `req.user`, and the role check of `authorize`.
 * `jwt.verify` is a parameter: an oracle from a token to its outcome.
 */
module Auth {
  import opened Wrappers
  import opened Common
  import opened Strings
  import opened UserModel
  import opened Database

  /** What `jwt.verify` gives: the payload, or the error it throws. */
  datatype Verified =
    | Payload(userId: string, tokenType: Option<string>)
    | Expired       // TokenExpiredError
    | NotYetValid   // NotBeforeError
    | Malformed     // JsonWebTokenError

  /** `req.user` as a middleware attaches it: an id and a role that may be absent. */
  datatype AuthUser = AuthUser(id: Id, role: Option<string>)

  /** A middleware's decision: `next()` with its value, or the status and message it sends. */
  datatype Gate<T> = Next(value: T) | Stop(code: int, message: string)

  /** The parts of an Express request the middlewares read, and the `user` they attach. */
  class HttpRequest {
    const authorization: Option<string>
    const accessToken: Option<string>
    var user: Option<AuthUser>

    constructor (authorization: Option<string>, accessToken: Option<string>)
      ensures this.authorization == authorization && this.accessToken == accessToken && user.None?
    {
      this.authorization, this.accessToken, user := authorization, accessToken, None;
    }
  }

  // ---------------------------------------------------------------- bearer header

  const BearerPrefix: string := "Bearer "

  /** A header starting with `"Bearer "` splits on spaces into `"Bearer"`, then the text up to the next space. */
  lemma BearerSplit(header: string)
    requires StartsWith(header, BearerPrefix)
    ensures |Split(header, " ")| >= 2
    ensures Split(header, " ")[0] == "Bearer"
    ensures Split(header, " ")[1] == Split(header[7..], " ")[0]
  {
    assert header[6..7] == " ";
    assert OccursAt(header, " ", 6);
    var r := IndexOf(header, " ");
    forall j | 0 <= j < 6
      ensures !OccursAt(header, " ", j)
    {
      assert header[j..j + 1][0] == header[..7][j] == BearerPrefix[j];
    }
    assert r == Some(6);
    assert header[..6] == "Bearer";
    assert Split(header, " ") == [header[..6]] + Split(header[7..], " ");
  }

  /** `authHeader.split(" ")[1]`. */
  function BearerToken(header: string): (t: string)
    requires StartsWith(header, BearerPrefix)
    ensures t == Split(header[7..], " ")[0]
    ensures !Occurs(t, " ")
  {
    BearerSplit(header);
    SplitPiecesAvoidSeparator(header[7..], " ");
    Split(header, " ")[1]
  }

  predicate HasBearer(authorization: Option<string>) {
    authorization.Some? && StartsWith(authorization.value, BearerPrefix)
  }

  // ---------------------------------------------------------------- extractToken

  /** `extractToken`: the Bearer header first, then the `accessToken` cookie. */
  function ExtractToken(authorization: Option<string>, accessToken: Option<string>): (r: Option<string>)
    ensures HasBearer(authorization) ==> r == Some(BearerToken(authorization.value))
    ensures !HasBearer(authorization) && Truthy(accessToken) ==> r == accessToken
    ensures !HasBearer(authorization) && !Truthy(accessToken) ==> r.None?
  {
    if HasBearer(authorization) then Some(BearerToken(authorization.value))
    else if Truthy(accessToken) then accessToken
    else None
  }

  // ---------------------------------------------------------------- authenticate

  /** `authenticate`, as the decision it reaches; a passed request carries the user's id and role. */
  function AuthenticateSpec(authorization: Option<string>, accessToken: Option<string>,
                            verify: string -> Verified, users: seq<User>): Gate<AuthUser> {
    var token := ExtractToken(authorization, accessToken);
    if !Truthy(token) then Stop(401, "Authentication required")
    else
      match verify(token.value)
      case Expired => Stop(401, "Token expired")
      case Malformed => Stop(401, "Invalid token")
      case NotYetValid => Stop(401, "Authentication failed")
      case Payload(userId, tokenType) =>
        if Truthy(tokenType) && tokenType.value != "access" then Stop(401, "Invalid token type")
        else
          match ParseNat(userId)
          case None => Stop(401, "Invalid user ID format")
          case Some(id) =>
            match FindUser(users, id)
            case None => Stop(401, "User not found")
            case Some(k) =>
              if !users[k].isActive then Stop(403, "Account is deactivated")
              else Next(AuthUser(users[k].id, Some(RoleName(users[k].role))))
  }

  /**
   * A request passes exactly when a non-empty token verifies to a payload
   * whose type is absent or `"access"`, whose user id reads as an id of a
   * stored, active user; `req.user` is then exactly that user's id and role.
   */
  lemma AuthenticatePasses(authorization: Option<string>, accessToken: Option<string>,
                           verify: string -> Verified, users: seq<User>)
    ensures var g := AuthenticateSpec(authorization, accessToken, verify, users);
            var token := ExtractToken(authorization, accessToken);
            g.Next? <==>
              && Truthy(token)
              && verify(token.value).Payload?
              && !(Truthy(verify(token.value).tokenType) && verify(token.value).tokenType.value != "access")
              && ParseNat(verify(token.value).userId).Some?
              && FindUser(users, ParseNat(verify(token.value).userId).value).Some?
              && users[FindUser(users, ParseNat(verify(token.value).userId).value).value].isActive
    ensures var g := AuthenticateSpec(authorization, accessToken, verify, users);
            g.Next? ==>
              exists k :: 0 <= k < |users| && users[k].isActive
                          && g.value == AuthUser(users[k].id, Some(RoleName(users[k].role)))
  {
    var g := AuthenticateSpec(authorization, accessToken, verify, users);
    if g.Next? {
      var token := ExtractToken(authorization, accessToken);
      var k := FindUser(users, ParseNat(verify(token.value).userId).value).value;
      assert users[k].isActive && g.value == AuthUser(users[k].id, Some(RoleName(users[k].role)));
    }
  }

  /**
   * Every refusal is 401 except a deactivated account, which is 403; no token
   * and a token of another type are refused before any user is looked up.
   */
  lemma AuthenticateRejections(authorization: Option<string>, accessToken: Option<string>,
                               verify: string -> Verified, users: seq<User>)
    ensures var g := AuthenticateSpec(authorization, accessToken, verify, users);
            var token := ExtractToken(authorization, accessToken);
            && (g.Stop? ==> (g.code == 403 <==> g.message == "Account is deactivated"))
            && (g.Stop? ==> g.code == 401 || g.code == 403)
            && (!Truthy(token) ==> g == Stop(401, "Authentication required"))
            && ((Truthy(token) && verify(token.value).Payload? && Truthy(verify(token.value).tokenType)
                 && verify(token.value).tokenType.value != "access") ==> g == Stop(401, "Invalid token type"))
  {
  }

  /** `authenticate`: on a pass it assigns `req.user`; on a refusal the request is left as it was. */
  method Authenticate(req: HttpRequest, verify: string -> Verified, users: seq<User>) returns (g: Gate<AuthUser>)
    modifies req
    ensures g == AuthenticateSpec(req.authorization, req.accessToken, verify, users)
    ensures g.Next? ==> req.user == Some(g.value)
    ensures g.Stop? ==> req.user == old(req.user)
  {
    g := AuthenticateSpec(req.authorization, req.accessToken, verify, users);
    if g.Next? {
      req.user := Some(g.value);
    }
  }

  // ---------------------------------------------------------------- authorize

  /** `authorize(...roles)` of `auth.ts`. */
  function Authorize(roles: seq<string>, user: Option<AuthUser>): (g: Gate<AuthUser>)
    ensures g.Next? <==> user.Some? && user.value.role.Some? && user.value.role.value in roles
    ensures g.Next? ==> g.value == user.value
    ensures (user.None? || user.value.role.None?) ==> g == Stop(401, "Authentication required")
    ensures user.Some? && user.value.role.Some? && user.value.role.value !in roles ==> g == Stop(403, "Access denied")
  {
    if user.None? || user.value.role.None? then Stop(401, "Authentication required")
    else if user.value.role.value !in roles then Stop(403, "Access denied")
    else Next(user.value)
  }
}
