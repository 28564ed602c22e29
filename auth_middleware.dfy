/** The `isLoggedIn` middleware (backend/middleware/auth.js): reads the
 *  `Authorization` header, verifies the bearer token, loads the user it
 *  names, refuses banned users, and otherwise stores the user and its id on
 *  the request before passing control to the next handler. */
module AuthMiddleware {
  import opened Common
  import opened UserSchema
  import opened UserStore

  /** What `jwt.verify(token, secret)` does with a token: it returns the
   *  payload, whose `userId` claim may be absent, or throws an error whose
   *  `name` says why (`JsonWebTokenError`, `TokenExpiredError`, ...). */
  datatype Verification = Decoded(userId: Option<string>) | VerifyThrew(name: string)

  /** The middleware's decision: let the request through as `user`, or
   *  answer it with a status and message. */
  datatype Decision = Admit(user: User) | Deny(status: int, message: string)

  const BearerPrefix := "Bearer "
  const NoToken := "Access denied. No token provided."
  const UserNotFound := "Invalid token. User not found."
  const Banned := "Access denied. Your account has been banned."
  const InvalidToken := "Invalid token."
  const Expired := "Token expired. Please login again."
  const AuthFailed := "Authentication failed."

  /** The `catch` block: JWT errors are 401, any other error is 500. */
  function ErrorReply(name: string): (d: Decision)
    ensures d.Deny?
    ensures d.status == 401 <==> name == "JsonWebTokenError" || name == "TokenExpiredError"
    ensures d.status != 401 ==> d.status == 500 && d.message == AuthFailed
  {
    if name == "JsonWebTokenError" then Deny(401, InvalidToken)
    else if name == "TokenExpiredError" then Deny(401, Expired)
    else Deny(500, AuthFailed)
  }

  /** The decision the middleware reaches for a header value, the token
   *  verifier and the user collection, in the order the code checks. */
  function Authenticate(header: Option<string>, verify: string -> Verification, users: seq<User>): (d: Decision)
    ensures d.Admit? ==> header.Some? && StartsWith(header.value, BearerPrefix) && d.user in users && !d.user.isBanned
    ensures d.Deny? ==> d.status == 401 || d.status == 403 || d.status == 500
  {
    if header.None? || !StartsWith(header.value, BearerPrefix) then Deny(401, NoToken)
    else
      match verify(header.value[|BearerPrefix|..])
      case VerifyThrew(name) => ErrorReply(name)
      case Decoded(claim) =>
        // `findUserById(undefined)` looks for `_id: null` and finds nobody
        if claim.None? then Deny(401, UserNotFound)
        else
          match CastObjectId(claim.value)
          // a CastError is not a JWT error, so the catch block answers 500
          case None => Deny(500, AuthFailed)
          case Some(id) =>
            match FindById(users, id)
            case None => Deny(401, UserNotFound)
            case Some(u) => if u.isBanned then Deny(403, Banned) else Admit(u)
  }

  /** A missing header, or one without the `Bearer ` prefix, is refused with
   *  401 before any token is verified or user looked up: the decision does
   *  not depend on the verifier or the collection. */
  lemma NoBearerNoLookup(header: Option<string>, verify1: string -> Verification, verify2: string -> Verification,
                         users1: seq<User>, users2: seq<User>)
    requires header.None? || !StartsWith(header.value, BearerPrefix)
    ensures Authenticate(header, verify1, users1) == Authenticate(header, verify2, users2) == Deny(401, NoToken)
  {
  }

  /** The token is the header with its first seven characters removed: with
   *  header `Bearer <t>`, the outcome is decided by what `t` verifies to. */
  lemma TokenFollowsPrefix(t: string, verify: string -> Verification, users: seq<User>)
    ensures var h := BearerPrefix + t;
      match verify(t)
      case VerifyThrew(name) => Authenticate(Some(h), verify, users) == ErrorReply(name)
      case Decoded(claim) => claim.Some? && IsObjectId(claim.value) && FindById(users, claim.value).Some? ==>
        var u := FindById(users, claim.value).value;
        Authenticate(Some(h), verify, users) == (if u.isBanned then Deny(403, Banned) else Admit(u))
  {
    var h := BearerPrefix + t;
    assert StartsWith(h, BearerPrefix);
    assert h[|BearerPrefix|..] == t;
  }

  /** A token naming no stored user is refused with 401. */
  lemma UnknownUserDenied(header: Option<string>, verify: string -> Verification, users: seq<User>)
    requires header.Some? && StartsWith(header.value, BearerPrefix)
    requires verify(header.value[|BearerPrefix|..]).Decoded?
    requires var claim := verify(header.value[|BearerPrefix|..]).userId;
      claim.None? || (CastObjectId(claim.value).Some? && FindById(users, CastObjectId(claim.value).value).None?)
    ensures Authenticate(header, verify, users) == Deny(401, UserNotFound)
  {
  }

  /** Whoever is let through holds a valid bearer token naming them, is
   *  stored, and is not banned; a banned user is refused 403 even with a
   *  valid token. */
  lemma AdmitSound(header: Option<string>, verify: string -> Verification, users: seq<User>)
    ensures Authenticate(header, verify, users).Admit? ==>
      var u := Authenticate(header, verify, users).user;
      && header.Some? && StartsWith(header.value, BearerPrefix)
      && verify(header.value[|BearerPrefix|..]).Decoded?
      && verify(header.value[|BearerPrefix|..]).userId.Some?
      && CastObjectId(verify(header.value[|BearerPrefix|..]).userId.value) == Some(u.id)
      && u in users && !u.isBanned
    ensures header.Some? && StartsWith(header.value, BearerPrefix)
      && verify(header.value[|BearerPrefix|..]).Decoded?
      && verify(header.value[|BearerPrefix|..]).userId.Some?
      && CastObjectId(verify(header.value[|BearerPrefix|..]).userId.value).Some?
      && FindById(users, CastObjectId(verify(header.value[|BearerPrefix|..]).userId.value).value).Some?
      && FindById(users, CastObjectId(verify(header.value[|BearerPrefix|..]).userId.value).value).value.isBanned
      ==> Authenticate(header, verify, users) == Deny(403, Banned)
  {
  }

  /** What the middleware does to the request when it lets it through. */
  datatype Outcome = CallNext | Responded(status: int, message: string)

  /** The Express request as the middleware sees it: the header it reads
   *  and the two properties it sets. */
  class Request {
    const authorization: Option<string>
    var user: Option<User>
    var userId: Option<UserId>

    constructor (authorization: Option<string>)
      ensures this.authorization == authorization && user.None? && userId.None?
    {
      this.authorization := authorization;
      user := None;
      userId := None;
    }
  }

  /** `isLoggedIn(req, res, next)`: on admission sets `req.user` and
   *  `req.userId` and calls `next`; otherwise answers and leaves the
   *  request as it was. */
  method IsLoggedIn(req: Request, verify: string -> Verification, users: seq<User>) returns (out: Outcome)
    modifies req
    ensures match Authenticate(req.authorization, verify, users)
      case Admit(u) => out == CallNext && req.user == Some(u) && req.userId == Some(u.id)
      case Deny(s, m) => out == Responded(s, m) && req.user == old(req.user) && req.userId == old(req.userId)
  {
    var authHeader := req.authorization;
    if authHeader.None? || !StartsWith(authHeader.value, BearerPrefix) {
      return Responded(401, NoToken);
    }
    var token := authHeader.value[7..];
    var decoded := verify(token);
    if decoded.VerifyThrew? {
      var d := ErrorReply(decoded.name);
      return Responded(d.status, d.message);
    }
    if decoded.userId.None? {
      return Responded(401, UserNotFound);
    }
    var id := CastObjectId(decoded.userId.value);
    if id.None? {
      return Responded(500, AuthFailed);
    }
    var user := FindById(users, id.value);
    if user.None? {
      return Responded(401, UserNotFound);
    }
    if user.value.isBanned {
      return Responded(403, Banned);
    }
    req.user := user;
    req.userId := Some(user.value.id);
    out := CallNext;
  }
}
