/** The `protect` middleware: a loose form of the bearer scheme of section 2.1 of RFC 6750. */
module AuthMiddleware {
  import opened Basics
  import opened Model
  import opened Http
  import opened Tokens
  import Server

  /** The outer test: a truthy Authorization header that starts with "Bearer" (no space required). */
  predicate HasBearerPrefix(header: Option<string>)
    // the truthiness test adds nothing once the prefix is required: "" does not start with "Bearer"
    ensures HasBearerPrefix(header) <==> header.Some? && |header.value| >= 6 && header.value[..6] == "Bearer"
  {
    Truthy(header) && StartsWith(header.value, "Bearer")
  }

  /** `authorization.split(' ')[1]` */
  function ExtractToken(header: string): (t: Option<string>)
    ensures t.Some? ==> ' ' !in t.value
    ensures t.None? <==> |Split(header, ' ')| < 2
    ensures t.Some? ==> t.value == Split(header, ' ')[1]
  {
    Field(header, ' ', 1)
  }

  /** The guard's verdict: the caller's account, or the error it throws. */
  datatype Decision = Pass(user: Account) | Reject(error: Error)

  /** What `protect` decides for a header, against the user collection, secret and clock.
      An empty or missing token is refused by the library with "jwt must be provided"
      before any signature check. */
  function Authenticate(header: Option<string>, users: map<Id, User>,
                        jwt: JwtLib, secret: string, now: int): (d: Decision)
    ensures !HasBearerPrefix(header) ==> d == Reject(Thrown("Not authorized, no token"))
    ensures HasBearerPrefix(header) ==>
      d.Pass? || (d.error.name == "Error" && StartsWith(d.error.message, "Not authorized: "))
    ensures d.Pass? ==>
      && HasBearerPrefix(header)
      && d.user.id in users && d.user == AccountOf(d.user.id, users[d.user.id])
      && ExtractToken(header.value).Some?
      && jwt.verify(ExtractToken(header.value).value, secret, now).Verified?
      && jwt.verify(ExtractToken(header.value).value, secret, now).claims.userId == Some(d.user.id)
    // each refusal after the prefix test, with its reason, and the converse of the pass clause
    ensures HasBearerPrefix(header) && !Truthy(ExtractToken(header.value)) ==>
      d == Reject(Thrown("Not authorized: jwt must be provided"))
    ensures HasBearerPrefix(header) && Truthy(ExtractToken(header.value)) ==>
      var v := jwt.verify(ExtractToken(header.value).value, secret, now);
      && (v.Rejected? ==> d == Reject(Thrown("Not authorized: " + v.message)))
      && (v.Verified? && !Truthy(v.claims.userId) ==> d == Reject(Thrown("Not authorized: Invalid token payload")))
      && (v.Verified? && Truthy(v.claims.userId) && v.claims.userId.value !in users ==>
            d == Reject(Thrown("Not authorized: User not found")))
      && (v.Verified? && Truthy(v.claims.userId) && v.claims.userId.value in users ==>
            d == Pass(AccountOf(v.claims.userId.value, users[v.claims.userId.value])))
  {
    if !HasBearerPrefix(header) then Reject(Thrown("Not authorized, no token"))
    else
      var token := ExtractToken(header.value);
      if token.None? || token.value == "" then Reject(Thrown("Not authorized: jwt must be provided"))
      else
        match jwt.verify(token.value, secret, now)
        case Rejected(m) => Reject(Thrown("Not authorized: " + m))
        case Verified(c) =>
          if !Truthy(c.userId) then Reject(Thrown("Not authorized: Invalid token payload"))
          else if c.userId.value !in users then Reject(Thrown("Not authorized: User not found"))
          else Pass(AccountOf(c.userId.value, users[c.userId.value]))
  }

  /** The request object as far as the guard touches it. */
  class Request {
    const authorization: Option<string>
    var user: Option<Account>

    constructor (authorization: Option<string>)
      ensures this.authorization == authorization && user == None
    {
      this.authorization := authorization;
      user := None;
    }
  }

  /** What the middleware does next: call the next handler, or stop with an error. */
  datatype Continuation = Next | Stop(outcome: Outcome)

  /** `protect`: sets `req.user` and calls `next` on success; otherwise sets status 401 and
      throws, leaving `req.user` as it was. */
  method Protect(req: Request, users: map<Id, User>, jwt: JwtLib, secret: string, now: int)
    returns (k: Continuation)
    modifies req
    ensures var d := Authenticate(req.authorization, users, jwt, secret, now);
      && (d.Pass? ==> k == Next && req.user == Some(d.user))
      && (d.Reject? ==> k == Stop(Raised(401, d.error)) && req.user == old(req.user))
  {
    var d := Authenticate(req.authorization, users, jwt, secret, now);
    if d.Pass? {
      req.user := Some(d.user);
      k := Next;
    } else {
      k := Stop(Raised(401, d.error));
    }
  }

  /** "Bearer <t>" yields t when t holds no space. */
  lemma BearerTokenExtracted(t: string)
    requires ' ' !in t
    ensures ExtractToken("Bearer " + t) == Some(t)
  {
    assert "Bearer " + t == "Bearer" + [' '] + t;
    SplitAfterPrefix("Bearer", ' ', t);
    SplitNoSeparator(t, ' ');
  }

  /** A header without a space, such as "Bearerxyz", passes the prefix test but yields no token. */
  lemma NoSpaceNoToken(header: string)
    requires ' ' !in header
    ensures ExtractToken(header) == None
  {
    SplitNoSeparator(header, ' ');
  }

  lemma BearerxyzRefused(users: map<Id, User>, jwt: JwtLib, secret: string, now: int)
    ensures HasBearerPrefix(Some("Bearerxyz"))
    ensures Authenticate(Some("Bearerxyz"), users, jwt, secret, now)
         == Reject(Thrown("Not authorized: jwt must be provided"))
  {
    NoSpaceNoToken("Bearerxyz");
  }

  /** A token the auth controller issued for a stored user lets that user through,
      at every instant of its lifetime. */
  lemma IssuedTokenAdmitted(users: map<Id, User>, jwt: JwtLib, secret: string,
                            issued: int, id: Id, now: int)
    requires Honest(jwt) && id in users && id != ""
    requires GenerateToken(jwt, secret, issued, id).Signed?
    requires var t := GenerateToken(jwt, secret, issued, id).token; t != "" && ' ' !in t
    requires issued <= now < issued + TokenLifetime
    ensures Authenticate(Some("Bearer " + GenerateToken(jwt, secret, issued, id).token), users, jwt, secret, now)
         == Pass(AccountOf(id, users[id]))
  {
    var t := GenerateToken(jwt, secret, issued, id).token;
    BearerTokenExtracted(t);
    GeneratedTokenVerifies(jwt, secret, issued, id, now);
    assert StartsWith("Bearer " + t, "Bearer");
  }

  /** The guard sets 401 before throwing, but the error middleware answers every such error
      with 500 and the guard's message. */
  lemma RejectionAnsweredWith500(header: Option<string>, users: map<Id, User>, jwt: JwtLib, secret: string, now: int)
    requires Authenticate(header, users, jwt, secret, now).Reject?
    ensures var e := Authenticate(header, users, jwt, secret, now).error;
      Server.Respond(Raised(401, e)) == Response(500, Message(e.message))
  {
  }
}
