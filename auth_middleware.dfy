/** The `authenticate` and `isAdmin` middleware (src/middleware/auth.js):
    bearer-header parsing, token verification by the identity provider, the
    local user lookup, and the privilege gate. The identity provider is a
    map from the tokens it accepts to their decoded claims. */
module AuthMiddleware {
  import opened Json
  import opened Text
  import opened Ordering
  import opened UserModel
  import opened Responses
  import Database

  /** The decoded token the identity provider returns. */
  datatype Claims = Claims(uid: string, email: Option<string>)

  /** The tokens the identity provider accepts, with their claims. */
  type Verifier = map<string, Claims>

  const BearerPrefix := "Bearer "

  /** The token of an `Authorization` header, or None when the header is
      missing or does not start with exactly `Bearer `. The token is the
      second field of the header split on single spaces. */
  function BearerToken(header: Option<string>): (r: Option<string>)
    ensures r.Some? <==> header.Some? && BearerPrefix <= header.value
    ensures r.Some? ==> r.value == UntilSpace(header.value[|BearerPrefix|..])
  {
    if header.Some? && BearerPrefix <= header.value then
      var h := header.value;
      var rest := h[|BearerPrefix|..];
      assert h == "Bearer" + " " + rest;
      SplitAfterWord("Bearer", rest);
      SplitHead(rest);
      Some(Split(h)[1])
    else None
  }

  /** A token without spaces travels through the header unchanged. */
  lemma BearerTokenRoundTrip(t: string)
    requires ' ' !in t
    ensures BearerToken(Some(BearerPrefix + t)) == Some(t)
  {
    var h := BearerPrefix + t;
    assert h[|BearerPrefix|..] == t;
    UntilSpaceWithoutSpace(t);
  }

  /** Anything after a second space is ignored. */
  lemma BearerTokenExample()
    ensures BearerToken(Some("Bearer a b")) == Some("a")
  {
    var h := "Bearer a b";
    assert h[|BearerPrefix|..] == "a b";
    assert UntilSpace("a b") == "a";
  }

  /** The outcome of `authenticate`: `next()` with the user and claims, or a response. */
  datatype Outcome = Next(user: User, claims: Claims) | Reject(response: Response)

  /** `authenticate` as a function of the header, the identity provider and
      the users collection (`n` bounds the ids issued so far). */
  function Authenticate(header: Option<string>, verify: Verifier,
                        users: map<ObjectId, User>, n: nat): (r: Outcome)
    ensures BearerToken(header).None? ==> r == Reject(Unauthenticated(NoTokenProvided))
    ensures BearerToken(header).Some? && BearerToken(header).value !in verify ==>
      r == Reject(Unauthenticated(InvalidToken))
    ensures r.Reject? ==>
      r.response in {Unauthenticated(NoTokenProvided), Unauthenticated(InvalidToken), NotFound(UserNotFound)}
    ensures r.Next? ==>
      && BearerToken(header).Some? && BearerToken(header).value in verify
      && r.claims == verify[BearerToken(header).value]
      && r.user in users.Values && r.user.firebaseUid == r.claims.uid
  {
    match BearerToken(header)
    case None => Reject(Unauthenticated(NoTokenProvided))
    case Some(token) =>
      if token !in verify then Reject(Unauthenticated(InvalidToken))
      else
        var claims := verify[token];
        match FirstKey(users, n, (u: User) => u.firebaseUid == claims.uid)
        case None => Reject(NotFound(UserNotFound))
        case Some(k) => Next(users[k], claims)
  }

  /** In a consistent store, authentication succeeds exactly when the token
      verifies and some user carries its uid; that user is then the only one
      with the uid, and a verified uid without a local user is a 404. */
  lemma AuthenticateUnique(header: Option<string>, verify: Verifier, users: map<ObjectId, User>,
                           qs: map<ObjectId, Database.Questionnaire>, n: nat)
    requires Database.StoreInvariant(users, qs, n)
    ensures var r := Authenticate(header, verify, users, n);
      var t := BearerToken(header);
      && (r.Next? <==>
            t.Some? && t.value in verify &&
            exists k :: k in users && users[k].firebaseUid == verify[t.value].uid)
      && (r.Next? ==> forall k :: k in users && users[k].firebaseUid == r.claims.uid ==> users[k] == r.user)
      && ((t.Some? && t.value in verify && forall k :: k in users ==> users[k].firebaseUid != verify[t.value].uid)
          ==> r == Reject(NotFound(UserNotFound)))
  {
    var r := Authenticate(header, verify, users, n);
    var t := BearerToken(header);
    if t.Some? && t.value in verify {
      var uid := verify[t.value].uid;
      var p := (u: User) => u.firebaseUid == uid;
      if exists k :: k in users && users[k].firebaseUid == uid {
        var k :| k in users && users[k].firebaseUid == uid;
        assert p(users[k]);
        assert FirstKey(users, n, p).Some?;
      }
      if r.Next? {
        var j := FirstKey(users, n, p).value;
        assert r.user == users[j];
        forall k | k in users && users[k].firebaseUid == r.claims.uid
          ensures users[k] == r.user
        {
          Database.UidDeterminesUser(users, j, k);
        }
      }
    }
  }

  /** The `isAdmin` gate on an authenticated user. */
  function AdminGate(user: User): (r: Option<Response>)
    ensures r.None? <==> user.isAdmin
    ensures r.Some? ==> r.value == Forbidden(AdminRequired)
  {
    if !user.isAdmin then Some(Forbidden(AdminRequired)) else None
  }

  /** The request object the middleware decorates. */
  class Request {
    const authorization: Option<string>
    var user: Option<User>
    var firebaseUser: Option<Claims>

    constructor (authorization: Option<string>)
      ensures this.authorization == authorization
      ensures user.None? && firebaseUser.None?
    {
      this.authorization := authorization;
      user := None;
      firebaseUser := None;
    }
  }

  /** `authenticate` on a request: a response when it rejects, or None after
      attaching `req.user` and `req.firebaseUser` and calling `next`. It reads
      the users collection and never writes it. */
  method RunAuthenticate(req: Request, verify: Verifier, users: map<ObjectId, User>, n: nat)
    returns (rejected: Option<Response>)
    modifies req
    ensures match Authenticate(req.authorization, verify, users, n)
      case Next(u, c) => rejected.None? && req.user == Some(u) && req.firebaseUser == Some(c)
      case Reject(resp) =>
        rejected == Some(resp) && req.user == old(req.user) && req.firebaseUser == old(req.firebaseUser)
  {
    var header := req.authorization;
    if header.None? || !(BearerPrefix <= header.value) {
      return Some(Unauthenticated(NoTokenProvided));
    }
    var rest := header.value[|BearerPrefix|..];
    assert header.value == "Bearer" + " " + rest;
    SplitAfterWord("Bearer", rest);
    var token := Split(header.value)[1];
    if token !in verify {
      return Some(Unauthenticated(InvalidToken));
    }
    var decoded := verify[token];
    var found := FirstKey(users, n, (u: User) => u.firebaseUid == decoded.uid);
    if found.None? {
      return Some(NotFound(UserNotFound));
    }
    req.user := Some(users[found.value]);
    req.firebaseUser := Some(decoded);
    rejected := None;
  }

  /** `isAdmin` on a request: 403 unless the attached user is an admin; a
      request without an attached user makes it fail with a 500. */
  method RunIsAdmin(req: Request) returns (rejected: Option<Response>)
    ensures req.user.None? ==> rejected == Some(ServerError(InternalError))
    ensures req.user.Some? ==> rejected == AdminGate(req.user.value)
  {
    if req.user.None? {
      return Some(ServerError(InternalError));
    }
    if !req.user.value.isAdmin {
      return Some(Forbidden(AdminRequired));
    }
    rejected := None;
  }
}
