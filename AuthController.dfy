/**
 * Register, login, refresh and logout as a state machine over the one refresh token stored on each user:
 * every successful register, login or refresh overwrites it, logout clears it, and a refresh is accepted only
 * for the token currently stored.
 */
module AuthController {
  import opened Common
  import opened UserModel
  import opened Store
  import opened TokenService

  /** The body of a successful register or login: the public user and the issued pair. */
  datatype Session = Session(user: PublicUser, tokens: Tokens)

  const UserExists := "User already exists with this email"
  const BadCredentials := "Invalid email or password"
  const RefreshRequired := "Refresh token required"
  const BadRefresh := "Invalid refresh token"

  /**
   * `User.findOne({email})` finds someone. The e-mail setters apply to the query value, so it is compared in its
   * normalised form; an absent e-mail leaves an empty filter, which any user matches.
   */
  predicate EmailTaken(users: map<UserId, User>, email: Option<string>) {
    match email
    case None => users != map[]
    case Some(e) => exists u | u in users :: users[u].email == NormalizeEmail(e)
  }

  /** A refresh request that passes every check: a non-empty token that verifies to a user whose stored token it is. */
  predicate Accepts(users: map<UserId, User>, token: Option<string>, verify: string -> Option<UserId>) {
    && token.Some? && token.value != []
    && verify(token.value).Some?
    && verify(token.value).value in users
    && users[verify(token.value).value].refreshToken == Some(token.value)
  }

  /** `findByIdAndUpdate(id, {refreshToken: null})`. */
  function ClearRefreshToken(users: map<UserId, User>, userId: UserId): (r: map<UserId, User>)
    ensures r.Keys == users.Keys
    ensures userId in users ==> r[userId].refreshToken == None && r[userId].(refreshToken := users[userId].refreshToken) == users[userId]
    ensures forall u | u in users && u != userId :: r[u] == users[u]
  {
    if userId in users then users[userId := users[userId].(refreshToken := None)] else users
  }

  /** The unique index: an e-mail names at most one user. */
  lemma EmailNamesOne(users: map<UserId, User>, bound: nat, a: UserId, b: UserId)
    requires ValidUsers(users, bound)
    requires a in users && b in users && users[a].email == users[b].email
    ensures a == b
  {
  }

  /** Registering: the e-mail must be free, `User.create` must accept the fields, and the new user is a customer. */
  method Register(db: Db, res: Response, name: Option<string>, email: Option<string>, password: Option<string>,
                  hashed: string, issued: Tokens, production: bool) returns (r: Result<Session>)
    requires db.Valid()
    modifies db`users, db`nextId, res
    ensures db.Valid()
    ensures EmailTaken(old(db.users), email) ==>
      r == Err(Http(400, UserExists)) && db.users == old(db.users) && db.nextId == old(db.nextId) && res.cookies == old(res.cookies)
    ensures !EmailTaken(old(db.users), email) && NewUser(old(db.nextId), UserInput(name, email, password, None), hashed).Err? ==>
      r == Err(Thrown(ValidationFailed)) && db.users == old(db.users) && db.nextId == old(db.nextId) && res.cookies == old(res.cookies)
    ensures !EmailTaken(old(db.users), email) && NewUser(old(db.nextId), UserInput(name, email, password, None), hashed).Ok? ==>
      var u := NewUser(old(db.nextId), UserInput(name, email, password, None), hashed).value;
      && u.role == Customer
      && r == Ok(Session(Public(u), issued))
      && db.nextId == old(db.nextId) + 1
      && db.users == old(db.users)[u.id := u.(refreshToken := Some(issued.refreshToken))]
      && res.cookies == old(res.cookies)
           [AccessCookie := Cookie(issued.accessToken, true, production, true, Some(AccessMaxAge), None)]
           [RefreshCookie := Cookie(issued.refreshToken, true, production, true, Some(RefreshMaxAge), None)]
  {
    if EmailTaken(db.users, email) {
      return Err(Http(400, UserExists));
    }
    var created := NewUser(db.nextId, UserInput(name, email, password, None), hashed);
    if created.Err? {
      return Err(created.error);
    }
    var u := created.value;
    assert u.email == NormalizeEmail(email.value);
    r := Enrol(db, res, u, issued, production);
  }

  /** The second half of registering: the new user stored under the next id, then the token pair issued. */
  method Enrol(db: Db, res: Response, u: User, issued: Tokens, production: bool) returns (r: Result<Session>)
    requires db.Valid() && u.id == db.nextId && u.refreshToken.None?
    requires forall v | v in db.users :: db.users[v].email != u.email
    modifies db`users, db`nextId, res
    ensures db.Valid()
    ensures r == Ok(Session(Public(u), issued))
    ensures db.nextId == old(db.nextId) + 1
    ensures db.users == old(db.users)[u.id := u.(refreshToken := Some(issued.refreshToken))]
    ensures res.cookies == old(res.cookies)
      [AccessCookie := Cookie(issued.accessToken, true, production, true, Some(AccessMaxAge), None)]
      [RefreshCookie := Cookie(issued.refreshToken, true, production, true, Some(RefreshMaxAge), None)]
  {
    RaiseBound(db.carts, db.orders, db.users, db.nextId, db.nextId + 1);
    db.nextId := db.nextId + 1;
    PutUser(db.users, u, db.nextId);
    db.users := db.users[u.id := u];
    var t := GenerateTokens(db, u.id, issued);
    SetTokenCookies(res, t.accessToken, t.refreshToken, production);
    r := Ok(Session(Public(u), t));
  }

  /**
   * Logging in: an unknown e-mail and a wrong password give the same 401; otherwise a new pair is issued and the
   * response carries the public view of the user, without the password hash. `matches(candidate, hash)` is the
   * password comparison.
   */
  method Login(db: Db, res: Response, email: string, password: string, matches: (string, string) -> bool,
               issued: Tokens, production: bool) returns (r: Result<Session>)
    requires db.Valid()
    modifies db`users, res
    ensures db.Valid()
    ensures (forall u | u in old(db.users) :: old(db.users)[u].email != NormalizeEmail(email)) ==>
      r == Err(Http(401, BadCredentials)) && db.users == old(db.users) && res.cookies == old(res.cookies)
    ensures forall u | u in old(db.users) && old(db.users)[u].email == NormalizeEmail(email) ::
      if matches(password, old(db.users)[u].passwordHash) then
        && r == Ok(Session(Public(old(db.users)[u]), issued))
        && db.users == StoreRefreshToken(old(db.users), u, issued.refreshToken)
        && res.cookies == old(res.cookies)
             [AccessCookie := Cookie(issued.accessToken, true, production, true, Some(AccessMaxAge), None)]
             [RefreshCookie := Cookie(issued.refreshToken, true, production, true, Some(RefreshMaxAge), None)]
      else
        r == Err(Http(401, BadCredentials)) && db.users == old(db.users) && res.cookies == old(res.cookies)
  {
    var e := NormalizeEmail(email);
    if u :| u in db.users && db.users[u].email == e {
      var user := db.users[u];
      forall v | v in db.users && db.users[v].email == e
        ensures v == u
      {
        EmailNamesOne(db.users, db.nextId, u, v);
      }
      if !matches(password, user.passwordHash) {
        return Err(Http(401, BadCredentials));
      }
      var t := GenerateTokens(db, u, issued);
      SetTokenCookies(res, t.accessToken, t.refreshToken, production);
      r := Ok(Session(Public(user), t));
    } else {
      r := Err(Http(401, BadCredentials));
    }
  }

  /**
   * Refreshing: no token (or an empty one) gives 401, a token that fails verification is thrown, a token that is
   * not the one stored on its user gives 401; an accepted token is replaced by the newly issued one.
   */
  method Refresh(db: Db, res: Response, token: Option<string>, verify: string -> Option<UserId>,
                 issued: Tokens, production: bool) returns (r: Result<Tokens>)
    requires db.Valid()
    modifies db`users, res
    ensures db.Valid()
    ensures r.Ok? <==> Accepts(old(db.users), token, verify)
    ensures (token.None? || token.value == []) ==> r == Err(Http(401, RefreshRequired))
    ensures token.Some? && token.value != [] && verify(token.value).None? ==> r == Err(Thrown(InvalidToken))
    ensures token.Some? && token.value != [] && verify(token.value).Some? && !Accepts(old(db.users), token, verify) ==>
      r == Err(Http(401, BadRefresh))
    ensures r.Err? ==> db.users == old(db.users) && res.cookies == old(res.cookies)
    ensures r.Ok? ==>
      && r.value == issued
      && db.users == StoreRefreshToken(old(db.users), verify(token.value).value, issued.refreshToken)
      && res.cookies == old(res.cookies)
           [AccessCookie := Cookie(issued.accessToken, true, production, true, Some(AccessMaxAge), None)]
           [RefreshCookie := Cookie(issued.refreshToken, true, production, true, Some(RefreshMaxAge), None)]
  {
    if token.None? || token.value == [] {
      return Err(Http(401, RefreshRequired));
    }
    var decoded := verify(token.value);
    if decoded.None? {
      return Err(Thrown(InvalidToken));
    }
    var u := decoded.value;
    if u !in db.users || db.users[u].refreshToken != Some(token.value) {
      return Err(Http(401, BadRefresh));
    }
    var t := GenerateTokens(db, u, issued);
    SetTokenCookies(res, t.accessToken, t.refreshToken, production);
    r := Ok(t);
  }

  /** Logging out the authenticated user: the stored token cleared (nothing, if the user is gone) and both cookies expired. */
  method Logout(db: Db, res: Response, user: PublicUser)
    requires db.Valid()
    modifies db`users, res
    ensures db.Valid()
    ensures db.users == ClearRefreshToken(old(db.users), user.id)
    ensures res.cookies == old(res.cookies)
      [AccessCookie := Cookie("", true, false, false, None, Some(0))]
      [RefreshCookie := Cookie("", true, false, false, None, Some(0))]
  {
    db.users := ClearRefreshToken(db.users, user.id);
    ClearTokenCookies(res);
  }

  /** After a new token is stored for a user (login, register or refresh), an older token of that user is refused. */
  lemma NewerTokenRevokesOlder(users: map<UserId, User>, u: UserId, older: string, newer: string, verify: string -> Option<UserId>)
    requires verify(older) == Some(u) && older != newer
    ensures !Accepts(StoreRefreshToken(users, u, newer), Some(older), verify)
  {
  }

  /** The token just stored is accepted, whatever was stored before. */
  lemma StoredTokenAccepted(users: map<UserId, User>, u: UserId, token: string, verify: string -> Option<UserId>)
    requires u in users && verify(token) == Some(u) && token != []
    ensures Accepts(StoreRefreshToken(users, u, token), Some(token), verify)
  {
  }

  /** After logout no token of that user is accepted. */
  lemma LogoutRevokesAll(users: map<UserId, User>, u: UserId, token: Option<string>, verify: string -> Option<UserId>)
    requires token.Some? && verify(token.value) == Some(u)
    ensures !Accepts(ClearRefreshToken(users, u), token, verify)
  {
  }

  /** Tokens of other users are unaffected by one user's login or logout. */
  lemma OtherSessionsUntouched(users: map<UserId, User>, u: UserId, newer: string, token: Option<string>, verify: string -> Option<UserId>)
    requires token.Some? && verify(token.value).Some? && verify(token.value).value != u
    ensures Accepts(StoreRefreshToken(users, u, newer), token, verify) <==> Accepts(users, token, verify)
    ensures Accepts(ClearRefreshToken(users, u), token, verify) <==> Accepts(users, token, verify)
  {
  }
}
