/** Issuing the token pair, storing the refresh token on the user, and the two authentication cookies. */
module TokenService {
  import opened Common
  import opened UserModel
  import opened Store

  /** A freshly signed pair; signing is not modelled, the caller supplies the pair the signer produced. */
  datatype Tokens = Tokens(accessToken: string, refreshToken: string)

  /** `User.findByIdAndUpdate(userId, {refreshToken})`: the stored token replaced, nothing else changed; no user, no change. */
  function StoreRefreshToken(users: map<UserId, User>, userId: UserId, token: string): (r: map<UserId, User>)
    ensures r.Keys == users.Keys
    ensures userId in users ==> r[userId].refreshToken == Some(token) && r[userId].(refreshToken := users[userId].refreshToken) == users[userId]
    ensures forall u | u in users && u != userId :: r[u] == users[u]
  {
    if userId in users then users[userId := users[userId].(refreshToken := Some(token))] else users
  }

  /** Storing a token on one user changes no e-mail and no id, so the collection stays valid. */
  lemma StoreRefreshTokenValid(users: map<UserId, User>, userId: UserId, token: string, bound: nat)
    requires ValidUsers(users, bound)
    ensures ValidUsers(StoreRefreshToken(users, userId, token), bound)
  {
  }

  /** `generateTokens`: the issued pair is returned and its refresh token becomes the user's stored one. */
  method GenerateTokens(db: Db, userId: UserId, issued: Tokens) returns (t: Tokens)
    requires db.Valid()
    modifies db`users
    ensures db.Valid()
    ensures t == issued
    ensures db.users == StoreRefreshToken(old(db.users), userId, issued.refreshToken)
  {
    StoreRefreshTokenValid(db.users, userId, issued.refreshToken, db.nextId);
    db.users := StoreRefreshToken(db.users, userId, issued.refreshToken);
    t := issued;
  }

  /** The options of one `res.cookie` call, with its value. */
  datatype Cookie = Cookie(value: string, httpOnly: bool, secure: bool, sameSiteStrict: bool, maxAge: Option<int>, expires: Option<Time>)

  /** The cookies an HTTP response sets, by name. */
  class Response {
    var cookies: map<string, Cookie>

    constructor ()
      ensures cookies == map[]
    {
      cookies := map[];
    }
  }

  const AccessCookie := "accessToken"
  const RefreshCookie := "refreshToken"

  /** Fifteen minutes and seven days, in milliseconds. */
  const AccessMaxAge := 15 * 60 * 1000
  const RefreshMaxAge := 7 * 24 * 60 * 60 * 1000

  lemma CookieLifetimes()
    ensures AccessMaxAge == 900000 && RefreshMaxAge == 604800000
  {
  }

  /** `setTokenCookies`: both cookies http-only and same-site strict, secure in production, with their lifetimes. */
  method SetTokenCookies(res: Response, accessToken: string, refreshToken: string, production: bool)
    modifies res
    ensures res.cookies == old(res.cookies)
      [AccessCookie := Cookie(accessToken, true, production, true, Some(AccessMaxAge), None)]
      [RefreshCookie := Cookie(refreshToken, true, production, true, Some(RefreshMaxAge), None)]
    ensures res.cookies[AccessCookie].httpOnly && res.cookies[RefreshCookie].httpOnly
  {
    res.cookies := res.cookies[AccessCookie := Cookie(accessToken, true, production, true, Some(AccessMaxAge), None)];
    res.cookies := res.cookies[RefreshCookie := Cookie(refreshToken, true, production, true, Some(RefreshMaxAge), None)];
  }

  /** `clearTokenCookies`: both cookies emptied and expired at the epoch. */
  method ClearTokenCookies(res: Response)
    modifies res
    ensures res.cookies == old(res.cookies)
      [AccessCookie := Cookie("", true, false, false, None, Some(0))]
      [RefreshCookie := Cookie("", true, false, false, None, Some(0))]
  {
    res.cookies := res.cookies[AccessCookie := Cookie("", true, false, false, None, Some(0))];
    res.cookies := res.cookies[RefreshCookie := Cookie("", true, false, false, None, Some(0))];
  }
}
