/** The authentication middleware: where the access token is taken from, and the three ways a request is refused. */
module AuthMiddleware {
  import opened Common
  import opened UserModel
  import opened Store

  const Space := ' '

  /** `String.prototype.split(' ')`: the fields between single spaces, empty ones included; never an empty list. */
  function Split(s: string): (r: seq<string>)
    ensures |r| >= 1
    ensures forall k | 0 <= k < |r| :: Space !in r[k]
  {
    if s == [] then [[]]
    else
      var rest := Split(s[1..]);
      if s[0] == Space then [[]] + rest else [[s[0]] + rest[0]] + rest[1..]
  }

  /** `Array.prototype.join(' ')`. */
  function Join(parts: seq<string>): string
    requires |parts| >= 1
  {
    if |parts| == 1 then parts[0] else parts[0] + [Space] + Join(parts[1..])
  }

  /** Joining the fields gives back the string that was split. */
  lemma {:induction false} JoinSplit(s: string)
    ensures Join(Split(s)) == s
  {
    if s != [] {
      JoinSplit(s[1..]);
      var rest := Split(s[1..]);
      if s[0] != Space {
        if |rest| == 1 {
          assert Join(Split(s)) == [s[0]] + rest[0];
        } else {
          assert Join(Split(s)) == [s[0]] + rest[0] + [Space] + Join(rest[1..]);
        }
      }
      assert s == [s[0]] + s[1..];
    }
  }

  /** A space-free word before the rest only lengthens the first field of the rest. */
  lemma {:induction false} SplitAfterWord(w: string, t: string)
    requires Space !in w
    ensures Split(w + t) == [w + Split(t)[0]] + Split(t)[1..]
  {
    if w == [] {
      assert w + t == t;
      assert w + Split(t)[0] == Split(t)[0];
    } else {
      var s := w + t;
      SplitAfterWord(w[1..], t);
      assert s[1..] == w[1..] + t;
      assert s[0] == w[0] && s[0] != Space;
      var rest := Split(s[1..]);
      assert Split(s) == [[s[0]] + rest[0]] + rest[1..];
      assert rest[0] == w[1..] + Split(t)[0] && rest[1..] == Split(t)[1..];
      assert [w[0]] + (w[1..] + Split(t)[0]) == w + Split(t)[0];
    }
  }

  /** Splitting joined space-free fields gives back the fields. */
  lemma {:induction false} SplitJoin(parts: seq<string>)
    requires |parts| >= 1
    requires forall k | 0 <= k < |parts| :: Space !in parts[k]
    ensures Split(Join(parts)) == parts
  {
    if |parts| == 1 {
      SplitAfterWord(parts[0], []);
      assert parts[0] + [] == parts[0];
    } else {
      SplitJoin(parts[1..]);
      var tail := Join(parts[1..]);
      SplitAfterWord(parts[0], [Space] + tail);
      var after := Split([Space] + tail);
      assert after == [[]] + Split(tail) by {
        assert ([Space] + tail)[1..] == tail;
      }
      assert after[0] == [] && after[1..] == parts[1..];
      assert parts[0] + after[0] == parts[0];
      assert parts[0] + [Space] + tail == parts[0] + ([Space] + tail);
      assert parts == [parts[0]] + parts[1..];
    }
  }

  /** `header.split(' ')[1]`: the second field, if there is one. */
  function SecondField(header: string): Option<string> {
    var fields := Split(header);
    if |fields| >= 2 then Some(fields[1]) else None
  }

  /** A present, non-empty value. */
  predicate Truthy(v: Option<string>) {
    v.Some? && v.value != []
  }

  /**
   * `req.headers.authorization?.split(' ')[1] || req.cookies?.accessToken`, then `if (!token)`: the second field of
   * the header when it is non-empty, otherwise the `accessToken` cookie when that is non-empty, otherwise nothing.
   */
  function ExtractToken(authorization: Option<string>, cookie: Option<string>): (r: Option<string>)
    ensures r.Some? ==> r.value != []
    ensures r.Some? ==> r == cookie || (authorization.Some? && r == SecondField(authorization.value))
    ensures r.None? <==> !Truthy(cookie) && (authorization.None? || !Truthy(SecondField(authorization.value)))
  {
    var fromHeader := if authorization.Some? then SecondField(authorization.value) else None;
    if Truthy(fromHeader) then fromHeader
    else if Truthy(cookie) then cookie
    else None
  }

  /** A header `<scheme> <token>` yields the token, and the cookie is not consulted. */
  lemma BearerToken(scheme: string, token: string, cookie: Option<string>)
    requires Space !in scheme && Space !in token && token != []
    ensures ExtractToken(Some(scheme + [Space] + token), cookie) == Some(token)
  {
    SplitJoin([scheme, token]);
    assert Join([scheme, token]) == scheme + [Space] + token by {
      assert [scheme, token][1..] == [token];
    }
  }

  /** A header without a space, such as a bare scheme, has no second field: the cookie decides. */
  lemma HeaderWithoutSpace(header: string, cookie: Option<string>)
    requires Space !in header
    ensures ExtractToken(Some(header), cookie) == ExtractToken(None, cookie)
  {
    SplitJoin([header]);
  }

  /** Two spaces after the scheme make the second field empty, so the cookie decides even though a token follows. */
  lemma DoubleSpace(scheme: string, token: string, cookie: Option<string>)
    requires Space !in scheme && Space !in token
    ensures ExtractToken(Some(scheme + [Space, Space] + token), cookie) == ExtractToken(None, cookie)
  {
    SplitJoin([scheme, [], token]);
    assert Join([scheme, [], token]) == scheme + [Space, Space] + token by {
      assert [scheme, [], token][1..] == [[], token];
      assert [[], token][1..] == [token];
      assert Join([[], token]) == [Space] + token;
    }
  }

  const NoToken := "Access denied. No token provided."
  const BadToken := "Invalid token."
  const UnknownUser := "Invalid token. User not found."

  /** The request the middleware authenticates: `req.user`, absent until a token is accepted. */
  class Request {
    var user: Option<PublicUser>

    constructor ()
      ensures user == None
    {
      user := None;
    }
  }

  /**
   * `authMiddleware`: 401 without a token, 401 when `verify` (the access-token check) rejects it, 401 when its
   * user no longer exists; otherwise the user, without password hash and refresh token, is attached to the
   * request and the handler runs (`Ok`).
   */
  method Authenticate(db: Db, req: Request, authorization: Option<string>, cookie: Option<string>,
                      verify: string -> Option<UserId>) returns (r: Result<()>)
    modifies req
    ensures var token := ExtractToken(authorization, cookie);
      && (token.None? ==> r == Err(Http(401, NoToken)))
      && (token.Some? && verify(token.value).None? ==> r == Err(Http(401, BadToken)))
      && (token.Some? && verify(token.value).Some? && verify(token.value).value !in db.users ==>
            r == Err(Http(401, UnknownUser)))
      && (token.Some? && verify(token.value).Some? && verify(token.value).value in db.users ==>
            r == Ok(()) && req.user == Some(Public(db.users[verify(token.value).value])))
    ensures r.Err? ==> req.user == old(req.user)
  {
    var token := ExtractToken(authorization, cookie);
    if token.None? {
      return Err(Http(401, NoToken));
    }
    var decoded := verify(token.value);
    if decoded.None? {
      return Err(Http(401, BadToken));
    }
    if decoded.value !in db.users {
      return Err(Http(401, UnknownUser));
    }
    req.user := Some(Public(db.users[decoded.value]));
    r := Ok(());
  }
}
