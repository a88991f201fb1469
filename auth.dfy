/**
 * Authentication helpers: password preparation for bcrypt, access-token
 * expiry, token extraction from a request, and the dependency guards that
 * turn a request into the current user.
 *
 * bcrypt and JWT are outside the model. A stored hash is `BcryptHash(input)`
 * for the exact string handed to bcrypt (salt and collisions are not
 * modelled). A token's claims are `Claims(sub, exp)`; checking a token's
 * signature and expiry is the `decode` parameter, which yields None where
 * `jwt.decode` raises.
 */
module Auth {
  import opened Outcome
  import opened Models

  /** bcrypt reads at most this many bytes of a password. */
  const BcryptMaxBytes: nat := 72

  /** `access_token_expire_minutes` in the settings. */
  const AccessTokenExpireMinutes: int := 60

  /** Number of bytes UTF-8 uses for one code point. */
  function Utf8Width(c: char): (w: nat)
    ensures 1 <= w <= 4
    ensures (c as int < 0x80) <==> w == 1
  {
    if c as int < 0x80 then 1
    else if c as int < 0x800 then 2
    else if c as int < 0x10000 then 3
    else 4
  }

  /** Length of the UTF-8 encoding of `s`. */
  function Utf8Length(s: string): nat
  {
    if s == [] then 0 else Utf8Width(s[0]) + Utf8Length(s[1..])
  }

  /**
   * Encode to UTF-8, keep the first `budget` bytes, decode ignoring errors:
   * the bytes of a character cut in two are dropped, so the result is the
   * longest prefix of `s` whose encoding fits in `budget` bytes.
   */
  function FitUtf8(s: string, budget: nat): (r: string)
    ensures |r| <= |s| && r == s[..|r|]
    ensures Utf8Length(r) <= budget
    ensures Utf8Length(s) <= budget ==> r == s
    ensures |r| < |s| ==> Utf8Length(r) + Utf8Width(s[|r|]) > budget
    decreases |s|
  {
    if s == [] then []
    else if Utf8Width(s[0]) <= budget then
      var tail := FitUtf8(s[1..], budget - Utf8Width(s[0]));
      var r := [s[0]] + tail;
      assert r[1..] == tail;
      assert s[..|r|] == [s[0]] + s[1..][..|tail|];
      r
    else []
  }

  /** Characters past the byte budget do not change what is kept. */
  lemma {:induction false} FitUtf8IgnoresTail(s: string, t: string, budget: nat)
    requires Utf8Length(s) >= budget
    ensures FitUtf8(s + t, budget) == FitUtf8(s, budget)
    decreases |s|
  {
    if s == [] {
      if t != [] {
        assert (s + t)[0] == t[0];
      }
    } else {
      assert (s + t)[0] == s[0];
      assert (s + t)[1..] == s[1..] + t;
      if Utf8Width(s[0]) <= budget {
        FitUtf8IgnoresTail(s[1..], t, budget - Utf8Width(s[0]));
      }
    }
  }

  /** The string `verify_password` and `get_password_hash` hand to bcrypt. */
  function BcryptInput(password: string): (r: string)
    ensures Utf8Length(r) <= BcryptMaxBytes
    ensures |r| <= |password| && r == password[..|r|]
    ensures Utf8Length(password) <= BcryptMaxBytes ==> r == password
    ensures |r| < |password| ==> Utf8Length(r) + Utf8Width(password[|r|]) > BcryptMaxBytes
  {
    FitUtf8(password, BcryptMaxBytes)
  }

  /** `get_password_hash`: the digest of the password cut to bcrypt's byte limit. */
  function GetPasswordHash(password: string): (h: PasswordHash)
    ensures Utf8Length(h.input) <= BcryptMaxBytes
    ensures |h.input| <= |password| && h.input == password[..|h.input|]
    ensures Utf8Length(password) <= BcryptMaxBytes ==> h.input == password
    ensures |h.input| < |password| ==> Utf8Length(h.input) + Utf8Width(password[|h.input|]) > BcryptMaxBytes
  {
    BcryptHash(BcryptInput(password))
  }

  /**
   * `verify_password`: the password, cut the same way, matches the digest. A
   * digest of more than 72 bytes matches nothing; a password that fits must
   * match exactly.
   */
  predicate VerifyPassword(plain: string, hashed: PasswordHash): (ok: bool)
    ensures ok ==> Utf8Length(hashed.input) <= BcryptMaxBytes
    ensures Utf8Length(plain) <= BcryptMaxBytes ==> (ok <==> hashed.input == plain)
  {
    BcryptInput(plain) == hashed.input
  }

  /**
   * Hashing and verifying truncate the same way: a password verifies against
   * a stored hash exactly when both truncate to the same string, the longest
   * character prefix whose UTF-8 encoding fits in 72 bytes; so every password
   * verifies against its own hash.
   */
  lemma VerifyAgainstHash(stored: string, given: string)
    ensures VerifyPassword(given, GetPasswordHash(stored)) <==> BcryptInput(given) == BcryptInput(stored)
    ensures VerifyPassword(stored, GetPasswordHash(stored))
  {
  }

  /** Whatever follows the first 72 bytes of a password is never checked. */
  lemma LongPasswordTailIgnored(password: string, extra: string)
    requires Utf8Length(password) >= BcryptMaxBytes
    ensures VerifyPassword(password + extra, GetPasswordHash(password))
  {
    FitUtf8IgnoresTail(password, extra, BcryptMaxBytes);
  }

  /** The decoded content of an access token. */
  datatype Claims = Claims(sub: Option<string>, exp: int)

  /**
   * `create_access_token`: the subject, and an expiry of `now` plus the given
   * delta, or plus the configured minutes when no delta is given. A zero
   * delta is falsy in `expires_delta or ...`, so it also takes the default.
   */
  function CreateAccessToken(subject: string, delta: Option<int>, now: int): (c: Claims)
    ensures c.sub == Some(subject)
    ensures delta.Some? && delta.value != 0 ==> c.exp == now + delta.value
    ensures delta.None? || delta.value == 0 ==> c.exp == now + AccessTokenExpireMinutes * 60
  {
    var lifetime := if delta.Some? && delta.value != 0 then delta.value else AccessTokenExpireMinutes * 60;
    Claims(Some(subject), now + lifetime)
  }

  /** The two places a request may carry a token. */
  datatype Request = Request(authorization: Option<string>, accessTokenCookie: Option<string>)

  const BearerPrefix: string := "Bearer "

  predicate StartsWith(s: string, prefix: string)
  {
    |prefix| <= |s| && s[..|prefix|] == prefix
  }

  /** `s.split(" ")[0]`: the text before the first space. */
  function FirstField(s: string): (r: string)
    ensures |r| <= |s| && r == s[..|r|]
    ensures forall i :: 0 <= i < |r| ==> r[i] != ' '
    ensures |r| == |s| || s[|r|] == ' '
    decreases |s|
  {
    if s == [] || s[0] == ' ' then []
    else
      var tail := FirstField(s[1..]);
      var r := [s[0]] + tail;
      assert s[..|r|] == [s[0]] + s[1..][..|tail|];
      r
  }

  predicate IsBearer(req: Request)
  {
    req.authorization.Some? && StartsWith(req.authorization.value, BearerPrefix)
  }

  /**
   * `get_token_from_request`: a header `Bearer <t>` wins and yields the
   * second space-separated field (possibly empty); otherwise a non-empty
   * `access_token` cookie; otherwise nothing.
   */
  function GetTokenFromRequest(req: Request): (r: Option<string>)
    ensures IsBearer(req) ==> (
      && r.Some?
      && var h := req.authorization.value;
         var n := |BearerPrefix| + |r.value|;
         && n <= |h| && h[..n] == BearerPrefix + r.value
         && (forall i :: 0 <= i < |r.value| ==> r.value[i] != ' ')
         && (n == |h| || h[n] == ' '))
    ensures !IsBearer(req) && req.accessTokenCookie.Some? && req.accessTokenCookie.value != "" ==>
      r == req.accessTokenCookie
    ensures !IsBearer(req) && (req.accessTokenCookie.None? || req.accessTokenCookie.value == "") ==>
      r.None?
  {
    if IsBearer(req) then
      var h := req.authorization.value;
      var t := FirstField(h[|BearerPrefix|..]);
      assert h[..|BearerPrefix| + |t|] == BearerPrefix + t by {
        assert h[..|BearerPrefix|] == BearerPrefix;
        assert h[|BearerPrefix|..][..|t|] == t;
      }
      Some(t)
    else if req.accessTokenCookie.Some? && req.accessTokenCookie.value != "" then
      req.accessTokenCookie
    else None
  }

  /** `get_user_by_email`: the user row with that email, if any. */
  ghost function GetUserByEmail(users: map<UserId, User>, email: string): (r: Option<UserId>)
    ensures r.Some? <==> exists u :: u in users && users[u].email == email
    ensures r.Some? ==> r.value in users && users[r.value].email == email
  {
    if exists u :: u in users && users[u].email == email then
      var u :| u in users && users[u].email == email; Some(u)
    else None
  }

  /** `authenticate_user`: the user with that email whose password verifies. */
  ghost function AuthenticateUser(users: map<UserId, User>, email: string, password: string): (r: Option<UserId>)
    requires UniqueEmails(users)
    ensures r.Some? <==>
      exists u :: u in users && users[u].email == email && VerifyPassword(password, users[u].hashedPassword)
    ensures r.Some? ==>
      r.value in users && users[r.value].email == email && VerifyPassword(password, users[r.value].hashedPassword)
  {
    match GetUserByEmail(users, email)
    case None => None
    case Some(u) => if VerifyPassword(password, users[u].hashedPassword) then Some(u) else None
  }

  /** The subject of the request's token, when there is a non-empty token that decodes and names one. */
  function Subject(req: Request, decode: string -> Option<Claims>): Option<string>
  {
    var t := GetTokenFromRequest(req);
    if t.None? || t.value == "" then None
    else if decode(t.value).None? then None
    else decode(t.value).value.sub
  }

  /**
   * `get_current_user`: 401 for a missing or empty token, a token that does
   * not decode, a token without subject, or a subject naming no user.
   */
  ghost function GetCurrentUser(req: Request, decode: string -> Option<Claims>, users: map<UserId, User>): (r: Result<UserId>)
    ensures r.Err? ==> r.error == Unauthorized
    ensures r.Ok? <==>
      Subject(req, decode).Some? && exists u :: u in users && users[u].email == Subject(req, decode).value
    ensures r.Ok? ==> r.value in users && Some(users[r.value].email) == Subject(req, decode)
    ensures GetTokenFromRequest(req).None? ==> r == Err(Unauthorized)
  {
    match Subject(req, decode)
    case None => Err(Unauthorized)
    case Some(email) =>
      match GetUserByEmail(users, email)
      case None => Err(Unauthorized)
      case Some(u) => Ok(u)
  }

  /** `get_current_active_user`: an inactive user is refused with 400. */
  ghost function GetCurrentActiveUser(req: Request, decode: string -> Option<Claims>, users: map<UserId, User>): (r: Result<UserId>)
    ensures r.Ok? <==> GetCurrentUser(req, decode, users).Ok? && users[GetCurrentUser(req, decode, users).value].isActive
    ensures r.Ok? ==> r == GetCurrentUser(req, decode, users)
    ensures r.Err? ==> r.error == Unauthorized || r.error == BadRequest
    ensures GetCurrentUser(req, decode, users).Ok? && r.Err? ==> r.error == BadRequest
    ensures GetCurrentUser(req, decode, users).Err? ==> r == GetCurrentUser(req, decode, users)
  {
    match GetCurrentUser(req, decode, users)
    case Err(e) => Err(e)
    case Ok(u) => if users[u].isActive then Ok(u) else Err(BadRequest)
  }

  /** `get_current_admin`: an active user who is not an admin is refused with 403. */
  ghost function GetCurrentAdmin(req: Request, decode: string -> Option<Claims>, users: map<UserId, User>): (r: Result<UserId>)
    ensures r.Ok? ==> r.value in users && users[r.value].isActive && users[r.value].isAdmin
    ensures r.Ok? <==> GetCurrentActiveUser(req, decode, users).Ok? && users[GetCurrentActiveUser(req, decode, users).value].isAdmin
    ensures GetCurrentActiveUser(req, decode, users).Ok? && r.Err? ==> r.error == Forbidden
    ensures GetCurrentActiveUser(req, decode, users).Err? ==> r == GetCurrentActiveUser(req, decode, users)
    ensures r.Ok? ==> r == GetCurrentActiveUser(req, decode, users)
  {
    match GetCurrentActiveUser(req, decode, users)
    case Err(e) => Err(e)
    case Ok(u) => if users[u].isAdmin then Ok(u) else Err(Forbidden)
  }
}
