/**
 * The account endpoints: registration and login.
 *
 * Signing a token is the `encode` parameter (the string `jwt.encode` would
 * produce for some claims); reading one back is the `decode` parameter of
 * the guards in `Auth`.
 */
module Users {
  import opened Outcome
  import opened Models
  import opened Ledger
  import opened Auth

  /** The row `register_user` inserts: active, counters at zero, admin only when first. */
  function NewUser(email: string, fullName: string, password: string, firstUser: bool, now: int): (u: User)
    ensures u.email == email && u.fullName == fullName
    ensures u.isActive && u.isAdmin == firstUser
    ensures u.totalBytes == 0 && u.fileCount == 0 && u.createdAt == now
    ensures VerifyPassword(password, u.hashedPassword)
  {
    User(email, fullName, GetPasswordHash(password), true, firstUser, 0, 0, now)
  }

  /**
   * `register_user`: 400 when the email is already registered; otherwise one
   * new user row, made admin exactly when the table was empty.
   */
  method RegisterUser(db: Database, email: string, fullName: string, password: string, now: int, newId: UserId)
    returns (r: Result<UserId>)
    requires db.Valid()
    requires newId > 0 && newId !in db.users
    modifies db
    ensures db.Valid()
    ensures GetUserByEmail(old(db.users), email).Some? ==> r == Err(BadRequest) && unchanged(db)
    ensures r.Ok? <==> GetUserByEmail(old(db.users), email).None?
    ensures r.Ok? ==>
      && r.value == newId
      && db.users == old(db.users)[newId := NewUser(email, fullName, password, |old(db.users)| == 0, now)]
      && db.files == old(db.files) && db.folders == old(db.folders)
      && db.links == old(db.links) && db.blobs == old(db.blobs)
    ensures Consistent(old(db.users), old(db.files)) ==> Consistent(db.users, db.files)
  {
    if exists u :: u in db.users && db.users[u].email == email {
      return Err(BadRequest);
    }
    var firstUser := |db.users| == 0;
    var row := NewUser(email, fullName, password, firstUser, now);
    NewUserKeepsLedger(db.users, db.files, newId, row);
    db.users := db.users[newId := row];
    r := Ok(newId);
  }

  /**
   * Registering into an empty table yields a table holding one admin; every
   * later registration adds a user who is not an admin, whoever registers.
   */
  lemma RegistrationAdminRule(users: map<UserId, User>, email: string, fullName: string, password: string,
                              now: int, newId: UserId)
    requires newId !in users
    ensures var users' := users[newId := NewUser(email, fullName, password, |users| == 0, now)];
      && (|users| == 0 ==> users'.Keys == {newId} && users'[newId].isAdmin)
      && (|users| > 0 ==> !users'[newId].isAdmin)
  {
    if |users| == 0 {
      assert users.Keys == {};
    }
  }

  /** A freshly registered user can log in with the password just chosen. */
  lemma RegisteredUserAuthenticates(users: map<UserId, User>, email: string, fullName: string, password: string,
                                    firstUser: bool, now: int, newId: UserId)
    requires UniqueEmails(users)
    requires newId !in users && GetUserByEmail(users, email).None?
    ensures UniqueEmails(users[newId := NewUser(email, fullName, password, firstUser, now)])
    ensures AuthenticateUser(users[newId := NewUser(email, fullName, password, firstUser, now)], email, password)
      == Some(newId)
  {
    var users' := users[newId := NewUser(email, fullName, password, firstUser, now)];
    assert users'[newId].email == email;
  }

  datatype Cookie = Cookie(key: string, value: string, maxAge: int, httpOnly: bool, sameSite: string, secure: bool)

  datatype LoginResponse = LoginResponse(accessToken: string, tokenType: string, cookie: Cookie)

  /**
   * `login`: 401 unless the email and password authenticate; otherwise a
   * token for that email with the configured lifetime, returned in the body
   * and also set as the `access_token` cookie for a day.
   */
  ghost function Login(users: map<UserId, User>, email: string, password: string, now: int,
                       encode: Claims -> string): (r: Result<LoginResponse>)
    requires UniqueEmails(users)
    ensures r.Err? <==> AuthenticateUser(users, email, password).None?
    ensures r.Err? ==> r.error == Unauthorized
    ensures r.Ok? ==>
      && r.value.accessToken == encode(Claims(Some(email), now + AccessTokenExpireMinutes * 60))
      && r.value.tokenType == "bearer"
      && r.value.cookie == Cookie("access_token", r.value.accessToken, 86400, false, "lax", false)
  {
    match AuthenticateUser(users, email, password)
    case None => Err(Unauthorized)
    case Some(u) =>
      var token := encode(CreateAccessToken(users[u].email, None, now));
      Ok(LoginResponse(token, "bearer", Cookie("access_token", token, 86400, false, "lax", false)))
  }

  /**
   * The token a login hands out authenticates later requests as the same
   * user, whether sent back as the cookie or as a bearer header, provided it
   * still decodes to the claims it was made from and holds no space.
   */
  lemma LoginTokenAuthenticates(users: map<UserId, User>, email: string, password: string, now: int,
                                encode: Claims -> string, decode: string -> Option<Claims>)
    requires UniqueEmails(users)
    requires Login(users, email, password, now, encode).Ok?
    requires var c := CreateAccessToken(email, None, now);
      decode(encode(c)) == Some(c) && encode(c) != "" && forall i :: 0 <= i < |encode(c)| ==> encode(c)[i] != ' '
    ensures var token := Login(users, email, password, now, encode).value.accessToken;
      && GetCurrentUser(Request(None, Some(token)), decode, users) == Ok(AuthenticateUser(users, email, password).value)
      && GetCurrentUser(Request(Some(BearerPrefix + token), None), decode, users)
         == Ok(AuthenticateUser(users, email, password).value)
  {
    var token := Login(users, email, password, now, encode).value.accessToken;
    var u := AuthenticateUser(users, email, password).value;
    var header := BearerPrefix + token;
    assert header[..|BearerPrefix|] == BearerPrefix;
    assert header[|BearerPrefix|..] == token;
    assert FirstField(token) == token;
    assert GetTokenFromRequest(Request(Some(header), None)) == Some(token);
    var v := GetCurrentUser(Request(None, Some(token)), decode, users).value;
    var w := GetCurrentUser(Request(Some(header), None), decode, users).value;
    assert users[v].email == email && users[w].email == email && users[u].email == email;
  }

  /** Login does not look at `is_active`: a deactivated user still gets a token, which the guards then refuse. */
  lemma InactiveUserLogsInButIsRefused(users: map<UserId, User>, email: string, password: string, now: int,
                                       encode: Claims -> string, decode: string -> Option<Claims>)
    requires UniqueEmails(users)
    requires AuthenticateUser(users, email, password).Some?
    requires !users[AuthenticateUser(users, email, password).value].isActive
    requires var c := CreateAccessToken(email, None, now);
      decode(encode(c)) == Some(c) && encode(c) != ""
    ensures Login(users, email, password, now, encode).Ok?
    ensures GetCurrentActiveUser(Request(None, Some(Login(users, email, password, now, encode).value.accessToken)),
                                 decode, users) == Err(BadRequest)
  {
    var token := Login(users, email, password, now, encode).value.accessToken;
    var v := GetCurrentUser(Request(None, Some(token)), decode, users).value;
    assert users[v].email == email;
  }
}
