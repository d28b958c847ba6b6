/** The session and account handlers of backend/src/controllers/user.controller.js:
    issuing a token pair, registration, login, logout, refresh-token rotation, password
    change, profile update, and the channel profile read model. */
module UserController {
  import opened Base
  import opened Text
  import opened Jwt
  import opened Store

  const GenerateTokensFailed: string := "something went wrong while generating Access and Refresh Token"
  const AllFieldsRequired: string := "All fields are required"
  const UserAlreadyExists: string := "user already exists"
  const AvatarRequired: string := "avatar file is required"
  const IdentifierRequired: string := "user and email are required"
  const UserNotExist: string := "user not exist"
  const PasswordIncorrect: string := "password is incorrect"
  const UnauthorizedRefreshToken: string := "Unauthorized Refresh Token"
  const InvalidRefreshToken: string := "Invalid Refresh Token"
  const RefreshTokenExpiredOrUsed: string := "Refresh Token is expired or used"
  const UserNotAuthenticated: string := "User not authenticated"
  const UserNotFound: string := "User not found"
  const OldPasswordIncorrect: string := "Old Password is incorrect"
  const ProfileFieldRequired: string := "fullname or email are required"
  const UsernameMissing: string := "username missing"
  const ChannelDoesNotExist: string := "channel does not exist"

  datatype TokenPair = TokenPair(accessToken: string, refreshToken: string)

  /** The pair `generateAccessAndRefreshToken` issues for user `id` from serial `serial`. */
  function IssuedPair(id: Id, serial: nat): (p: TokenPair)
    ensures Verify(p.accessToken, AccessTokenSecret) == Some(Claims(id, serial))
    ensures Verify(p.refreshToken, RefreshTokenSecret) == Some(Claims(id, serial))
    ensures Verify(p.accessToken, RefreshTokenSecret).None?
    ensures Verify(p.refreshToken, AccessTokenSecret).None?
  {
    VerifySign(AccessTokenSecret, id, serial);
    VerifySign(RefreshTokenSecret, id, serial);
    VerifyOtherSecret(AccessTokenSecret, RefreshTokenSecret, id, serial);
    VerifyOtherSecret(RefreshTokenSecret, AccessTokenSecret, id, serial);
    TokenPair(Sign(AccessTokenSecret, id, serial), Sign(RefreshTokenSecret, id, serial))
  }

  /** The users table with user `id`'s stored refresh token replaced by `token`. */
  function WithRefreshToken(users: map<Id, User>, id: Id, token: Option<string>): (r: map<Id, User>)
    ensures r.Keys == users.Keys
    ensures id in users ==> r[id].refreshToken == token && r[id] == users[id].(refreshToken := token)
    ensures forall k :: k in users && k != id ==> r[k] == users[k]
  {
    if id in users then users[id := users[id].(refreshToken := token)] else users
  }

  /** Storing a token issued with serial `n` keeps every stored token issued before `n + 1`. */
  lemma RotationKeepsConsistent(s: State, id: Id)
    requires Consistent(s) && id in s.users
    ensures Consistent(s.(users := WithRefreshToken(s.users, id, Some(IssuedPair(id, s.nextSerial).refreshToken)),
                          nextSerial := s.nextSerial + 1))
  {
    var t := Some(IssuedPair(id, s.nextSerial).refreshToken);
    var users' := WithRefreshToken(s.users, id, t);
    forall k | k in users' ensures IssuedBefore(users'[k].refreshToken, s.nextSerial + 1) {
      if k != id {
        assert IssuedBefore(s.users[k].refreshToken, s.nextSerial);
      }
    }
  }

  /** `generateAccessAndRefreshToken(userId)`: issue both tokens and store the refresh token
      on the user; no other user changes. A missing user fails 500. */
  method GenerateAccessAndRefreshToken(db: Database, id: Id) returns (r: Result<TokenPair>)
    requires db.Valid()
    modifies db
    ensures db.Valid()
    ensures r.Ok? <==> id in old(db.users)
    ensures r.Err? ==> r.error == Fail(500, GenerateTokensFailed) && db.Snapshot() == old(db.Snapshot())
    ensures r.Ok? ==> r.value == IssuedPair(id, old(db.nextSerial))
    ensures r.Ok? ==> id in db.users && db.users[id].refreshToken == Some(r.value.refreshToken)
    ensures r.Ok? ==> db.Snapshot() == old(db.Snapshot()).(
      users := WithRefreshToken(old(db.users), id, Some(r.value.refreshToken)),
      nextSerial := old(db.nextSerial) + 1)
  {
    if id !in db.users {
      return Err(Fail(500, GenerateTokensFailed));
    }
    ghost var before := db.Snapshot();
    var pair := IssuedPair(id, db.nextSerial);
    RotationKeepsConsistent(before, id);
    db.users := WithRefreshToken(db.users, id, Some(pair.refreshToken));
    db.nextSerial := db.nextSerial + 1;
    assert db.Snapshot() == before.(users := db.users, nextSerial := db.nextSerial);
    r := Ok(pair);
  }

  // ---------------------------------------------------------------- registration

  /** The blank-field rule of registration: a field that trims to "" is refused. */
  predicate AnyBlank(fullname: string, username: string, email: string, password: string) {
    Blank(fullname) || Blank(username) || Blank(email) || Blank(password)
  }

  /** A field is blank exactly when it is made of white space only, the empty string
      included. */
  lemma AnyBlankMeansWhitespaceField(fullname: string, username: string, email: string, password: string)
    ensures AnyBlank(fullname, username, email, password) <==>
      AllWhitespace(fullname) || AllWhitespace(username) || AllWhitespace(email) || AllWhitespace(password)
  {
  }

  /** `Users.findOne({ $or: [{ username }, { email }] })` finds someone: the raw, not
      lowercased, username is compared. */
  predicate Taken(users: map<Id, User>, username: string, email: string) {
    exists k :: k in users && (users[k].username == username || users[k].email == email)
  }

  /** Once a user is registered, a second registration with the same e-mail, or with the
      username as it was stored, lowercased, finds that user. */
  lemma RegisteredUserIsTaken(users: map<Id, User>, id: Id, fullname: string, username: string,
                              email: string, password: string, avatarUrl: string, other: string)
    ensures var users' := users[id := NewUser(fullname, username, email, password, avatarUrl)];
      Taken(users', other, email) && Taken(users', ToLowerCase(username), other)
  {
    assert id in users[id := NewUser(fullname, username, email, password, avatarUrl)];
  }

  /** A username with an upper-case letter is stored lowercased, so registering it again
      under another e-mail is not refused by that user. */
  lemma MixedCaseUsernameIsNotTaken(fullname: string, username: string, email: string, password: string,
                                    avatarUrl: string, id: Id, email': string)
    requires email' != email
    requires exists i :: 0 <= i < |username| && IsUpperAscii(username[i])
    ensures !Taken(map[id := NewUser(fullname, username, email, password, avatarUrl)], username, email')
  {
    var i :| 0 <= i < |username| && IsUpperAscii(username[i]);
    assert NewUser(fullname, username, email, password, avatarUrl).username[i] != username[i];
  }

  /** The record `Users.create` stores. The cover image is always "", because the guard on
      line 53 reads `req.files.length`, which the object of uploaded fields does not have. */
  function NewUser(fullname: string, username: string, email: string, password: string, avatarUrl: string)
    : (u: User)
    ensures u.username == ToLowerCase(username)
    ensures u.email == email && u.fullname == fullname && u.password == password && u.avatar == avatarUrl
    ensures u.coverImage == "" && u.refreshToken.None? && u.watchHistory == []
  {
    User(ToLowerCase(username), email, fullname, password, avatarUrl, "", None, [])
  }

  /** Storing a user without a refresh token under the next fresh id keeps the store
      consistent. */
  lemma FreshUserKeepsConsistent(s: State, u: User)
    requires Consistent(s) && u.refreshToken.None?
    ensures Consistent(s.(users := s.users[s.nextId := u], nextId := s.nextId + 1))
  {
    var s' := s.(users := s.users[s.nextId := u], nextId := s.nextId + 1);
    forall k | k in s'.users ensures IssuedBefore(s'.users[k].refreshToken, s'.nextSerial) {
      if k != s.nextId { assert s'.users[k] == s.users[k]; }
    }
  }

  /** `userRegister`: blank fields fail 400, an existing username or email 409, a missing or
      failed avatar 400; otherwise a new user is stored under a fresh id. */
  method UserRegister(db: Database, fullname: string, username: string, email: string, password: string,
                      avatar: FileUpload)
    returns (r: Result<PublicUser>)
    requires db.Valid()
    modifies db
    ensures db.Valid()
    ensures AnyBlank(fullname, username, email, password) ==> r == Err(Fail(400, AllFieldsRequired))
    ensures !AnyBlank(fullname, username, email, password) && Taken(old(db.users), username, email) ==>
      r == Err(Fail(409, UserAlreadyExists))
    ensures (!AnyBlank(fullname, username, email, password) && !Taken(old(db.users), username, email)
      && !avatar.Uploaded?) ==> r == Err(Fail(400, AvatarRequired))
    ensures r.Ok? <==>
      !AnyBlank(fullname, username, email, password) && !Taken(old(db.users), username, email) && avatar.Uploaded?
    ensures r.Err? ==> db.Snapshot() == old(db.Snapshot())
    ensures r.Ok? ==>
      var id := old(db.nextId);
      var u := NewUser(fullname, username, email, password, avatar.upload.url);
      id !in old(db.users) && r.value == Public(id, u)
      && db.Snapshot() == old(db.Snapshot()).(users := old(db.users)[id := u], nextId := id + 1)
  {
    if AnyBlank(fullname, username, email, password) {
      return Err(Fail(400, AllFieldsRequired));
    }
    if Taken(db.users, username, email) {
      return Err(Fail(409, UserAlreadyExists));
    }
    if !avatar.Uploaded? {
      return Err(Fail(400, AvatarRequired));
    }
    var id := db.nextId;
    var u := NewUser(fullname, username, email, password, avatar.upload.url);
    ghost var before := db.Snapshot();
    FreshUserKeepsConsistent(before, u);
    db.users := db.users[id := u];
    db.nextId := id + 1;
    assert db.Snapshot() == before.(users := db.users, nextId := db.nextId);
    r := Ok(Public(id, u));
  }

  // ---------------------------------------------------------------- login

  /** A term of `$or: [{ username }, { email }]` matches `u`; a term whose value the request
      leaves out matches no one. */
  predicate Identifies(u: User, username: Option<string>, email: Option<string>) {
    (username.Some? && u.username == username.value) || (email.Some? && u.email == email.value)
  }

  function Matching(users: map<Id, User>, username: Option<string>, email: Option<string>): (r: set<Id>)
  {
    set k | k in users && Identifies(users[k], username, email)
  }

  /** The user `userLogin` logs in: 400 without username and email, 404 when nobody
      matches, 405 when the first match's password differs; `findOne` returns the first
      match in natural order. */
  function LoginTarget(users: map<Id, User>, username: Option<string>, email: Option<string>, password: string)
    : (r: Result<Id>)
    ensures !(Truthy(username) || Truthy(email)) <==> r == Err(Fail(400, IdentifierRequired))
    ensures (Truthy(username) || Truthy(email)) && Matching(users, username, email) == {} <==>
      r == Err(Fail(404, UserNotExist))
    ensures r.Err? && r.error != Fail(400, IdentifierRequired) && r.error != Fail(404, UserNotExist) ==>
      r.error == Fail(405, PasswordIncorrect)
    ensures r.Ok? ==>
      r.value in users && Identifies(users[r.value], username, email) && users[r.value].password == password
    ensures r.Ok? ==> forall k :: k in users && Identifies(users[k], username, email) ==> r.value <= k
    ensures r.Ok? <==>
      && (Truthy(username) || Truthy(email))
      && Matching(users, username, email) != {}
      && users[Min(Matching(users, username, email))].password == password
  {
    if !(Truthy(username) || Truthy(email)) then Err(Fail(400, IdentifierRequired))
    else
      var found := Matching(users, username, email);
      assert forall k :: k in users && Identifies(users[k], username, email) ==> k in found;
      if found == {} then Err(Fail(404, UserNotExist))
      else
        var id := Min(found);
        if users[id].password != password then Err(Fail(405, PasswordIncorrect))
        else Ok(id)
  }

  datatype LoginResponse = LoginResponse(user: PublicUser, accessToken: string, refreshToken: string)

  /** `userLogin`: decide who logs in, then issue and store a token pair for that user. */
  method UserLogin(db: Database, username: Option<string>, email: Option<string>, password: string)
    returns (r: Result<LoginResponse>)
    requires db.Valid()
    modifies db
    ensures db.Valid()
    ensures var target := LoginTarget(old(db.users), username, email, password);
      && (r.Err? <==> target.Err?)
      && (r.Err? ==> r.error == target.error && db.Snapshot() == old(db.Snapshot()))
      && (r.Ok? ==>
            var id := target.value;
            var pair := IssuedPair(id, old(db.nextSerial));
            && r.value == LoginResponse(Public(id, old(db.users)[id]), pair.accessToken, pair.refreshToken)
            && db.Snapshot() == old(db.Snapshot()).(
                 users := WithRefreshToken(old(db.users), id, Some(pair.refreshToken)),
                 nextSerial := old(db.nextSerial) + 1))
  {
    if !(Truthy(username) || Truthy(email)) {
      return Err(Fail(400, IdentifierRequired));
    }
    var found := Matching(db.users, username, email);
    if found == {} {
      return Err(Fail(404, UserNotExist));
    }
    var id := Min(found);
    if db.users[id].password != password {
      return Err(Fail(405, PasswordIncorrect));
    }
    var before := db.users[id];
    var pair := GenerateAccessAndRefreshToken(db, id);
    r := Ok(LoginResponse(Public(id, before), pair.value.accessToken, pair.value.refreshToken));
  }

  /** Registering and then logging in by e-mail with the same password reaches the new user:
      registration refused every existing user with that e-mail. */
  lemma RegisteredUserLogsInByEmail(users: map<Id, User>, id: Id, fullname: string, username: string,
                                    email: string, password: string, avatarUrl: string)
    requires id !in users
    requires !Blank(email) && !Taken(users, username, email)
    ensures LoginTarget(users[id := NewUser(fullname, username, email, password, avatarUrl)],
                        None, Some(email), password) == Ok(id)
  {
    var users' := users[id := NewUser(fullname, username, email, password, avatarUrl)];
    assert Matching(users', None, Some(email)) == {id} by {
      forall k | k in users' && k != id ensures k !in Matching(users', None, Some(email)) {
        assert users[k].email != email;
      }
    }
    assert Min({id}) == id;
  }

  /** When the username names one user and the e-mail another, `findOne` returns the one
      first in natural order, and only that user's password is compared: the other user's
      password is refused. */
  lemma {:induction false} FirstMatchDecidesLogin(users: map<Id, User>, a: Id, b: Id, username: string,
                                                email: string, password: string)
    requires a in users && b in users && a < b && username != []
    requires users[a].username == username && users[b].email == email
    requires forall k :: k in users && k != a && k != b ==> !Identifies(users[k], Some(username), Some(email))
    ensures LoginTarget(users, Some(username), Some(email), password)
      == if users[a].password == password then Ok(a) else Err(Fail(405, PasswordIncorrect))
  {
    var found := Matching(users, Some(username), Some(email));
    assert found == {a, b} by {
      assert a in found && b in found;
      forall k | k in found ensures k == a || k == b { }
    }
    assert Min(found) == a by {
      assert Min(found) in found && Min(found) <= a;
    }
  }

  /** Registration stores the username lowercased but login compares it raw: a username with
      an upper-case letter cannot log in by username. */
  lemma MixedCaseUsernameCannotLogIn(users: map<Id, User>, id: Id, fullname: string, username: string,
                                     email: string, password: string, avatarUrl: string)
    requires id !in users && username != [] && !Taken(users, username, email)
    requires exists i :: 0 <= i < |username| && IsUpperAscii(username[i])
    ensures LoginTarget(users[id := NewUser(fullname, username, email, password, avatarUrl)],
                        Some(username), None, password) == Err(Fail(404, UserNotExist))
  {
    var users' := users[id := NewUser(fullname, username, email, password, avatarUrl)];
    var i :| 0 <= i < |username| && IsUpperAscii(username[i]);
    assert users'[id].username[i] != username[i];
    assert Matching(users', Some(username), None) == {};
  }

  // ---------------------------------------------------------------- logout

  /** `$unset: { refreshToken: 1 }` on user `id`. */
  function ClearRefreshToken(users: map<Id, User>, id: Id): (r: map<Id, User>)
    ensures r.Keys == users.Keys
    ensures id in users ==> r[id].refreshToken.None? && r[id] == users[id].(refreshToken := None)
    ensures forall k :: k in users && k != id ==> r[k] == users[k]
  {
    WithRefreshToken(users, id, None)
  }

  lemma LogoutIdempotent(users: map<Id, User>, id: Id)
    ensures ClearRefreshToken(ClearRefreshToken(users, id), id) == ClearRefreshToken(users, id)
  {
  }

  /** `userLogout`: the caller's stored refresh token is removed; nothing else changes. */
  method UserLogout(db: Database, caller: Id)
    requires db.Valid()
    modifies db
    ensures db.Valid()
    ensures db.Snapshot() == old(db.Snapshot()).(users := ClearRefreshToken(old(db.users), caller))
  {
    db.users := ClearRefreshToken(db.users, caller);
  }

  // ---------------------------------------------------------------- refresh

  /** `req.cookies.refreshToken || req.body.refreshToken`. */
  function IncomingRefreshToken(cookie: Option<string>, body: Option<string>): (t: Option<string>)
  {
    if Truthy(cookie) then cookie else body
  }

  /** The user whose session `refreshAccessToken` renews: no token fails 401; inside the
      `try` every failure (bad token, missing user, token differing from the stored one) is
      re-raised as 402 with the inner message. */
  function RefreshTarget(users: map<Id, User>, incoming: Option<string>): (r: Result<Id>)
    ensures !Truthy(incoming) <==> r == Err(Fail(401, UnauthorizedRefreshToken))
    ensures Truthy(incoming) && r.Err? ==> r.error.Fail? && r.error.status == 402
    ensures r.Ok? <==>
      && Truthy(incoming) && Verify(incoming.value, RefreshTokenSecret).Some?
      && Verify(incoming.value, RefreshTokenSecret).value.sub in users
      && users[Verify(incoming.value, RefreshTokenSecret).value.sub].refreshToken == incoming
    ensures r.Ok? ==> r.value in users && users[r.value].refreshToken == incoming
    ensures r.Ok? ==> r.value == Verify(incoming.value, RefreshTokenSecret).value.sub
    ensures Truthy(incoming) && Verify(incoming.value, RefreshTokenSecret).None? ==>
      r == Err(Fail(402, InvalidTokenMessage))
    ensures Truthy(incoming) && Verify(incoming.value, RefreshTokenSecret).Some? ==>
      var sub := Verify(incoming.value, RefreshTokenSecret).value.sub;
      && (sub !in users ==> r == Err(Fail(402, InvalidRefreshToken)))
      && (sub in users && users[sub].refreshToken != incoming ==> r == Err(Fail(402, RefreshTokenExpiredOrUsed)))
  {
    if !Truthy(incoming) then Err(Fail(401, UnauthorizedRefreshToken))
    else match Verify(incoming.value, RefreshTokenSecret)
      case None => Err(Fail(402, InvalidTokenMessage))
      case Some(claims) =>
        if claims.sub !in users then Err(Fail(402, InvalidRefreshToken))
        else if incoming != users[claims.sub].refreshToken then Err(Fail(402, RefreshTokenExpiredOrUsed))
        else Ok(claims.sub)
  }

  /** The response body: the handler destructures `newRefreshToken` from an object whose key
      is `refreshToken`, so the refresh token it sends back is undefined. */
  datatype RefreshResponse = RefreshResponse(accessToken: string, refreshToken: Option<string>)

  /** `refreshAccessToken`: accept the presented refresh token only if it is the stored one,
      then rotate it. */
  method RefreshAccessToken(db: Database, cookie: Option<string>, body: Option<string>)
    returns (r: Result<RefreshResponse>)
    requires db.Valid()
    modifies db
    ensures db.Valid()
    ensures var target := RefreshTarget(old(db.users), IncomingRefreshToken(cookie, body));
      && (r.Err? <==> target.Err?)
      && (r.Err? ==> r.error == target.error && db.Snapshot() == old(db.Snapshot()))
      && (r.Ok? ==>
            var id := target.value;
            var pair := IssuedPair(id, old(db.nextSerial));
            && r.value == RefreshResponse(pair.accessToken, None)
            && db.Snapshot() == old(db.Snapshot()).(
                 users := WithRefreshToken(old(db.users), id, Some(pair.refreshToken)),
                 nextSerial := old(db.nextSerial) + 1))
  {
    var incoming := IncomingRefreshToken(cookie, body);
    if !Truthy(incoming) {
      return Err(Fail(401, UnauthorizedRefreshToken));
    }
    var decoded := Verify(incoming.value, RefreshTokenSecret);
    if decoded.None? {
      return Err(Fail(402, InvalidTokenMessage));
    }
    var id := decoded.value.sub;
    if id !in db.users {
      return Err(Fail(402, InvalidRefreshToken));
    }
    if incoming != db.users[id].refreshToken {
      return Err(Fail(402, RefreshTokenExpiredOrUsed));
    }
    var pair := GenerateAccessAndRefreshToken(db, id);
    r := Ok(RefreshResponse(pair.value.accessToken, None));
  }

  /** Where the refresh token is looked for: without a cookie the body's token is used, so
      the stored token sent in the body refreshes; a truthy cookie hides the body, so a
      cookie that does not refresh fails even beside the stored token. */
  lemma IncomingRefreshTokenSources(users: map<Id, User>, id: Id, cookie: string)
    requires id in users && Truthy(users[id].refreshToken)
    requires RefreshTarget(users, users[id].refreshToken) == Ok(id)
    ensures RefreshTarget(users, IncomingRefreshToken(None, users[id].refreshToken)) == Ok(id)
    ensures cookie != [] && RefreshTarget(users, Some(cookie)).Err? ==>
      RefreshTarget(users, IncomingRefreshToken(Some(cookie), users[id].refreshToken)).Err?
  {
  }

  /** After a successful refresh the token just accepted is refused as expired or used: the
      rotated token carries the fresh serial, and the accepted one an older serial. */
  lemma {:induction false} RotationRejectsAcceptedToken(s: State, t: string)
    requires Consistent(s)
    requires RefreshTarget(s.users, Some(t)).Ok?
    ensures var id := RefreshTarget(s.users, Some(t)).value;
      RefreshTarget(WithRefreshToken(s.users, id, Some(IssuedPair(id, s.nextSerial).refreshToken)), Some(t))
        == Err(Fail(402, RefreshTokenExpiredOrUsed))
  {
    var id := RefreshTarget(s.users, Some(t)).value;
    var c := Verify(t, RefreshTokenSecret).value;
    assert IssuedBefore(s.users[id].refreshToken, s.nextSerial);
    assert c.serial < s.nextSerial;
    var rotated := IssuedPair(id, s.nextSerial).refreshToken;
    assert t != rotated;
  }

  /** The rotated token would itself be accepted by the next refresh. */
  lemma RotatedTokenIsAccepted(users: map<Id, User>, id: Id, serial: nat)
    requires id in users
    ensures var t := IssuedPair(id, serial).refreshToken;
      RefreshTarget(WithRefreshToken(users, id, Some(t)), Some(t)) == Ok(id)
  {
  }

  /** After logout no refresh token is accepted for that user. */
  lemma LogoutEndsSession(users: map<Id, User>, id: Id, incoming: Option<string>)
    ensures RefreshTarget(ClearRefreshToken(users, id), incoming) != Ok(id)
  {
  }

  // ---------------------------------------------------------------- password

  /** The users table with user `id`'s password set to `password`. */
  function WithPassword(users: map<Id, User>, id: Id, password: string): (r: map<Id, User>)
    requires id in users
    ensures r.Keys == users.Keys
    ensures r[id] == users[id].(password := password)
    ensures forall k :: k in users && k != id ==> r[k] == users[k]
  {
    users[id := users[id].(password := password)]
  }

  /** `changeCurrentPassword`: 401 without a caller, 404 for a missing user, 405 for a wrong
      old password (nothing changes); otherwise the password becomes `newPassword`. */
  method ChangeCurrentPassword(db: Database, caller: Option<Id>, oldPassword: string, newPassword: string)
    returns (r: Result<()>)
    requires db.Valid()
    modifies db
    ensures db.Valid()
    ensures caller.None? ==> r == Err(Fail(401, UserNotAuthenticated))
    ensures caller.Some? && caller.value !in old(db.users) ==> r == Err(Fail(404, UserNotFound))
    ensures caller.Some? && caller.value in old(db.users) && old(db.users)[caller.value].password != oldPassword ==>
      r == Err(Fail(405, OldPasswordIncorrect))
    ensures r.Ok? <==> caller.Some? && caller.value in old(db.users) && old(db.users)[caller.value].password == oldPassword
    ensures r.Err? ==> db.Snapshot() == old(db.Snapshot())
    ensures r.Ok? ==> db.Snapshot() == old(db.Snapshot()).(users := WithPassword(old(db.users), caller.value, newPassword))
  {
    if caller.None? {
      return Err(Fail(401, UserNotAuthenticated));
    }
    var id := caller.value;
    if id !in db.users {
      return Err(Fail(404, UserNotFound));
    }
    if db.users[id].password != oldPassword {
      return Err(Fail(405, OldPasswordIncorrect));
    }
    db.users := WithPassword(db.users, id, newPassword);
    r := Ok(());
  }

  /** After a password change, login by a unique username accepts the new password and
      refuses the old one. */
  lemma PasswordChangeGovernsLogin(users: map<Id, User>, id: Id, oldPassword: string, newPassword: string)
    requires id in users && users[id].username != []
    requires forall k :: k in users && users[k].username == users[id].username ==> k == id
    requires oldPassword != newPassword
    ensures var users' := WithPassword(users, id, newPassword);
      && LoginTarget(users', Some(users[id].username), None, newPassword) == Ok(id)
      && LoginTarget(users', Some(users[id].username), None, oldPassword) == Err(Fail(405, PasswordIncorrect))
  {
    var users' := WithPassword(users, id, newPassword);
    assert Matching(users', Some(users[id].username), None) == {id};
    assert Min({id}) == id;
  }

  // ---------------------------------------------------------------- profile

  /** `findByIdAndUpdate(id, { fullname, email })`: the fields the request carries are set. */
  function WithProfile(u: User, fullname: Option<string>, email: Option<string>): (v: User)
    ensures v.fullname == fullname.GetOr(u.fullname) && v.email == email.GetOr(u.email)
    ensures v.(fullname := u.fullname, email := u.email) == u
  {
    u.(fullname := fullname.GetOr(u.fullname), email := email.GetOr(u.email))
  }

  /** The updated user as the handler returns it: `select("-password")` keeps the refresh
      token. */
  datatype ProfileView = ProfileView(user: PublicUser, refreshToken: Option<string>)

  /** `updateUserProfile`: 400 unless fullname or email is truthy; a missing caller leaves
      the table alone and answers with no user. */
  method UpdateUserProfile(db: Database, caller: Id, fullname: Option<string>, email: Option<string>)
    returns (r: Result<Option<ProfileView>>)
    requires db.Valid()
    modifies db
    ensures db.Valid()
    ensures r.Err? <==> !(Truthy(fullname) || Truthy(email))
    ensures r.Err? ==> r.error == Fail(400, ProfileFieldRequired) && db.Snapshot() == old(db.Snapshot())
    ensures r.Ok? && caller !in old(db.users) ==> r.value.None? && db.Snapshot() == old(db.Snapshot())
    ensures r.Ok? && caller in old(db.users) ==>
      var u := WithProfile(old(db.users)[caller], fullname, email);
      && r.value == Some(ProfileView(Public(caller, u), u.refreshToken))
      && db.Snapshot() == old(db.Snapshot()).(users := old(db.users)[caller := u])
  {
    if !(Truthy(fullname) || Truthy(email)) {
      return Err(Fail(400, ProfileFieldRequired));
    }
    if caller !in db.users {
      return Ok(None);
    }
    var u := WithProfile(db.users[caller], fullname, email);
    db.users := db.users[caller := u];
    r := Ok(Some(ProfileView(Public(caller, u), u.refreshToken)));
  }

  // ---------------------------------------------------------------- channel profile

  /** The projected channel document (`$project` keeps `_id`). Its `subscribersCount` is the second of the two
      `subscribersCount` keys of `$addFields`, the one that wins: the size of `subscribedTo`. */
  datatype ChannelView = ChannelView(
    id: Id,
    fullname: string,
    username: string,
    avatar: string,
    coverImage: string,
    subscribersCount: nat,
    isSubscribed: bool)

  /** The users the `$match` stage selects. The stage compares `username` with a function
      value, so the selection is a parameter of the model. */
  function Selected(users: map<Id, User>, selects: (Id, User) -> bool): (r: set<Id>)
  {
    set k | k in users && selects(k, users[k])
  }

  /** `getUserChannelProfile`: a blank username fails 400, an empty result 401; otherwise the
      first selected channel, with `isSubscribed` true iff the viewer subscribes to it. */
  function GetUserChannelProfile(users: map<Id, User>, subs: map<Id, Subscription>, username: string,
                                 selects: (Id, User) -> bool, viewer: Option<Id>)
    : (r: Result<ChannelView>)
    ensures Blank(username) <==> r == Err(Fail(400, UsernameMissing))
    ensures !Blank(username) && Selected(users, selects) == {} <==> r == Err(Fail(401, ChannelDoesNotExist))
    ensures r.Err? ==> r.error == Fail(400, UsernameMissing) || r.error == Fail(401, ChannelDoesNotExist)
    ensures r.Ok? ==>
      var c := Min(Selected(users, selects));
      && r.value.id == c && r.value.username == users[c].username && r.value.fullname == users[c].fullname
      && r.value.avatar == users[c].avatar && r.value.coverImage == users[c].coverImage
      && r.value.subscribersCount == |SubscriptionsBy(subs, c)|
      && (r.value.isSubscribed <==> viewer.Some? && exists k :: k in subs && subs[k].channel == c && subs[k].subscriber == viewer.value)
  {
    if Blank(username) then Err(Fail(400, UsernameMissing))
    else
      var found := Selected(users, selects);
      if found == {} then Err(Fail(401, ChannelDoesNotExist))
      else
        var c := Min(found);
        var u := users[c];
        Ok(ChannelView(c, u.fullname, u.username, u.avatar, u.coverImage,
                       |SubscriptionsBy(subs, c)|, Subscribed(subs, c, viewer)))
  }

  /** The count the profile reports ignores the channel's subscribers: a channel with one
      subscriber that follows no one is reported with 0. */
  lemma ChannelCountIgnoresSubscribers(u: User, c: Id, fan: Id, k: Id)
    requires c != fan && !Blank(u.username)
    ensures var subs := map[k := Subscription(c, fan)];
      var r := GetUserChannelProfile(map[c := u], subs, u.username, (id, _) => id == c, Some(fan));
      && |SubscribersOf(subs, c)| == 1
      && r.Ok? && r.value.subscribersCount == 0 && r.value.isSubscribed
  {
    var subs := map[k := Subscription(c, fan)];
    assert SubscribersOf(subs, c) == {k};
    assert SubscriptionsBy(subs, c) == {};
    assert Selected(map[c := u], (id, _) => id == c) == {c};
    assert Min({c}) == c;
  }
}
