/**
 * The account endpoints: signup, login and the current user, and the
 * `googleCallback` kept in the controller for a future integration. A
 * successful signup or login also returns the id `req.login` puts in the
 * session.
 */
module AuthController {
  import opened Wrappers
  import opened Strings
  import opened Bcrypt
  import opened ErrorHandler
  import opened Ids
  import Joi
  import opened UserModel
  import opened Database
  import opened GoogleProfile

  datatype SignupBody = SignupBody(email: Option<string>, password: Option<string>, name: Option<string>)

  datatype LoginBody = LoginBody(email: Option<string>, password: Option<string>)

  /** The `user` object of every response: never the password, nor the googleId. */
  datatype UserView = UserView(id: UserId, email: string, name: string, displayName: Option<string>, avatar: Option<string>)

  function Project(id: UserId, u: User): UserView {
    UserView(id, u.email, u.name, u.displayName, u.avatar)
  }

  /** `Joi.string().email().required()` accepts `v`. */
  predicate EmailAccepted(v: Option<string>) {
    v.Some? && Joi.IsEmail(v.value)
  }

  /** `signupSchema`: email, then `password` of at least 6, then `name` of 2 to 50 characters. */
  function ValidateSignup(b: SignupBody): (r: Result<(string, string, string), Joi.Detail>)
    ensures r.Success? <==> EmailAccepted(b.email) && b.password.Some? && 6 <= |b.password.value|
                            && b.name.Some? && 2 <= |b.name.value| <= 50
    ensures r.Success? ==> r.value == (b.email.value, b.password.value, b.name.value)
    ensures !EmailAccepted(b.email) ==> r.Failure? && r.error.key == "email"
    ensures EmailAccepted(b.email) && !(b.password.Some? && 6 <= |b.password.value|) ==> r.Failure? && r.error.key == "password"
  {
    match Joi.CheckEmail("email", b.email)
    case Some(d) => Failure(d)
    case None =>
      match Joi.CheckString("password", b.password, true, 6, None)
      case Some(d) => Failure(d)
      case None =>
        match Joi.CheckString("name", b.name, true, 2, Some(50))
        case Some(d) => Failure(d)
        case None => Success((b.email.value, b.password.value, b.name.value))
  }

  /** `loginSchema`: an email, then any non-empty password. */
  function ValidateLogin(b: LoginBody): (r: Result<(string, string), Joi.Detail>)
    ensures r.Success? <==> EmailAccepted(b.email) && b.password.Some? && b.password.value != ""
    ensures r.Success? ==> r.value == (b.email.value, b.password.value)
    ensures !EmailAccepted(b.email) ==> r.Failure? && r.error.key == "email"
  {
    match Joi.CheckEmail("email", b.email)
    case Some(d) => Failure(d)
    case None =>
      match Joi.CheckString("password", b.password, true, 0, None)
      case Some(d) => Failure(d)
      case None => Success((b.email.value, b.password.value))
  }

  /** An address Joi accepts has no white space, so the email setters only lower-case it. */
  lemma AcceptedEmailNormalizes(e: string)
    requires Joi.IsEmail(e)
    ensures NormalizeEmail(e) == Lower(e) && NormalizeEmail(e) != ""
  {
    assert e != [] && !IsSpace(e[0]) && !IsSpace(e[|e| - 1]);
    TrimOfTrimmed(e);
  }

  /** The user signup creates, as stored after the pre-save hook hashed its password. */
  function SignupUser(email: string, password: string, name: string, draw: nat, h: Hasher): (u: User)
    requires draw < 10000
    ensures u.email == NormalizeEmail(email) && u.name == name
    ensures password != "" ==> u.password == Some(h.hash(password))
    ensures u.displayName == Some(AnonName(draw)) && u.authMethod == EmailAuth
    ensures u.avatar.None? && u.googleId.None?
  {
    HashPasswordIfModified(NewUser(email, Some(password), name, Some(AnonName(draw)), None, None, Some(EmailAuth)), true, h)
  }

  const GoogleAccountMessage: string := "This account uses Google OAuth. Please login with Google."

  /** signup, with `draw` the random number of the display name. */
  method Signup(db: Db, body: SignupBody, draw: nat) returns (reply: Reply<UserView>, session: Option<UserId>)
    requires db.Valid() && draw < 10000
    modifies db
    ensures db.Valid()
    ensures db.confessions == old(db.confessions) && db.nextConfession == old(db.nextConfession)
    ensures session.Some? <==> reply.Ok?
    ensures ValidateSignup(body).Failure? ==> reply == Fail(Joi.BadRequest(ValidateSignup(body).error)) && unchanged(db)
    ensures ValidateSignup(body).Success? && FindByEmail(old(db.users), old(db.nextUser), body.email.value).Some? ==>
      reply == Fail(Reject(409, "Email already registered")) && unchanged(db)
    ensures ValidateSignup(body).Success? && FindByEmail(old(db.users), old(db.nextUser), body.email.value).None? ==>
      var (email, password, name) := ValidateSignup(body).value;
      var u := SignupUser(email, password, name, draw, db.crypto);
      && db.users == old(db.users)[old(db.nextUser) := u] && db.nextUser == old(db.nextUser) + 1
      && session == Some(old(db.nextUser))
      && reply == Ok(201, Project(old(db.nextUser), u))
    ensures reply.Ok? ==> session.value in db.users && session.value !in old(db.users)
    ensures reply.Ok? ==> ComparePassword(db.users[session.value], body.password.value, db.crypto) == Success(true)
  {
    var validated := ValidateSignup(body);
    if validated.Failure? {
      return Fail(Joi.BadRequest(validated.error)), None;
    }
    var (email, password, name) := validated.value;
    if FindByEmail(db.users, db.nextUser, email).Some? {
      return Fail(Reject(409, "Email already registered")), None;
    }
    var created := NewUser(email, Some(password), name, Some(AnonName(draw)), None, None, Some(EmailAuth));
    AcceptedEmailNormalizes(email);
    var saved := SaveUser(created, true, db.crypto);
    SavedPasswordMatches(created, db.crypto);
    var u := saved.value;
    UniqueKeysInsert(db.users, db.nextUser, u);
    var inserted := db.InsertUser(u);
    session := Some(inserted.value);
    reply := Ok(201, Project(inserted.value, u));
  }

  /** login: the store is only read. */
  method Login(db: Db, body: LoginBody) returns (reply: Reply<UserView>, session: Option<UserId>)
    requires db.Valid()
    ensures session.Some? <==> reply.Ok?
    ensures ValidateLogin(body).Failure? ==> reply == Fail(Joi.BadRequest(ValidateLogin(body).error))
    ensures ValidateLogin(body).Success? && FindByEmail(db.users, db.nextUser, body.email.value).None? ==>
      reply == Fail(Reject(401, "Invalid email or password"))
    ensures ValidateLogin(body).Success? && FindByEmail(db.users, db.nextUser, body.email.value).Some? ==>
      var id := FindByEmail(db.users, db.nextUser, body.email.value).value;
      var u := db.users[id];
      && (u.password.None? || u.password == Some("") ==> reply == Fail(Reject(401, GoogleAccountMessage)))
      && (u.password.Some? && u.password != Some("") ==>
            match ComparePassword(u, body.password.value, db.crypto)
            case Failure(e) => reply == Fail(HandleError(e))
            case Success(ok) =>
              if ok then reply == Ok(200, Project(id, u)) && session == Some(id)
              else reply == Fail(Reject(401, "Invalid email or password")))
    ensures reply.Ok? ==> session.value in db.users && db.users[session.value].email == NormalizeEmail(body.email.value)
  {
    var validated := ValidateLogin(body);
    if validated.Failure? {
      return Fail(Joi.BadRequest(validated.error)), None;
    }
    var (email, password) := validated.value;
    var found := FindByEmail(db.users, db.nextUser, email);
    if found.None? {
      return Fail(Reject(401, "Invalid email or password")), None;
    }
    var id := found.value;
    var u := db.users[id];
    if u.password.None? || u.password == Some("") {
      return Fail(Reject(401, GoogleAccountMessage)), None;
    }
    var compared := ComparePassword(u, password, db.crypto);
    if compared.Failure? {
      return Fail(HandleError(compared.error)), None;
    }
    if !compared.value {
      return Fail(Reject(401, "Invalid email or password")), None;
    }
    reply, session := Ok(200, Project(id, u)), Some(id);
  }

  /** getCurrentUser, given the user the session resolved to, if any. */
  function GetCurrentUser(current: Option<(UserId, User)>): (r: Reply<UserView>)
    ensures r.Fail? <==> current.None?
    ensures r.Fail? ==> r.failure == Reject(401, "Not authenticated")
    ensures r.Ok? ==> r.code == 200 && r.value.id == current.value.0 && r.value.email == current.value.1.email
    ensures r.Ok? ==> r.value.name == current.value.1.name && r.value.displayName == current.value.1.displayName
    ensures r.Ok? ==> r.value.avatar == current.value.1.avatar
  {
    match current
    case None => Fail(Reject(401, "Not authenticated"))
    case Some((id, u)) => Ok(200, Project(id, u))
  }

  /**
   * The creating half of googleCallback, for a profile no account is linked
   * to: a new Google account is saved, and an existing account with the same
   * email makes the insert break the unique index.
   */
  method CreateGoogleAccount(db: Db, profile: Profile, draw: nat) returns (r: Result<UserId, JsError>)
    requires db.Valid() && draw < 10000 && |profile.emails| > 0
    requires FindByGoogleId(db.users, db.nextUser, profile.id).None?
    modifies db
    ensures db.Valid()
    ensures db.confessions == old(db.confessions) && db.nextConfession == old(db.nextConfession)
    ensures var u := NewGoogleUser(profile, draw);
      && (!ValidUser(u) ==> r == Failure(ValidationError("User validation failed")) && unchanged(db))
      && (ValidUser(u) && FindByEmail(old(db.users), old(db.nextUser), profile.emails[0]).Some? ==>
            r == Failure(DuplicateKeyError()) && unchanged(db))
      && (ValidUser(u) && FindByEmail(old(db.users), old(db.nextUser), profile.emails[0]).None? ==>
            && r == Success(old(db.nextUser))
            && db.users == old(db.users)[old(db.nextUser) := u] && db.nextUser == old(db.nextUser) + 1)
  {
    var u := NewGoogleUser(profile, draw);
    var saved := SaveUser(u, true, db.crypto);
    if saved.Failure? {
      return Failure(saved.error);
    }
    assert saved.value == u;
    UniqueKeysInsertNewEmail(db.users, db.nextUser, u, profile.emails[0]);
    r := db.InsertUser(u);
  }

  /**
   * googleCallback: an account with the profile's googleId is returned as it
   * is; otherwise a new Google account is saved. There is no linking by email,
   * so an existing email account makes the insert break the unique index.
   */
  method GoogleCallback(db: Db, profile: Profile, draw: nat) returns (r: Result<UserId, JsError>)
    requires db.Valid() && draw < 10000
    modifies db
    ensures db.Valid()
    ensures db.confessions == old(db.confessions) && db.nextConfession == old(db.nextConfession)
    ensures FindByGoogleId(old(db.users), old(db.nextUser), profile.id).Some? ==>
      r == Success(FindByGoogleId(old(db.users), old(db.nextUser), profile.id).value) && unchanged(db)
    ensures FindByGoogleId(old(db.users), old(db.nextUser), profile.id).None? && |profile.emails| == 0 ==>
      r == Failure(MissingEmailError()) && unchanged(db)
    ensures FindByGoogleId(old(db.users), old(db.nextUser), profile.id).None? && |profile.emails| > 0 ==>
      var u := NewGoogleUser(profile, draw);
      && (!ValidUser(u) ==> r == Failure(ValidationError("User validation failed")) && unchanged(db))
      && (ValidUser(u) && FindByEmail(old(db.users), old(db.nextUser), profile.emails[0]).Some? ==>
            r == Failure(DuplicateKeyError()) && unchanged(db))
      && (ValidUser(u) && FindByEmail(old(db.users), old(db.nextUser), profile.emails[0]).None? ==>
            && r == Success(old(db.nextUser))
            && db.users == old(db.users)[old(db.nextUser) := u] && db.nextUser == old(db.nextUser) + 1)
  {
    var existing := FindByGoogleId(db.users, db.nextUser, profile.id);
    if existing.Some? {
      return Success(existing.value);
    }
    if |profile.emails| == 0 {
      return Failure(MissingEmailError());
    }
    r := CreateGoogleAccount(db, profile, draw);
  }
}
