/**
 * The Google strategy's verify callback: a returning Google user, then an
 * account with the same email to link, then a brand-new account; and the
 * session (de)serialisation by user id.
 */
module Passport {
  import opened Wrappers
  import opened ErrorHandler
  import opened Ids
  import opened UserModel
  import opened Database
  import opened GoogleProfile

  /** Branch 1: `user.avatar = profile.photos[0]?.value || user.avatar`. */
  function RefreshAvatar(u: User, p: Profile): (r: User)
    ensures r == u.(avatar := r.avatar)
    ensures FirstPhoto(p).Some? ==> r.avatar == FirstPhoto(p)
    ensures FirstPhoto(p).None? ==> r.avatar == u.avatar
  {
    u.(avatar := if FirstPhoto(p).Some? then FirstPhoto(p) else u.avatar)
  }

  /** Branch 2: set googleId, keep a non-empty avatar or take the photo (or null), switch to 'google'. */
  function LinkGoogle(u: User, p: Profile): (r: User)
    ensures r == u.(googleId := r.googleId, avatar := r.avatar, authMethod := r.authMethod)
    ensures r.googleId == Some(p.id) && r.authMethod == GoogleAuth
    ensures u.avatar.Some? && u.avatar.value != "" ==> r.avatar == u.avatar
    ensures u.avatar.None? || u.avatar == Some("") ==> r.avatar == FirstPhoto(p)
  {
    var avatar := if u.avatar.Some? && u.avatar.value != "" then u.avatar else FirstPhoto(p);
    u.(googleId := Some(p.id), avatar := avatar, authMethod := GoogleAuth)
  }

  /**
   * The verify callback; `r` is what it passes to `done`. The email is read
   * before either lookup, so a profile without emails fails at once.
   */
  method GoogleVerify(db: Db, profile: Profile, draw: nat) returns (r: Result<UserId, JsError>)
    requires db.Valid() && draw < 10000
    modifies db
    ensures db.Valid()
    ensures db.confessions == old(db.confessions) && db.nextConfession == old(db.nextConfession)
    ensures |profile.emails| == 0 ==> r == Failure(MissingEmailError()) && unchanged(db)
    ensures |profile.emails| > 0 && FindByGoogleId(old(db.users), old(db.nextUser), profile.id).Some? ==>
      var id := FindByGoogleId(old(db.users), old(db.nextUser), profile.id).value;
      && r == Success(id)
      && db.users == old(db.users)[id := RefreshAvatar(old(db.users)[id], profile)]
      && db.nextUser == old(db.nextUser)
    ensures |profile.emails| > 0 && FindByGoogleId(old(db.users), old(db.nextUser), profile.id).None?
            && FindByEmail(old(db.users), old(db.nextUser), profile.emails[0]).Some? ==>
      var id := FindByEmail(old(db.users), old(db.nextUser), profile.emails[0]).value;
      && r == Success(id)
      && db.users == old(db.users)[id := LinkGoogle(old(db.users)[id], profile)]
      && db.nextUser == old(db.nextUser)
    ensures |profile.emails| > 0 && FindByGoogleId(old(db.users), old(db.nextUser), profile.id).None?
            && FindByEmail(old(db.users), old(db.nextUser), profile.emails[0]).None? ==>
      var u := NewGoogleUser(profile, draw);
      && (ValidUser(u) ==>
            r == Success(old(db.nextUser)) && db.users == old(db.users)[old(db.nextUser) := u]
            && db.nextUser == old(db.nextUser) + 1)
      && (!ValidUser(u) ==> r == Failure(ValidationError("User validation failed")) && unchanged(db))
    ensures db.nextUser != old(db.nextUser) ==>
      && FindByGoogleId(old(db.users), old(db.nextUser), profile.id).None?
      && FindByEmail(old(db.users), old(db.nextUser), profile.emails[0]).None?
    ensures r.Success? ==> r.value in db.users && db.users[r.value].googleId == Some(profile.id)
  {
    if |profile.emails| == 0 {
      return Failure(MissingEmailError());
    }
    var googleEmail := profile.emails[0];
    var byGoogle := FindByGoogleId(db.users, db.nextUser, profile.id);
    if byGoogle.Some? {
      var id := byGoogle.value;
      var u := RefreshAvatar(db.users[id], profile);
      var saved := SaveUser(u, false, db.crypto);
      assert saved == Success(u);
      UniqueKeysKept(db.users, id, u);
      db.PutUser(id, saved.value);
      return Success(id);
    }
    var byEmail := FindByEmail(db.users, db.nextUser, googleEmail);
    if byEmail.Some? {
      var id := byEmail.value;
      var u := LinkGoogle(db.users[id], profile);
      var saved := SaveUser(u, false, db.crypto);
      assert saved == Success(u);
      UniqueKeysLinked(db.users, id, u);
      db.PutUser(id, saved.value);
      return Success(id);
    }
    var u := NewGoogleUser(profile, draw);
    var saved := SaveUser(u, true, db.crypto);
    if saved.Failure? {
      return Failure(saved.error);
    }
    assert saved.value == u;
    UniqueKeysInsert(db.users, db.nextUser, u);
    r := db.InsertUser(u);
  }

  /** `serializeUser`: the session keeps only the user's id. */
  function SerializeUser(id: UserId, u: User): UserId {
    id
  }

  /** `deserializeUser`: `User.findById(id)`, null when the user is gone. */
  function DeserializeUser(users: map<UserId, User>, id: UserId): (r: Option<(UserId, User)>)
    ensures r.Some? <==> id in users
    ensures r.Some? ==> r.value == (id, users[id])
  {
    if id in users then Some((id, users[id])) else None
  }

  /** A stored user's session resolves back to that user. */
  lemma SessionRoundTrip(users: map<UserId, User>, id: UserId)
    requires id in users
    ensures DeserializeUser(users, SerializeUser(id, users[id])) == Some((id, users[id]))
  {
  }
}
