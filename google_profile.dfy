/**
 * The Google profile handed to the OAuth callbacks, and the user document both
 * callbacks build from it for a newcomer.
 */
module GoogleProfile {
  import opened Wrappers
  import opened ErrorHandler
  import opened UserModel

  /** `profile.id`, the `value`s of `profile.emails` and `profile.photos`, and `profile.displayName`. */
  datatype Profile = Profile(id: string, emails: seq<string>, displayName: string, photos: seq<string>)

  /** `profile.photos[0]?.value || null`: a missing or empty first photo is null. */
  function FirstPhoto(p: Profile): (r: Option<string>)
    ensures r.Some? <==> |p.photos| > 0 && p.photos[0] != ""
    ensures r.Some? ==> r.value == p.photos[0]
  {
    if |p.photos| > 0 && p.photos[0] != "" then Some(p.photos[0]) else None
  }

  /** What reading `profile.emails[0].value` throws when the list is empty. */
  function MissingEmailError(): (e: JsError)
    ensures e.name == "TypeError" && e.statusCode.None? && e.message != ""
  {
    JsError("TypeError", "Cannot read properties of undefined (reading 'value')", None, None)
  }

  /** `new User({ googleId, email, name, avatar, displayName: Anon#n, authMethod: 'google' })`. */
  function NewGoogleUser(p: Profile, draw: nat): (u: User)
    requires |p.emails| > 0 && draw < 10000
    ensures u.email == NormalizeEmail(p.emails[0]) && u.name == p.displayName
    ensures u.googleId == Some(p.id) && u.authMethod == GoogleAuth && u.password.None?
    ensures u.avatar == FirstPhoto(p) && u.displayName == Some(AnonName(draw))
  {
    NewUser(p.emails[0], None, p.displayName, Some(AnonName(draw)), FirstPhoto(p), Some(p.id), Some(GoogleAuth))
  }
}
