/**
 * The User document: fields, setters and defaults, the pre-save hook that
 * hashes a modified, non-null password, and `comparePassword`.
 */
module UserModel {
  import opened Wrappers
  import opened Strings
  import opened Bcrypt
  import opened ErrorHandler

  datatype AuthMethod = EmailAuth | GoogleAuth

  /** A stored user. `None` stands for `null`; `password` holds the hash once saved. */
  datatype User = User(
    email: string,
    password: Option<string>,
    name: string,
    displayName: Option<string>,
    avatar: Option<string>,
    googleId: Option<string>,
    authMethod: AuthMethod)

  /** The `lowercase` and `trim` setters of `email`; Mongoose applies them to query filters too. */
  function NormalizeEmail(e: string): (r: string)
    ensures HasNoUpper(r)
    ensures r == [] || (!IsSpace(r[0]) && !IsSpace(r[|r| - 1]))
  {
    LowerKeepsSpaces(Trim(e));
    Lower(Trim(e))
  }

  lemma NormalizeEmailIdempotent(e: string)
    ensures NormalizeEmail(NormalizeEmail(e)) == NormalizeEmail(e)
  {
    TrimOfTrimmed(NormalizeEmail(e));
    LowerOfLower(NormalizeEmail(e));
  }

  /**
   * `new User({...})`: fields not given are `None`; then `password`,
   * `displayName`, `avatar` and `googleId` default to null and `authMethod`
   * to 'email'.
   */
  function NewUser(email: string, password: Option<string>, name: string, displayName: Option<string>,
                   avatar: Option<string>, googleId: Option<string>, authMethod: Option<AuthMethod>): (u: User)
    ensures u.email == NormalizeEmail(email)
    ensures u.password == password && u.name == name && u.displayName == displayName
    ensures u.avatar == avatar && u.googleId == googleId
    ensures u.authMethod == authMethod.GetOr(EmailAuth)
  {
    User(NormalizeEmail(email), password, name, displayName, avatar, googleId, authMethod.GetOr(EmailAuth))
  }

  /** The random display name `Anon#${n}`, for a draw `n` of `Math.floor(Math.random() * 10000)`. */
  function AnonName(n: nat): (r: string)
    requires n < 10000
    ensures StartsWith(r, "Anon#") && 6 <= |r| <= 9
    ensures forall i :: 5 <= i < |r| ==> '0' <= r[i] <= '9'
    ensures ParseDecimal(r[5..]) == n
  {
    var r := "Anon#" + Decimal(n);
    assert r[..5] == "Anon#" && r[5..] == Decimal(n);
    DecimalRoundTrip(n);
    assert Pow10(4) == 10000;
    DecimalBound(n, 4);
    r
  }

  /** Two draws give the same display name only if they are the same draw. */
  lemma AnonNameInjective(m: nat, n: nat)
    requires m < 10000 && n < 10000
    requires AnonName(m) == AnonName(n)
    ensures m == n
  {
  }

  /** The `required` validators of `email` and `name` (an empty string fails `required`). */
  predicate ValidUser(u: User) {
    u.email != "" && u.name != ""
  }

  /** The pre-save hook: hash the password only when it was modified and is not null or empty. */
  function HashPasswordIfModified(u: User, modified: bool, h: Hasher): (r: User)
    ensures r == u.(password := r.password)
    ensures !modified || u.password.None? || u.password == Some("") ==> r == u
    ensures modified && u.password.Some? && u.password != Some("") ==> r.password == Some(h.hash(u.password.value))
  {
    if !modified then u
    else match u.password
      case None => u
      case Some(p) => if p == "" then u else u.(password := Some(h.hash(p)))
  }

  /** `user.save()` without the unique indexes, which the user table checks. */
  function SaveUser(u: User, passwordModified: bool, h: Hasher): (r: Result<User, JsError>)
    ensures r.Success? <==> ValidUser(u)
    ensures r.Success? ==> r.value == HashPasswordIfModified(u, passwordModified, h)
  {
    if ValidUser(u) then Success(HashPasswordIfModified(u, passwordModified, h))
    else Failure(ValidationError("User validation failed"))
  }

  /**
   * `comparePassword(plain)`: a boolean, or the error 'Error comparing passwords'
   * when bcrypt throws, which it does for a null stored password.
   */
  function ComparePassword(u: User, plain: string, h: Hasher): (r: Result<bool, JsError>)
    ensures r.Failure? <==> u.password.None? || h.compare(plain, u.password.value).None?
    ensures r.Failure? ==> r.error == PlainError("Error comparing passwords")
    ensures r.Success? ==> r.value == h.compare(plain, u.password.value).value
  {
    match u.password
    case None => Failure(PlainError("Error comparing passwords"))
    case Some(stored) =>
      match h.compare(plain, stored)
      case None => Failure(PlainError("Error comparing passwords"))
      case Some(b) => Success(b)
  }

  /** A user saved with a modified password `p` passes `comparePassword(p)`. */
  lemma SavedPasswordMatches(u: User, h: Hasher)
    requires Sound(h) && ValidUser(u)
    requires u.password.Some? && u.password != Some("")
    ensures SaveUser(u, true, h).Success?
    ensures ComparePassword(SaveUser(u, true, h).value, u.password.value, h) == Success(true)
  {
    assert h.compare(u.password.value, h.hash(u.password.value)) == Some(true);
  }

  /** An OAuth user's null password is never hashed, whatever the hook is told. */
  lemma NullPasswordNeverHashed(u: User, modified: bool, h: Hasher)
    requires u.password.None?
    ensures HashPasswordIfModified(u, modified, h).password.None?
  {
  }
}
