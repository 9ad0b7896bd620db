/**
 * The Confession document: its fields, the schema's setters, defaults and
 * validators, the pre-save hook that hashes the secret code, and
 * `verifySecretCode`.
 */
module ConfessionModel {
  import opened Wrappers
  import opened Strings
  import opened Bcrypt
  import opened ErrorHandler
  import opened Ids

  /** The reaction kinds of the `reactions` sub-document and of `userReactions[i].reactionType`. */
  datatype Kind = Like | Love | Laugh

  function KindName(k: Kind): string {
    match k
    case Like => "like"
    case Love => "love"
    case Laugh => "laugh"
  }

  /** `['like', 'love', 'laugh'].includes(reactionType)`, and the kind it names. */
  function ParseKind(s: Option<string>): (r: Option<Kind>)
    ensures r.Some? <==> s.Some? && (s.value == "like" || s.value == "love" || s.value == "laugh")
    ensures r.Some? ==> KindName(r.value) == s.value
  {
    match s
    case None => None
    case Some(v) =>
      if v == "like" then Some(Like)
      else if v == "love" then Some(Love)
      else if v == "laugh" then Some(Laugh)
      else None
  }

  /** The category enumeration of the schema, in its declared order. */
  datatype Category = Crush | Study | Funny | Rant | General

  function CategoryName(c: Category): string {
    match c
    case Crush => "Crush"
    case Study => "Study"
    case Funny => "Funny"
    case Rant => "Rant"
    case General => "General"
  }

  /** The category a string names, if it is one of the five. */
  function ParseCategory(s: string): (r: Option<Category>)
    ensures r.Some? ==> CategoryName(r.value) == s
    ensures r.None? ==> forall c :: CategoryName(c) != s
  {
    if s == "Crush" then Some(Crush)
    else if s == "Study" then Some(Study)
    else if s == "Funny" then Some(Funny)
    else if s == "Rant" then Some(Rant)
    else if s == "General" then Some(General)
    else None
  }

  /** The three counters of the `reactions` sub-document. */
  datatype Reactions = Reactions(like: int, love: int, laugh: int) {
    function Get(k: Kind): int {
      match k
      case Like => like
      case Love => love
      case Laugh => laugh
    }

    /** `reactions[k] += d`. */
    function Bump(k: Kind, d: int): (r: Reactions)
      ensures r.Get(k) == Get(k) + d
      ensures forall k' :: k' != k ==> r.Get(k') == Get(k')
    {
      match k
      case Like => this.(like := like + d)
      case Love => this.(love := love + d)
      case Laugh => this.(laugh := laugh + d)
    }

    function Total(): int {
      like + love + laugh
    }
  }

  /** One entry of the `userReactions` ledger. */
  datatype UserReaction = UserReaction(userId: UserId, kind: Kind)

  /**
   * A stored confession. `category` is `None` when the path is unset (an update
   * without a category assigns `undefined`); `secretCode` holds the hash once saved.
   */
  datatype Confession = Confession(
    owner: UserId,
    text: string,
    secretCode: string,
    category: Option<Category>,
    hashtags: seq<string>,
    reactions: Reactions,
    userReactions: seq<UserReaction>,
    isDeleted: bool,
    createdAt: int)

  /** The setter of one `hashtags` element: `trim`, then `lowercase`. */
  function CastHashtag(t: string): (r: string)
    ensures HasNoUpper(r)
    ensures r == [] || (!IsSpace(r[0]) && !IsSpace(r[|r| - 1]))
  {
    LowerKeepsSpaces(Trim(t));
    Lower(Trim(t))
  }

  function CastHashtags(ts: seq<string>): (r: seq<string>)
    ensures |r| == |ts|
    ensures forall i :: 0 <= i < |ts| ==> r[i] == CastHashtag(ts[i])
  {
    seq(|ts|, i requires 0 <= i < |ts| => CastHashtag(ts[i]))
  }

  /** The setters are idempotent: casting an already cast list changes nothing. */
  lemma CastHashtagsIdempotent(ts: seq<string>)
    ensures CastHashtags(CastHashtags(ts)) == CastHashtags(ts)
  {
    forall i | 0 <= i < |ts| ensures CastHashtag(CastHashtag(ts[i])) == CastHashtag(ts[i]) {
      var c := CastHashtag(ts[i]);
      TrimOfTrimmed(c);
      LowerOfLower(c);
    }
  }

  /** `new Confession({...})` at time `now`: setters applied, defaults filled in. */
  function NewConfession(owner: UserId, text: string, secretCode: string, category: Option<Category>,
                         hashtags: seq<string>, now: int): (c: Confession)
    ensures c.owner == owner && c.text == Trim(text) && c.secretCode == secretCode
    ensures c.category == Some(category.GetOr(General))
    ensures c.hashtags == CastHashtags(hashtags)
    ensures c.reactions == Reactions(0, 0, 0) && c.userReactions == [] && !c.isDeleted
    ensures c.createdAt == now
  {
    Confession(owner, Trim(text), secretCode, Some(category.GetOr(General)), CastHashtags(hashtags),
               Reactions(0, 0, 0), [], false, now)
  }

  /**
   * The schema validators: `text` 10 to 2000 characters (after its trim setter),
   * `secretCode` required, and every counter at least 0. Kinds and categories
   * are in their enumerations by construction of the types.
   */
  predicate ValidConfession(c: Confession) {
    && 10 <= |c.text| <= 2000
    && c.secretCode != ""
    && c.reactions.like >= 0 && c.reactions.love >= 0 && c.reactions.laugh >= 0
  }

  /** The pre-save hook: the secret code is re-hashed only when it was modified. */
  function HashSecretIfModified(c: Confession, modified: bool, h: Hasher): (r: Confession)
    ensures r == c.(secretCode := r.secretCode)
    ensures !modified ==> r == c
    ensures modified ==> r.secretCode == h.hash(c.secretCode)
  {
    if modified then c.(secretCode := h.hash(c.secretCode)) else c
  }

  /** `doc.save()`: the validators run first, then the pre-save hook. */
  function SaveConfession(c: Confession, secretModified: bool, h: Hasher): (r: Result<Confession, JsError>)
    ensures r.Success? <==> ValidConfession(c)
    ensures r.Success? ==> r.value == HashSecretIfModified(c, secretModified, h)
    ensures r.Failure? ==> r.error.name == "ValidationError"
  {
    if ValidConfession(c) then Success(HashSecretIfModified(c, secretModified, h))
    else Failure(ValidationError("Confession validation failed"))
  }

  /** `verifySecretCode(plain)`: a mismatch is `false`; only a failing comparison throws. */
  function VerifySecretCode(c: Confession, plain: string, h: Hasher): (r: Result<bool, JsError>)
    ensures r.Failure? <==> h.compare(plain, c.secretCode).None?
    ensures r.Failure? ==> r.error == PlainError("Error verifying secret code")
    ensures r.Success? ==> r.value == h.compare(plain, c.secretCode).value
  {
    match h.compare(plain, c.secretCode)
    case None => Failure(PlainError("Error verifying secret code"))
    case Some(b) => Success(b)
  }

  /** After a save that hashed plain code `p`, `verifySecretCode(p)` is true. */
  lemma SavedSecretVerifies(c: Confession, h: Hasher)
    requires Sound(h) && ValidConfession(c)
    ensures SaveConfession(c, true, h).Success?
    ensures VerifySecretCode(SaveConfession(c, true, h).value, c.secretCode, h) == Success(true)
    ensures ValidConfession(SaveConfession(c, true, h).value)
  {
    assert h.compare(c.secretCode, h.hash(c.secretCode)) == Some(true);
  }

  /** A save that did not modify the secret code keeps the stored hash. */
  lemma UnmodifiedSaveKeepsHash(c: Confession, h: Hasher)
    requires ValidConfession(c)
    ensures SaveConfession(c, false, h) == Success(c)
  {
  }
}
