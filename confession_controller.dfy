/**
 * The confession endpoints: create, list, fetch one, update and delete behind
 * the owner and secret-code checks, react, and list one's own confessions.
 * The listing endpoints are functions of the stored documents; the others are
 * methods on the store that mirror the controller's steps and its early returns.
 */
module ConfessionController {
  import opened Wrappers
  import opened Strings
  import opened Sorting
  import opened Seqs
  import opened Bcrypt
  import opened ErrorHandler
  import opened Ids
  import Joi
  import opened UserModel
  import opened ConfessionModel
  import opened ReactionLedger
  import opened Database

  // ---- request validation (the two Joi schemas) ----

  /** A create request body; a key absent from the JSON is `None`. */
  datatype CreateBody = CreateBody(text: Option<string>, secretCode: Option<string>, category: Option<string>,
                                   hashtags: Option<seq<string>>)

  /** An update request body. */
  datatype UpdateBody = UpdateBody(text: Option<string>, secretCode: Option<string>, category: Option<string>,
                                   hashtags: Option<seq<string>>, currentSecretCode: Option<string>)

  /** The value Joi hands back: `hashtags` converted, `category` parsed. */
  datatype Input = Input(text: string, secretCode: string, category: Option<Category>, hashtags: Option<seq<string>>)

  const CategoryList: string := "Crush, Study, Funny, Rant, General"

  /** `text: Joi.string().min(10).max(2000).required()` accepts `v`. */
  predicate TextAccepted(v: Option<string>) {
    v.Some? && 10 <= |v.value| <= 2000
  }

  /** `Joi.string().min(4).required()` accepts `v`. */
  predicate CodeAccepted(v: Option<string>) {
    v.Some? && 4 <= |v.value|
  }

  /** `category: Joi.string().valid(...)` accepts `v`. */
  predicate CategoryAccepted(v: Option<string>) {
    v.None? || ParseCategory(v.value).Some?
  }

  /** A tag that the hashtag setter turns into "". */
  predicate Blank(t: string) {
    Trim(t) == ""
  }

  /** `hashtags: Joi.array().items(Joi.string().trim().lowercase())` accepts `v`. */
  predicate HashtagsAccepted(v: Option<seq<string>>) {
    v.None? || forall i :: 0 <= i < |v.value| ==> !Blank(v.value[i])
  }

  function CheckCategory(v: Option<string>): (r: Result<Option<Category>, Joi.Detail>)
    ensures r.Success? <==> CategoryAccepted(v)
    ensures r.Success? ==> (r.value.None? <==> v.None?) && (r.value.Some? ==> CategoryName(r.value.value) == v.value)
    ensures r.Failure? ==> r.error == Joi.Detail("category", Joi.Only(CategoryList))
  {
    match v
    case None => Success(None)
    case Some(s) =>
      match ParseCategory(s)
      case Some(c) => Success(Some(c))
      case None => Failure(Joi.Detail("category", Joi.Only(CategoryList)))
  }

  /** The index of the first tag from position `k` on that is empty once trimmed. */
  function FirstBlankFrom(ts: seq<string>, k: nat): (r: Option<nat>)
    requires k <= |ts|
    ensures r.None? <==> forall i :: k <= i < |ts| ==> !Blank(ts[i])
    ensures r.Some? ==> k <= r.value < |ts| && Blank(ts[r.value])
    ensures r.Some? ==> forall j :: k <= j < r.value ==> !Blank(ts[j])
    decreases |ts| - k
  {
    if k == |ts| then None
    else if Blank(ts[k]) then Some(k)
    else FirstBlankFrom(ts, k + 1)
  }

  /** The index of the first tag that is empty once trimmed. */
  function FirstBlankTag(ts: seq<string>): (r: Option<nat>)
    ensures r.None? <==> forall i :: 0 <= i < |ts| ==> !Blank(ts[i])
    ensures r.Some? ==> r.value < |ts| && Blank(ts[r.value])
    ensures r.Some? ==> forall j :: 0 <= j < r.value ==> !Blank(ts[j])
  {
    FirstBlankFrom(ts, 0)
  }

  /** Each tag is converted; the first one that converts to "" is reported as `"hashtags[i]"`. */
  function CheckHashtags(v: Option<seq<string>>): (r: Result<Option<seq<string>>, Joi.Detail>)
    ensures r.Success? <==> HashtagsAccepted(v)
    ensures r.Success? ==> r.value == (if v.None? then None else Some(CastHashtags(v.value)))
    ensures r.Failure? ==> v.Some? && FirstBlankTag(v.value).Some?
    ensures r.Failure? ==> r.error == Joi.Detail("hashtags[" + Decimal(FirstBlankTag(v.value).value) + "]", Joi.Empty)
  {
    match v
    case None => Success(None)
    case Some(ts) =>
      match FirstBlankTag(ts)
      case None => Success(Some(CastHashtags(ts)))
      case Some(i) => Failure(Joi.Detail("hashtags[" + Decimal(i) + "]", Joi.Empty))
  }

  /** The keys shared by both schemas, checked in their declared order. */
  function ValidateFields(text: Option<string>, secretCode: Option<string>, category: Option<string>,
                          hashtags: Option<seq<string>>): (r: Result<Input, Joi.Detail>)
    ensures r.Success? <==> TextAccepted(text) && CodeAccepted(secretCode) && CategoryAccepted(category) && HashtagsAccepted(hashtags)
    ensures !TextAccepted(text) ==> r.Failure? && r.error.key == "text"
    ensures TextAccepted(text) && !CodeAccepted(secretCode) ==> r.Failure? && r.error.key == "secretCode"
    ensures TextAccepted(text) && CodeAccepted(secretCode) && !CategoryAccepted(category) ==>
      r == Failure(Joi.Detail("category", Joi.Only(CategoryList)))
    ensures TextAccepted(text) && CodeAccepted(secretCode) && CategoryAccepted(category) && !HashtagsAccepted(hashtags) ==>
      r.Failure? && StartsWith(r.error.key, "hashtags[") && r.error.rule == Joi.Empty
    ensures r.Success? ==> r.value.text == text.value && r.value.secretCode == secretCode.value
    ensures r.Success? ==> (r.value.category.None? <==> category.None?)
    ensures r.Success? && category.Some? ==> CategoryName(r.value.category.value) == category.value
    ensures r.Success? ==> r.value.hashtags == (if hashtags.None? then None else Some(CastHashtags(hashtags.value)))
  {
    match Joi.CheckString("text", text, true, 10, Some(2000))
    case Some(d) => Failure(d)
    case None =>
      match Joi.CheckString("secretCode", secretCode, true, 4, None)
      case Some(d) => Failure(d)
      case None =>
        match CheckCategory(category)
        case Failure(d) => Failure(d)
        case Success(c) =>
          match CheckHashtags(hashtags)
          case Failure(d) =>
            assert ("hashtags[" + Decimal(FirstBlankTag(hashtags.value).value) + "]")[..9] == "hashtags[";
            Failure(d)
          case Success(h) => Success(Input(text.value, secretCode.value, c, h))
  }

  /** `confessionValidation.validate(req.body)`. */
  function ValidateCreate(b: CreateBody): (r: Result<Input, Joi.Detail>)
    ensures r.Success? <==> TextAccepted(b.text) && CodeAccepted(b.secretCode) && CategoryAccepted(b.category) && HashtagsAccepted(b.hashtags)
    ensures r.Success? ==> 10 <= |r.value.text| <= 2000 && 4 <= |r.value.secretCode|
  {
    ValidateFields(b.text, b.secretCode, b.category, b.hashtags)
  }

  /** `updateConfessionValidation.validate(req.body)`: the shared keys, then `currentSecretCode`. */
  function ValidateUpdate(b: UpdateBody): (r: Result<(Input, string), Joi.Detail>)
    ensures r.Success? <==> TextAccepted(b.text) && CodeAccepted(b.secretCode) && CategoryAccepted(b.category)
                            && HashtagsAccepted(b.hashtags) && CodeAccepted(b.currentSecretCode)
    ensures r.Success? ==> r.value.0 == ValidateFields(b.text, b.secretCode, b.category, b.hashtags).value
    ensures r.Success? ==> r.value.1 == b.currentSecretCode.value
    ensures ValidateFields(b.text, b.secretCode, b.category, b.hashtags).Failure? ==>
      r == Failure(ValidateFields(b.text, b.secretCode, b.category, b.hashtags).error)
    ensures ValidateFields(b.text, b.secretCode, b.category, b.hashtags).Success? && !CodeAccepted(b.currentSecretCode) ==>
      r.Failure? && r.error.key == "currentSecretCode"
  {
    match ValidateFields(b.text, b.secretCode, b.category, b.hashtags)
    case Failure(d) => Failure(d)
    case Success(input) =>
      match Joi.CheckString("currentSecretCode", b.currentSecretCode, true, 4, None)
      case Some(d) => Failure(d)
      case None => Success((input, b.currentSecretCode.value))
  }

  // ---- owner and secret-code checks of update and delete ----

  /** The outcome of the checks update and delete run after the lookup, in their order. */
  datatype Access = Granted | Missing | NotOwner | WrongCode | VerifyError(err: JsError)

  function Authorize(docs: map<ConfessionId, Confession>, id: ConfessionId, requester: UserId,
                     code: string, h: Hasher): (r: Access)
    ensures r == Missing <==> id !in docs
    ensures r == NotOwner <==> id in docs && docs[id].owner != requester
    ensures r == Granted <==> id in docs && docs[id].owner == requester && VerifySecretCode(docs[id], code, h) == Success(true)
    ensures r == WrongCode <==> id in docs && docs[id].owner == requester && VerifySecretCode(docs[id], code, h) == Success(false)
    ensures r.VerifyError? ==> r.err == PlainError("Error verifying secret code")
  {
    if id !in docs then Missing
    else if docs[id].owner != requester then NotOwner
    else match VerifySecretCode(docs[id], code, h)
      case Failure(e) => VerifyError(e)
      case Success(ok) => if ok then Granted else WrongCode
  }

  /** The response to a failed check; a throwing comparison reaches the error handler. */
  function Denial(a: Access): (e: HttpError)
    requires !a.Granted?
    ensures a.Missing? ==> e == Reject(404, "Confession not found")
    ensures a.NotOwner? ==> e == Reject(403, "Unauthorized")
    ensures a.WrongCode? ==> e == Reject(401, "Incorrect secret code")
    ensures a.VerifyError? ==> e == HandleError(a.err)
  {
    match a
    case Missing => Reject(404, "Confession not found")
    case NotOwner => Reject(403, "Unauthorized")
    case WrongCode => Reject(401, "Incorrect secret code")
    case VerifyError(err) => HandleError(err)
  }

  /** The checks fail in a fixed order: 404, then 403, then 401 (or 500 if bcrypt throws). */
  lemma AccessOrder(docs: map<ConfessionId, Confession>, id: ConfessionId, requester: UserId, code: string, h: Hasher)
    ensures var a := Authorize(docs, id, requester, code, h);
      && (id !in docs ==> !a.Granted? && Denial(a).status == 404)
      && (id in docs && docs[id].owner != requester ==> !a.Granted? && Denial(a).status == 403)
      && (id in docs && docs[id].owner == requester && VerifySecretCode(docs[id], code, h) == Success(false) ==>
            !a.Granted? && Denial(a).status == 401)
      && (id in docs && docs[id].owner == requester && VerifySecretCode(docs[id], code, h).Failure? ==>
            !a.Granted? && Denial(a) == Reject(500, "Error verifying secret code"))
  {
  }

  /** Someone who does not own the confession is refused whatever code they give. */
  lemma NonOwnerRefusedWhateverCode(docs: map<ConfessionId, Confession>, id: ConfessionId, requester: UserId,
                                    code1: string, code2: string, h: Hasher)
    requires id in docs && docs[id].owner != requester
    ensures Authorize(docs, id, requester, code1, h) == Authorize(docs, id, requester, code2, h) == NotOwner
  {
  }

  /** The owner giving the code whose hash is stored is let through, by the bcrypt contract. */
  lemma OwnerWithCodeGranted(docs: map<ConfessionId, Confession>, id: ConfessionId, code: string, h: Hasher)
    requires Sound(h) && id in docs && docs[id].secretCode == h.hash(code)
    ensures Authorize(docs, id, docs[id].owner, code, h) == Granted
  {
    assert h.compare(code, h.hash(code)) == Some(true);
  }

  /** The checks never look at `isDeleted`: a soft-deleted confession passes or fails them alike. */
  lemma AccessIgnoresDeletion(docs: map<ConfessionId, Confession>, id: ConfessionId, requester: UserId,
                              code: string, h: Hasher)
    requires id in docs
    ensures Authorize(docs[id := docs[id].(isDeleted := true)], id, requester, code, h) == Authorize(docs, id, requester, code, h)
  {
  }

  /** The assignments of update: four fields replaced wholesale, hashtags defaulting to `[]`. */
  function EditConfession(c: Confession, input: Input): (r: Confession)
    ensures r.text == Trim(input.text) && r.secretCode == input.secretCode
    ensures r.category == input.category && r.hashtags == CastHashtags(input.hashtags.GetOr([]))
    ensures r.owner == c.owner && r.reactions == c.reactions && r.userReactions == c.userReactions
    ensures r.isDeleted == c.isDeleted && r.createdAt == c.createdAt
  {
    c.(text := Trim(input.text), secretCode := input.secretCode, category := input.category,
       hashtags := CastHashtags(input.hashtags.GetOr([])))
  }

  /** The ledger invariant only looks at the counters and the ledger. */
  lemma LedgerConsistentFrame(c: Confession, d: Confession)
    requires LedgerConsistent(c)
    requires d.reactions == c.reactions && d.userReactions == c.userReactions
    ensures LedgerConsistent(d)
  {
    assert forall k :: Surplus(d, k) == Surplus(c, k);
  }

  // ---- listings ----

  /** A listed document with its id. */
  datatype Entry = Entry(id: ConfessionId, doc: Confession)

  /** The stored documents with ids below `bound`, in id order. */
  function Collect(docs: map<ConfessionId, Confession>, bound: nat): (r: seq<Entry>)
    ensures forall e :: e in r <==> e.id < bound && e.id in docs && docs[e.id] == e.doc
    ensures forall i, j :: 0 <= i < j < |r| ==> r[i].id < r[j].id
  {
    if bound == 0 then []
    else
      var earlier := Collect(docs, bound - 1);
      if bound - 1 in docs then earlier + [Entry(bound - 1, docs[bound - 1])] else earlier
  }

  /** `category` absent, empty or 'All' adds no category condition to the query. */
  predicate AnyCategory(category: Option<string>) {
    category.None? || category.value == "" || category.value == "All"
  }

  /** The query of getConfessions: not deleted, and the exact category unless any is allowed. */
  predicate MatchesQuery(c: Confession, category: Option<string>) {
    && !c.isDeleted
    && (AnyCategory(category) || (c.category.Some? && CategoryName(c.category.value) == category.value))
  }

  /** `{ createdAt: -1 }`. */
  predicate NewestFirst(a: Entry, b: Entry) {
    a.doc.createdAt >= b.doc.createdAt
  }

  /** `{ 'reactions.like': -1, 'reactions.love': -1, createdAt: -1 }`. */
  predicate TrendingFirst(a: Entry, b: Entry) {
    var x, y := a.doc.reactions, b.doc.reactions;
    || x.like > y.like
    || (x.like == y.like && x.love > y.love)
    || (x.like == y.like && x.love == y.love && a.doc.createdAt >= b.doc.createdAt)
  }

  lemma NewestFirstOrders()
    ensures TotalPreorder(NewestFirst)
  {
  }

  lemma TrendingFirstOrders()
    ensures TotalPreorder(TrendingFirst)
  {
  }

  /** Only 'trending' changes the order; every other `sortBy` is newest first. */
  function ListingOrder(sortBy: Option<string>): (Entry, Entry) -> bool {
    if sortBy == Some("trending") then TrendingFirst else NewestFirst
  }

  /** The body `{ confessions, total }` of a listing. */
  datatype Listing = Listing(confessions: seq<Entry>, total: nat)

  /** getConfessions over the stored documents, whose ids are below `bound`. */
  function GetConfessions(docs: map<ConfessionId, Confession>, bound: nat, sortBy: Option<string>,
                          category: Option<string>): (r: Listing)
    ensures r.total == |r.confessions|
    ensures forall e :: e in r.confessions <==> e.id < bound && e.id in docs && docs[e.id] == e.doc && MatchesQuery(e.doc, category)
    ensures multiset(r.confessions) <= multiset(Collect(docs, bound))
    ensures SortedBy(r.confessions, ListingOrder(sortBy))
  {
    var found := Filter(Collect(docs, bound), (e: Entry) => MatchesQuery(e.doc, category));
    NewestFirstOrders();
    TrendingFirstOrders();
    SortSorted(found, ListingOrder(sortBy));
    SortMembers(found, ListingOrder(sortBy));
    var sorted := Sort(found, ListingOrder(sortBy));
    Listing(sorted, |sorted|)
  }

  /** getUserConfessions: the requester's confessions that are not deleted, newest first. */
  function GetUserConfessions(docs: map<ConfessionId, Confession>, bound: nat, requester: UserId): (r: Listing)
    ensures r.total == |r.confessions|
    ensures forall e :: e in r.confessions <==> e.id < bound && e.id in docs && docs[e.id] == e.doc && e.doc.owner == requester && !e.doc.isDeleted
    ensures multiset(r.confessions) <= multiset(Collect(docs, bound))
    ensures SortedBy(r.confessions, NewestFirst)
  {
    var found := Filter(Collect(docs, bound), (e: Entry) => e.doc.owner == requester && !e.doc.isDeleted);
    NewestFirstOrders();
    SortSorted(found, NewestFirst);
    SortMembers(found, NewestFirst);
    var sorted := Sort(found, NewestFirst);
    Listing(sorted, |sorted|)
  }

  /** getConfessionById: a missing or soft-deleted confession is a 404. */
  function GetConfessionById(docs: map<ConfessionId, Confession>, id: ConfessionId): (r: Reply<Confession>)
    ensures r.Ok? <==> id in docs && !docs[id].isDeleted
    ensures r.Ok? ==> r.code == 200 && r.value == docs[id]
    ensures r.Fail? ==> r.failure == Reject(404, "Confession not found")
  {
    if id !in docs || docs[id].isDeleted then Fail(Reject(404, "Confession not found"))
    else Ok(200, docs[id])
  }

  /** A listing never shows a deleted confession, nor does fetching it by id. */
  lemma DeletedNeverListed(docs: map<ConfessionId, Confession>, bound: nat, sortBy: Option<string>,
                           category: Option<string>, id: ConfessionId)
    requires id in docs && docs[id].isDeleted
    ensures Entry(id, docs[id]) !in GetConfessions(docs, bound, sortBy, category).confessions
    ensures GetConfessionById(docs, id).Status() == 404
  {
  }

  // ---- the endpoints that write ----

  /** The author as `populate('userId', 'displayName avatar')` shows it. */
  datatype OwnerView = OwnerView(id: UserId, displayName: Option<string>, avatar: Option<string>)

  /** The `confession` object of the create response; it has no secret code. */
  datatype CreatedView = CreatedView(id: ConfessionId, text: string, category: Option<Category>, hashtags: seq<string>,
                                     reactions: Reactions, owner: OwnerView, createdAt: int)

  /** The `confession` object of the update response. */
  datatype UpdatedView = UpdatedView(id: ConfessionId, text: string, category: Option<Category>, hashtags: seq<string>,
                                     reactions: Reactions, createdAt: int)

  /** A user without a display name gets `Anon#n`; one with a display name is left alone. */
  function WithDisplayName(u: User, draw: nat): (r: User)
    requires draw < 10000
    ensures r == u.(displayName := r.displayName)
    ensures u.displayName.Some? && u.displayName.value != "" ==> r == u
    ensures u.displayName.None? || u.displayName == Some("") ==> r.displayName == Some(AnonName(draw))
  {
    if u.displayName.None? || u.displayName == Some("") then u.(displayName := Some(AnonName(draw))) else u
  }

  /** The display-name step of createConfession: assign one and save the user, if it has none. */
  method EnsureDisplayName(db: Db, requester: UserId, draw: nat) returns (user: User)
    requires db.Valid() && requester in db.users && draw < 10000
    modifies db
    ensures db.Valid()
    ensures user == WithDisplayName(old(db.users)[requester], draw)
    ensures db.users == old(db.users)[requester := user] && db.nextUser == old(db.nextUser)
    ensures db.confessions == old(db.confessions) && db.nextConfession == old(db.nextConfession)
  {
    user := db.users[requester];
    if user.displayName.None? || user.displayName == Some("") {
      user := user.(displayName := Some(AnonName(draw)));
      var saved := SaveUser(user, false, db.crypto);
      assert saved == Success(user);
      UniqueKeysKept(db.users, requester, user);
      db.PutUser(requester, saved.value);
    }
  }

  /**
   * createConfession for the signed-in `requester` at time `now`, with `draw`
   * the random number of a display name it may assign.
   */
  method CreateConfession(db: Db, requester: UserId, body: CreateBody, now: int, draw: nat) returns (reply: Reply<CreatedView>)
    requires db.Valid() && draw < 10000
    modifies db
    ensures db.Valid()
    ensures db.nextUser == old(db.nextUser)
    ensures ValidateCreate(body).Failure? ==>
      reply == Fail(Joi.BadRequest(ValidateCreate(body).error)) && unchanged(db)
    ensures ValidateCreate(body).Success? && requester !in old(db.users) ==>
      reply == Fail(Reject(404, "User not found")) && unchanged(db)
    ensures ValidateCreate(body).Success? && requester in old(db.users) ==>
      var input := ValidateCreate(body).value;
      var user := WithDisplayName(old(db.users)[requester], draw);
      var c := NewConfession(requester, input.text, input.secretCode, input.category, input.hashtags.GetOr([]), now);
      var id := old(db.nextConfession);
      && db.users == old(db.users)[requester := user]
      && (ValidConfession(c) ==>
            && db.confessions == old(db.confessions)[id := HashSecretIfModified(c, true, db.crypto)]
            && db.nextConfession == id + 1
            && reply == Ok(201, CreatedView(id, c.text, c.category, c.hashtags, c.reactions,
                                            OwnerView(requester, user.displayName, user.avatar), now)))
      && (!ValidConfession(c) ==>
            && db.confessions == old(db.confessions) && db.nextConfession == old(db.nextConfession)
            && reply == Fail(HandleError(ValidationError("Confession validation failed"))))
  {
    var validated := ValidateCreate(body);
    if validated.Failure? {
      return Fail(Joi.BadRequest(validated.error));
    }
    var input := validated.value;
    if requester !in db.users {
      return Fail(Reject(404, "User not found"));
    }
    var user := EnsureDisplayName(db, requester, draw);
    var c := NewConfession(requester, input.text, input.secretCode, input.category, input.hashtags.GetOr([]), now);
    var saved := SaveConfession(c, true, db.crypto);
    if saved.Failure? {
      return Fail(HandleError(saved.error));
    }
    NewConfessionConsistent(requester, input.text, input.secretCode, input.category, input.hashtags.GetOr([]), now);
    SavedSecretVerifies(c, db.crypto);
    LedgerConsistentFrame(c, saved.value);
    var id := db.InsertConfession(saved.value);
    var stored := saved.value;
    reply := Ok(201, CreatedView(id, stored.text, stored.category, stored.hashtags, stored.reactions,
                                 OwnerView(requester, user.displayName, user.avatar), stored.createdAt));
  }

  /** updateConfession of confession `id` by the signed-in `requester`. */
  method UpdateConfession(db: Db, id: ConfessionId, requester: UserId, body: UpdateBody) returns (reply: Reply<UpdatedView>)
    requires db.Valid()
    modifies db
    ensures db.Valid()
    ensures db.users == old(db.users) && db.nextUser == old(db.nextUser) && db.nextConfession == old(db.nextConfession)
    ensures ValidateUpdate(body).Failure? ==>
      reply == Fail(Joi.BadRequest(ValidateUpdate(body).error)) && db.confessions == old(db.confessions)
    ensures ValidateUpdate(body).Success? ==>
      var (input, current) := ValidateUpdate(body).value;
      var access := Authorize(old(db.confessions), id, requester, current, db.crypto);
      && (!access.Granted? ==> reply == Fail(Denial(access)) && db.confessions == old(db.confessions))
      && (access.Granted? ==>
            var before := old(db.confessions)[id];
            var edited := EditConfession(before, input);
            && (ValidConfession(edited) ==>
                  var stored := HashSecretIfModified(edited, input.secretCode != before.secretCode, db.crypto);
                  && db.confessions == old(db.confessions)[id := stored]
                  && reply == Ok(200, UpdatedView(id, stored.text, stored.category, stored.hashtags,
                                                  stored.reactions, stored.createdAt)))
            && (!ValidConfession(edited) ==>
                  && db.confessions == old(db.confessions)
                  && reply == Fail(HandleError(ValidationError("Confession validation failed")))))
    ensures reply.Ok? ==> id in old(db.confessions) && old(db.confessions)[id].owner == requester
    ensures reply.Ok? ==>
      var (before, after) := (old(db.confessions)[id], db.confessions[id]);
      && after.reactions == before.reactions && after.userReactions == before.userReactions
      && after.isDeleted == before.isDeleted && after.owner == before.owner
    ensures reply.Ok? && ValidateUpdate(body).value.0.secretCode != old(db.confessions)[id].secretCode ==>
      VerifySecretCode(db.confessions[id], ValidateUpdate(body).value.0.secretCode, db.crypto) == Success(true)
  {
    var validated := ValidateUpdate(body);
    if validated.Failure? {
      return Fail(Joi.BadRequest(validated.error));
    }
    var (input, current) := validated.value;
    var access := Authorize(db.confessions, id, requester, current, db.crypto);
    if !access.Granted? {
      return Fail(Denial(access));
    }
    var before := db.confessions[id];
    var edited := EditConfession(before, input);
    var modified := input.secretCode != before.secretCode;
    var saved := SaveConfession(edited, modified, db.crypto);
    if saved.Failure? {
      return Fail(HandleError(saved.error));
    }
    var stored := saved.value;
    if modified {
      SavedSecretVerifies(edited, db.crypto);
    }
    LedgerConsistentFrame(before, stored);
    db.PutConfession(id, stored);
    reply := Ok(200, UpdatedView(id, stored.text, stored.category, stored.hashtags, stored.reactions, stored.createdAt));
  }

  /** deleteConfession: a soft delete behind the same checks, after a shape check of the code. */
  method DeleteConfession(db: Db, id: ConfessionId, requester: UserId, secretCode: Option<string>) returns (reply: Reply<string>)
    requires db.Valid()
    modifies db
    ensures db.Valid()
    ensures db.users == old(db.users) && db.nextUser == old(db.nextUser) && db.nextConfession == old(db.nextConfession)
    ensures !CodeAccepted(secretCode) ==>
      reply == Fail(Reject(400, "Secret code is required and must be at least 4 characters"))
      && db.confessions == old(db.confessions)
    ensures CodeAccepted(secretCode) ==>
      var access := Authorize(old(db.confessions), id, requester, secretCode.value, db.crypto);
      && (!access.Granted? ==> reply == Fail(Denial(access)) && db.confessions == old(db.confessions))
      && (access.Granted? ==>
            && db.confessions == old(db.confessions)[id := old(db.confessions)[id].(isDeleted := true)]
            && reply == Ok(200, "Confession deleted successfully"))
    ensures reply.Ok? ==> GetConfessionById(db.confessions, id).Status() == 404
  {
    if secretCode.None? || |secretCode.value| < 4 {
      return Fail(Reject(400, "Secret code is required and must be at least 4 characters"));
    }
    var access := Authorize(db.confessions, id, requester, secretCode.value, db.crypto);
    if !access.Granted? {
      return Fail(Denial(access));
    }
    var deleted := db.confessions[id].(isDeleted := true);
    var saved := SaveConfession(deleted, false, db.crypto);
    assert saved == Success(deleted);
    LedgerConsistentFrame(db.confessions[id], deleted);
    db.PutConfession(id, saved.value);
    reply := Ok(200, "Confession deleted successfully");
  }

  /**
   * addReaction by the signed-in `requester`. The kind is checked before the
   * lookup; a soft-deleted confession still takes reactions.
   */
  method AddReaction(db: Db, id: ConfessionId, requester: UserId, reactionType: Option<string>) returns (reply: Reply<Reactions>)
    requires db.Valid()
    modifies db
    ensures db.Valid()
    ensures db.users == old(db.users) && db.nextUser == old(db.nextUser) && db.nextConfession == old(db.nextConfession)
    ensures ParseKind(reactionType).None? ==>
      reply == Fail(Reject(400, "Invalid reaction type")) && db.confessions == old(db.confessions)
    ensures ParseKind(reactionType).Some? && id !in old(db.confessions) ==>
      reply == Fail(Reject(404, "Confession not found")) && db.confessions == old(db.confessions)
    ensures ParseKind(reactionType).Some? && id in old(db.confessions) ==>
      var after := ApplyReaction(old(db.confessions)[id], requester, ParseKind(reactionType).value);
      db.confessions == old(db.confessions)[id := after] && reply == Ok(200, after.reactions)
  {
    var kind := ParseKind(reactionType);
    if kind.None? {
      return Fail(Reject(400, "Invalid reaction type"));
    }
    if id !in db.confessions {
      return Fail(Reject(404, "Confession not found"));
    }
    var before := db.confessions[id];
    var after := ApplyReaction(before, requester, kind.value);
    ReactionKeepsConsistent(before, requester, kind.value);
    var saved := SaveConfession(after, false, db.crypto);
    assert saved == Success(after);
    db.PutConfession(id, saved.value);
    reply := Ok(200, after.reactions);
  }
}
