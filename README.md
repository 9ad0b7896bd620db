# WhisperWall in Dafny

WhisperWall is an anonymous confession board. The backend is an Express/Mongoose
service. Users sign up with email and password, or with Google. They post
confessions protected by a secret code, edit and soft-delete them after
re-entering that code, and react to them with one of three kinds: like, love
or laugh. The React frontend validates its forms, builds request payloads, and
keeps a few lists in component state.

This project models the core of that system and proves properties of the model:

- **Confession lifecycle and reaction ledger** (`confession_model.dfy`,
  `reaction_ledger.dfy`, `confession_controller.dfy`).
  - The store is a class `Database.Db` with one map per collection and
    increasing ids.
  - Create validates the Joi schema, fills the defaults and hashes the code.
  - Update and delete refuse in a fixed order: missing (404), not the owner
    (403), wrong code (401).
  - A reaction removes the caller's old ledger entry, decrements its counter,
    then appends the new entry and increments its counter.
  - The invariant kept is "counter minus ledger tally, per kind". The counters
    may also count reactions that have no entry in the ledger.
- **Accounts** (`user_model.dfy`, `auth_controller.dfy`, `passport.dfy`,
  `google_profile.dfy`): signup, login, the current user, the controller's
  Google callback, and the Passport strategy's lookup, link or create. The
  unique indexes are part of the store's invariant. One is on email. The other is
  on googleId, read as covering only users whose googleId is not null (see
  Findings).
- **Error mapping** (`error_handler.dfy`): how an error object becomes a
  status and a JSON body.
- **Client forms** (`confession_modal.dfy`, `login_signup.dfy`,
  `create_modal.dfy`): the order of the checks, the payloads, and the hashtag
  tokenising with its round trip.
- **Client lists** (`app.dfy`, `feed.dfy`, `home_page.dfy`,
  `confession_card.dfy`, `chats_page.dfy`): post and like updates, the feed's
  filter/search/sort pipeline, derived counts, the like toggle, and the chat
  contact updates.

Supporting modules:

- `wrappers.dfy` holds `Option` and `Result`.
- `strings.dfy` holds ASCII `trim`, `toLowerCase`, `split(/\s+/)`,
  `join(' ')`, `includes` and decimal rendering.
- `sorting.dfy` holds a stable insertion sort by a total preorder.
- `seqs.dfy` holds `filter`.
- `bcrypt.dfy` holds bcrypt as two uninterpreted functions. `compare(p, hash(p))`
  being true is the library's contract.
- `joi.dfy` holds the Joi rules used by the schemas, with their first error
  and its message.

Inputs the code takes from its environment are parameters:

- `now` stands for the clock.
- `draw` stands for `Math.random()`. It is below 10000 for `Anon#n` and
  below 9000 for the demo feed's `Anon #n`.
- `outcome` says how a promise settled.
- The hash functions stand for bcrypt.

Where `findOne` has a choice, it returns the match with the smallest id.

## Model

| member | source | states |
|---|---|---|
| ErrorHandler.HandleError | backend/middleware/errorHandler.js:1-19 | The first matching rule wins. ValidationError gives 400 with details. CastError gives 400 'Invalid ID'. MongoError with code 11000 gives 409. Anything else gives statusCode or 500, with message or 'Internal server error'. Only ValidationError carries details. |
| ErrorHandler.BareErrorIsInternal | backend/middleware/errorHandler.js:16-18 | An error with no status code and no message is a 500 'Internal server error'. |
| ErrorHandler.OtherMongoCodeFallsThrough | backend/middleware/errorHandler.js:12-18 | A MongoError whose code is not 11000 reaches the default rule; it is a 409 only if its own statusCode says so. |
| ConfessionModel.ParseKind | backend/controllers/confessionController.js:205-207 | A reaction type is accepted exactly when it is 'like', 'love' or 'laugh', and it then names that kind. |
| ConfessionModel.ParseCategory | backend/models/Confession.js:22-26 | Only the five enumerated categories parse, each to itself. |
| ConfessionModel.Reactions.Bump | backend/controllers/confessionController.js:222-229 | Changes the named counter by the given amount; the other two do not change. |
| ConfessionModel.CastHashtag | backend/models/Confession.js:27-33 | A cast hashtag has no upper-case letter and no white space at either end. |
| ConfessionModel.CastHashtags | backend/models/Confession.js:27-33 | The setter is applied element by element, and the length is kept. |
| ConfessionModel.CastHashtagsIdempotent | backend/models/Confession.js:27-33 | Casting an already cast list changes nothing. |
| ConfessionModel.NewConfession | backend/models/Confession.js:11-73 | Text is trimmed. Category defaults to General. Hashtags are cast. All three counters are 0. The ledger is empty. isDeleted is false. |
| ConfessionModel.HashSecretIfModified | backend/models/Confession.js:79-91 | Only the secret changes. It is unchanged when not modified, and hash(plain) when modified. |
| ConfessionModel.SaveConfession | backend/models/Confession.js:11-91 | A save succeeds exactly when the validators pass (text 10–2000, secret present, no negative counter). It then runs the hook; otherwise it fails with a ValidationError. |
| ConfessionModel.ValidConfession | backend/models/Confession.js:11-57 | The validators: text of 10 to 2000 characters, a non-empty secret code, and no counter below 0. |
| ConfessionModel.VerifySecretCode | backend/models/Confession.js:94-100 | A mismatch is false. It throws 'Error verifying secret code' only when the comparison itself fails. |
| ConfessionModel.SavedSecretVerifies | backend/models/Confession.js:84-96 | After a save that hashed plain code p, verifySecretCode(p) is true. |
| ConfessionModel.UnmodifiedSaveKeepsHash | backend/models/Confession.js:79-82 | A save that did not modify the secret keeps the stored hash. |
| UserModel.NormalizeEmail | backend/models/User.js:6-12 | The stored email is lower-case and has no white space at either end. |
| UserModel.NormalizeEmailIdempotent | backend/models/User.js:10-11 | Normalising twice is normalising once. |
| UserModel.NewUser | backend/models/User.js:13-39 | The email is normalised. An absent authMethod defaults to 'email'. The optional fields are null unless given. |
| UserModel.AnonName | backend/controllers/authController.js:37 | `Anon#n` starts with 'Anon#', has 1 to 4 digits after it, and those digits read back as n. |
| UserModel.AnonNameInjective | backend/controllers/authController.js:37 | Different draws give different display names. |
| UserModel.HashPasswordIfModified | backend/models/User.js:45-61 | The password is hashed only when it was modified and is neither null nor empty. Nothing else changes. |
| UserModel.SaveUser | backend/models/User.js:6-61 | A save succeeds exactly when email and name are present. It then runs the hook. |
| UserModel.ValidUser | backend/models/User.js:6-20 | The validators: the required email and name are non-empty. |
| UserModel.ComparePassword | backend/models/User.js:64-70 | The result is bcrypt's boolean. It fails with 'Error comparing passwords' when there is no stored password or the comparison fails. |
| UserModel.SavedPasswordMatches | backend/models/User.js:54-66 | A user saved with a modified password p passes comparePassword(p). |
| UserModel.NullPasswordNeverHashed | backend/models/User.js:14-52 | An OAuth user's null password stays null through the hook. |
| ReactionLedger.FindReaction | backend/controllers/confessionController.js:216-218 | Returns the first ledger entry of the user, or none when the user has no entry. |
| ReactionLedger.RemoveUser | backend/controllers/confessionController.js:223-225 | Drops every entry of the user and keeps the others in order. |
| ReactionLedger.ApplyReaction | backend/controllers/confessionController.js:216-233 | A reaction changes only the counters and the ledger of the document. |
| ReactionLedger.ReactionLedgerEntries | backend/controllers/confessionController.js:216-233 | After a reaction the ledger has exactly one entry for the user, of the new kind. Other users' entries keep their count. |
| ReactionLedger.LedgerAfterReaction | backend/controllers/confessionController.js:223-233 | The new ledger is the others' entries in their old order, followed by the user's new entry. |
| ReactionLedger.RemoveUserTwice | backend/controllers/confessionController.js:223-225 | Removing a user twice is removing once. |
| ReactionLedger.ReactionPreservesSurplus | backend/controllers/confessionController.js:216-233 | With at most one entry per user, every kind's counter-minus-tally is unchanged by a reaction. |
| ReactionLedger.ReactionTotal | backend/controllers/confessionController.js:220-229 | The sum of the counters grows by 1 exactly when the user had no entry, and is otherwise unchanged. |
| ReactionLedger.SameKindReReact | backend/controllers/confessionController.js:216-233 | Re-reacting with the same kind leaves the counters unchanged and moves the user's entry to the end. |
| ReactionLedger.ReactionKeepsOnePerUser | backend/controllers/confessionController.js:223-233 | A reaction keeps the ledger at one entry per user. |
| ReactionLedger.ReactionKeepsConsistent | backend/controllers/confessionController.js:216-235 | A consistent document (one entry per user, no counter below its tally) stays consistent. Its counters stay non-negative, so the save's min: 0 check passes. |
| ReactionLedger.ConsistentCountersNonNegative | backend/models/Confession.js:34-50 | No counter of a consistent document is negative. |
| ReactionLedger.TotalIsLedgerPlusSurplus | backend/controllers/confessionController.js:229-233 | The counters sum to the ledger's length plus the per-kind surpluses. |
| ReactionLedger.NewConfessionConsistent | backend/models/Confession.js:34-59 | A new confession is consistent, with zero surplus. |
| Database.FindByEmail | backend/controllers/authController.js:27 | findOne({email}) through the setters. A hit is a stored user with the normalised email; a miss means no such user. |
| Database.FindByGoogleId | backend/config/passport.js:17 | findOne({googleId}). A hit has that googleId; a miss means no user has it. |
| Database.FindByEmailUnique | backend/models/User.js:9 | Under the unique index, the user with the email is the one findOne returns. |
| Database.UniqueKeysKept | backend/models/User.js:9-33 | Re-saving a user whose email and googleId did not change keeps the unique indexes. |
| Database.UniqueKeysLinked | backend/config/passport.js:29-32 | Giving a user a googleId that no other user has keeps the unique indexes. |
| Database.UniqueKeys | backend/models/User.js:9-33 | No two users share an email or a non-null googleId. This is the partial reading of the googleId index; see Findings. |
| Database.UniqueKeysAsDeclared | backend/models/User.js:9-33 | No two users share an email or a googleId, null included. This is the indexes as declared. |
| Database.AsDeclaredIsStricter | backend/models/User.js:29-34 | Whatever the declared indexes accept, the partial index accepts. |
| Database.SecondNullGoogleIdAsDeclared | backend/models/User.js:29-34 | As declared, a second user without a googleId breaks the googleId index whatever its email. The duplicate-key error it raises is answered with 500. |
| Database.TwoEmailAccounts | backend/models/User.js:29-34 | Two email accounts with different emails are accepted by the partial index and refused by the declared one. |
| Database.NullGoogleIdsCoexist | backend/models/User.js:29-34 | Under the partial index, inserting a user without a googleId keeps the indexes exactly when its email is new. |
| Database.UniqueKeysInsert | backend/models/User.js:9-33 | An insert keeps the partial indexes exactly when no stored user has the new email, nor its googleId if it has one. |
| Database.UniqueKeysInsertNewEmail | backend/models/User.js:9-33 | A new account whose googleId no stored account has can be inserted exactly when findOne({email}) finds nothing. |
| Database.DuplicateKeyError | backend/middleware/errorHandler.js:12 | The driver's duplicate-key error has code 11000 but is not named 'MongoError'. |
| Database.Db.InsertUser | backend/models/User.js:9-33 | An insert succeeds exactly when the partial unique indexes allow it, under the next id. Otherwise it raises the duplicate-key error and nothing changes. |
| Database.Db.PutUser | backend/config/passport.js:21-32 | Saving an existing user replaces that document only. |
| Database.Db.InsertConfession | backend/controllers/confessionController.js:50 | A new confession is stored under a fresh id; nothing else changes. |
| Database.Db.PutConfession | backend/controllers/confessionController.js:191-192 | Saving an existing confession replaces that document only. |
| Joi.Message | backend/controllers/confessionController.js:26 | Every Joi message starts with the quoted key. |
| Joi.CheckString | backend/controllers/confessionController.js:7-8 | Joi.string() with min, max and required. It passes exactly when absent and optional, or present, non-empty and within the bounds. A required key that is absent gives any.required. |
| Joi.CheckEmail | backend/controllers/authController.js:6 | Joi.string().email() passes exactly when the value is present, non-empty and an address. |
| Joi.BadRequest | backend/controllers/authController.js:20-22 | The error response is a 400 whose message starts with the quoted key. |
| ConfessionController.CheckCategory | backend/controllers/confessionController.js:9 | An absent category passes. A present one passes exactly when it is one of the five; otherwise the error is any.only. |
| ConfessionController.FirstBlankTag | backend/controllers/confessionController.js:10 | Returns the first hashtag that trims to empty, or none when every tag is non-blank. |
| ConfessionController.CheckHashtags | backend/controllers/confessionController.js:10 | Accepts exactly when no item trims to empty, and returns the cast items. Otherwise the error names the first blank item's index. |
| ConfessionController.ValidateFields | backend/controllers/confessionController.js:6-11 | The first error follows key order: text, secretCode, category, hashtags. It succeeds exactly when all four pass. |
| ConfessionController.ValidateCreate | backend/controllers/confessionController.js:6-27 | Create's schema accepts exactly when all four keys pass; the text is 10–2000 and the code at least 4. |
| ConfessionController.ValidateUpdate | backend/controllers/confessionController.js:13-19 | The update schema is the shared keys, then currentSecretCode of at least 4. |
| ConfessionController.Authorize | backend/controllers/confessionController.js:125-189 | Each outcome holds exactly under its condition: missing, then not the owner, then the code verifies or not. A verification error is its own outcome. |
| ConfessionController.Denial | backend/controllers/confessionController.js:127-139 | Missing gives 404. Not the owner gives 403. A wrong code gives 401. A verification error goes through errorHandler. |
| ConfessionController.AccessOrder | backend/controllers/confessionController.js:125-139 | Only the first failing check decides the status. |
| ConfessionController.NonOwnerRefusedWhateverCode | backend/controllers/confessionController.js:131-133 | A non-owner is refused with any code, even the correct one. |
| ConfessionController.OwnerWithCodeGranted | backend/controllers/confessionController.js:136-139 | The owner with the plain code the stored hash was made from is granted. |
| ConfessionController.AccessIgnoresDeletion | backend/controllers/confessionController.js:175-189 | Soft deletion does not change the outcome: isDeleted is not checked. |
| ConfessionController.EditConfession | backend/controllers/confessionController.js:142-145 | Replaces text (trimmed), secret, category (possibly unset) and hashtags (cast, default []). Owner, reactions, ledger, isDeleted and createdAt are kept. |
| ConfessionController.LedgerConsistentFrame | backend/controllers/confessionController.js:142-147 | Changing fields other than the counters and the ledger keeps the ledger consistent. |
| ConfessionController.Collect | backend/controllers/confessionController.js:85 | The stored documents, each once, in increasing id order. |
| ConfessionController.NewestFirstOrders | backend/controllers/confessionController.js:80 | 'createdAt desc' is a total preorder. |
| ConfessionController.TrendingFirstOrders | backend/controllers/confessionController.js:81-83 | 'like desc, love desc, createdAt desc' is a total preorder. |
| ConfessionController.GetConfessions | backend/controllers/confessionController.js:71-97 | A document is listed exactly when it is not deleted and matches the category ('All' or absent matches every category). The list is a sub-multiset of the store, sorted trending-first for 'trending' and newest-first otherwise. total is its length. |
| ConfessionController.MatchesQuery | backend/controllers/confessionController.js:74-78 | The query: not deleted, and the exact category unless none or 'All' is asked for. |
| ConfessionController.NewestFirst | backend/controllers/confessionController.js:80 | The default sort, by createdAt descending. |
| ConfessionController.TrendingFirst | backend/controllers/confessionController.js:81-83 | The trending sort: likes descending, then loves, then createdAt. |
| ConfessionController.ListingOrder | backend/controllers/confessionController.js:80-83 | Only sortBy 'trending' selects the trending order. |
| ConfessionController.GetUserConfessions | backend/controllers/confessionController.js:247-264 | The requester's non-deleted documents, exactly, newest first; total is their number. |
| ConfessionController.GetConfessionById | backend/controllers/confessionController.js:100-113 | 200 with the document exactly when it exists and is not deleted; otherwise 404. |
| ConfessionController.DeletedNeverListed | backend/controllers/confessionController.js:74-107 | A soft-deleted confession is not listed and reads as 404. |
| ConfessionController.WithDisplayName | backend/controllers/confessionController.js:37-40 | A user without a display name (null or empty) gets Anon#n. Anyone else is unchanged. |
| ConfessionController.EnsureDisplayName | backend/controllers/confessionController.js:37-40 | The requester's document becomes WithDisplayName of it; only that user changes. |
| ConfessionController.CreateConfession | backend/controllers/confessionController.js:22-68 | Bad input gives 400 and nothing changes. An unknown user gives 404 and nothing changes. Otherwise the new confession is stored with its code hashed, and the 201 view has no secret. |
| ConfessionController.UpdateConfession | backend/controllers/confessionController.js:116-164 | Bad input gives 400. Then the 404/403/401 order applies, with the store unchanged on every failure. On success only that document changes, to EditConfession of it with the new code hashed. |
| ConfessionController.DeleteConfession | backend/controllers/confessionController.js:167-198 | A missing or short code gives 400 before the lookup. Then 404/403/401. On success only isDeleted becomes true, also for an already deleted record, and the record then reads as 404. |
| ConfessionController.AddReaction | backend/controllers/confessionController.js:201-244 | An invalid type gives 400 before the lookup. A missing id gives 404. Otherwise the document becomes ApplyReaction of it, deleted or not, and its counters are returned. A failure changes nothing. |
| GoogleProfile.FirstPhoto | backend/config/passport.js:20-41 | `profile.photos[0]?.value \|\| …` counts only when it is non-empty. |
| GoogleProfile.NewGoogleUser | backend/config/passport.js:37-44 | A new Google user has the profile's id, normalised email, name and first photo, authMethod 'google', a null password and Anon#n. |
| AuthController.ValidateSignup | backend/controllers/authController.js:5-22 | Succeeds exactly when the email is an address, the password has at least 6 characters and the name 2 to 50. The first error is on email, then password, then name. |
| AuthController.ValidateLogin | backend/controllers/authController.js:11-14 | Succeeds exactly when the email is an address and the password is non-empty. |
| AuthController.AcceptedEmailNormalizes | backend/controllers/authController.js:27-34 | An email that Joi accepts loses nothing to the setters except its case. |
| AuthController.SignupUser | backend/controllers/authController.js:33-41 | The signup user has the normalised email, the hashed password, Anon#n, authMethod 'email', and no avatar or googleId. |
| AuthController.Signup | backend/controllers/authController.js:17-61 | Bad input gives 400 and an existing email gives 409, with nothing created in either case. Otherwise one new user is stored and the session holds its id, under the partial googleId index. The reply is 201 with a projection that has no password. The stored password matches the one signed up with. |
| AuthController.Login | backend/controllers/authController.js:64-109 | 400 on bad input. An unknown email gives 401 'Invalid email or password'. A null or empty password gives the Google-OAuth 401, checked before any comparison. A wrong password gives the same 401 as an unknown email. A comparison error goes through errorHandler. Success gives 200 with the projection and the session. The store is only read. |
| AuthController.GetCurrentUser | backend/controllers/authController.js:112-126 | No session user gives 401 'Not authenticated'. Otherwise 200 with id, email, name, displayName and avatar. |
| AuthController.GoogleCallback | backend/controllers/authController.js:139-161 | A googleId match is returned unchanged. Otherwise a new Google user is inserted. No email linking is done, so an existing email makes the insert fail with the duplicate-key error. |
| AuthController.CreateGoogleAccount | backend/controllers/authController.js:147-157 | For a profile that no account is linked to: a failed validation leaves the store unchanged. An existing email gives the duplicate-key error and also leaves it unchanged. Otherwise exactly one new Google user is stored under the next id. |
| Passport.RefreshAvatar | backend/config/passport.js:20 | The avatar becomes the first profile photo when there is one, and is otherwise kept. Nothing else changes. |
| Passport.LinkGoogle | backend/config/passport.js:29-31 | Sets googleId and authMethod 'google'. Keeps a non-empty avatar, else takes the photo or null. Nothing else changes. |
| Passport.GoogleVerify | backend/config/passport.js:12-51 | The googleId match comes first and is refreshed. Otherwise an email match is linked. Otherwise a new user is created. A user is created only in the third branch. The resolved user always carries the profile's googleId. |
| Passport.DeserializeUser | backend/config/passport.js:60-67 | findById: the stored user under the id, or null. |
| Passport.SerializeUser | backend/config/passport.js:56-58 | The session keeps only the user's id. |
| Passport.SessionRoundTrip | backend/config/passport.js:56-67 | Deserialising a serialised stored user gives that user back. |
| Strings.Trim | frontend/src/components/ConfessionModal.jsx:57 | A trimmed string has no white space at either end. |
| Strings.TrimIdempotent | frontend/src/components/ConfessionModal.jsx:80 | Trimming twice is trimming once. |
| Strings.SplitJoin | frontend/src/components/ConfessionModal.jsx:82-86 | Splitting on white space the join of non-empty, space-free words gives the words back. |
| Strings.SplitFromPieces | frontend/src/components/ConfessionModal.jsx:82-86 | The pieces of split(/\s+/) hold no white space, and no upper-case letter when the input holds none. |
| Strings.DecimalRoundTrip | backend/controllers/authController.js:37 | Reading back the decimal rendering of n gives n. |
| Sorting.SortSorted | backend/controllers/confessionController.js:86 | The sort orders its output by any total preorder. |
| Sorting.SortMembers | frontend/src/pages/Feed.jsx:11-14 | Sorting keeps exactly the same elements. |
| Sorting.Sort | backend/controllers/confessionController.js:86 | The sort returns a permutation of its input, of the same length. |
| Seqs.Filter | frontend/src/pages/Feed.jsx:9-10 | filter keeps exactly the elements that satisfy the test, as a sub-multiset. |
| Seqs.FilterFilter | frontend/src/pages/Feed.jsx:9-10 | Two filters in a row are one filter by a test that holds exactly when both do. |
| Seqs.FilterNone | frontend/src/pages/HomePage.jsx:90 | A filter that keeps no element gives the empty sequence. |
| Seqs.FilterMembers | frontend/src/pages/Feed.jsx:9-10 | An element survives filter exactly when it occurs in the input and passes the test. |
| ConfessionModal.FormFor | frontend/src/components/ConfessionModal.jsx:19-38 | When editing, the form takes the confession's text with both codes blank, and its category or 'General'. Otherwise it is the blank form with 'General'. |
| ConfessionModal.SubmitError | frontend/src/components/ConfessionModal.jsx:52-75 | The first failing check decides, in order: no user, trimmed text under 10, edit mode without the current code, create-mode code under 4, edit-mode new code under 4. There is no error exactly when all checks pass. |
| ConfessionModal.EditNeedsNewCode | frontend/src/components/ConfessionModal.jsx:72-75 | Although labelled optional, the new code of an edit must have at least 4 characters. |
| ConfessionModal.BuildHashtags | frontend/src/components/ConfessionModal.jsx:82-86 | Every built hashtag is non-empty, has no white space and has no upper-case letter. |
| ConfessionModal.HashtagsRoundTrip | frontend/src/components/ConfessionModal.jsx:26-86 | Tags joined with ' ' and parsed again give the same tags, when each is non-empty, lower-case and space-free. |
| ConfessionModal.EditKeepsHashtags | frontend/src/components/ConfessionModal.jsx:19-38 | An edit that does not touch the hashtag field sends the confession's own tags back. |
| ConfessionModal.BuildPayload | frontend/src/components/ConfessionModal.jsx:79-94 | The payload text is trimmed, and the hashtags are built from the field. currentSecretCode is present exactly in edit mode. |
| ConfessionModal.BuiltHashtagsAccepted | frontend/src/components/ConfessionModal.jsx:82-86 | Built hashtags always pass the server's hashtag rule. |
| ConfessionModal.CreateChecksMeetSchema | frontend/src/components/ConfessionModal.jsx:52-94 | A create form passing the client checks, with text of at most 2000 and a listed category, passes the server's create schema. |
| ConfessionModal.EditChecksMeetSchema | frontend/src/components/ConfessionModal.jsx:52-94 | Such an edit form passes the update schema exactly when its current code has at least 4 characters. |
| ConfessionModal.ServerMessage | frontend/src/components/ConfessionModal.jsx:106 | The server's non-empty error message wins; otherwise 'An error occurred'. |
| ConfessionModal.ConfessionForm.Open | frontend/src/components/ConfessionModal.jsx:19-38 | Opening installs FormFor(editing) and clears the error. |
| ConfessionModal.ConfessionForm.HandleChange | frontend/src/components/ConfessionModal.jsx:40-46 | The named field takes the value; nothing else changes. |
| ConfessionModal.ConfessionForm.HandleSubmit | frontend/src/components/ConfessionModal.jsx:48-111 | A failing check sets its error, sends nothing and keeps the form. Otherwise the payload and the edited id are sent. Success resets to the blank form and closes; failure shows ServerMessage and keeps the form. |
| LoginSignup.ClientError | frontend/src/components/LoginSignup.jsx:51-58 | A missing email or password fails first. In signup mode, a blank trimmed name fails next, then a password under 6, then a mismatching confirmation. Login mode skips those three. |
| LoginSignup.ClientCall | frontend/src/components/LoginSignup.jsx:61-67 | signup gets the email, the password and the trimmed name; login gets the email and password. |
| LoginSignup.SignupChecksMeetSchema | frontend/src/components/LoginSignup.jsx:51-63 | A signup passing the client checks fails the server's schema only on the email's form or the name's length. |
| LoginSignup.LoginChecksMeetSchema | frontend/src/components/LoginSignup.jsx:51-53 | A login passing the client checks fails the server's schema only on the email's form. |
| LoginSignup.FailureMessage | frontend/src/components/LoginSignup.jsx:72 | The server's non-empty message takes precedence over the mode's default. |
| LoginSignup.LoginDialog.HandleChange | frontend/src/components/LoginSignup.jsx:40-44 | Clears the error and sets the named field. |
| LoginSignup.LoginDialog.HandleSubmit | frontend/src/components/LoginSignup.jsx:46-76 | A failing check sets its error and makes no call. Otherwise the mode's call is made and the mode's success message or FailureMessage is shown. The mode and the form are kept. |
| LoginSignup.LoginDialog.SwitchMode | frontend/src/components/LoginSignup.jsx:78-84 | Flips the mode and clears the form, the error, the success message and both visibility flags. |
| App.HandlePost | frontend/src/App.jsx:39-52 | The new post comes first, followed by the old list in order. It has id equal to the old length + 1, 0 likes, 0 comments, isLiked false, and hashtags defaulting to []. |
| App.ReactTo | frontend/src/App.jsx:56-59 | 'like' gives likes + 1 and liked. Anything else gives likes − 1, with no floor, and unliked. Other fields are kept. |
| App.HandleReact | frontend/src/App.jsx:54-63 | Keeps length and order. Posts with the id react; the others are unchanged. |
| App.LikeThenUnlike | frontend/src/App.jsx:54-63 | A like followed by an unlike restores every count and leaves the post unliked. |
| Feed.FilteredConfessions | frontend/src/pages/Feed.jsx:8-14 | The output is a permutation of a sub-multiset of the input. A post is in it exactly when it passes the category test and the search test. The order is non-increasing by time for 'Newest' and non-decreasing otherwise. |
| Feed.EmptySearchKeepsCategory | frontend/src/pages/Feed.jsx:10 | An empty search keeps every post that passes the category test. |
| Feed.InCategory | frontend/src/pages/Feed.jsx:9 | 'All' keeps every post; any other category needs an exact match. |
| Feed.MatchesSearch | frontend/src/pages/Feed.jsx:10 | The lower-cased term occurs in the lower-cased content or in some lower-cased hashtag. |
| Feed.TimeOrder | frontend/src/pages/Feed.jsx:11-14 | Newest first for 'Newest', oldest first for anything else. |
| Feed.TimeOrderTotal | frontend/src/pages/Feed.jsx:11-14 | Both directions of the comparator are total preorders. |
| Feed.SortedByTime | frontend/src/pages/Feed.jsx:11-14 | A list sorted by the comparator has non-increasing timestamps for 'Newest' and non-decreasing ones otherwise. |
| Feed.OneFilterPass | frontend/src/pages/Feed.jsx:8-14 | The two filter calls act as one filter by the category and the search test together, followed by the sort. |
| HomePage.TotalReactions | frontend/src/pages/HomePage.jsx:89 | The fold is non-negative over valid documents. |
| HomePage.TotalIsKindSums | frontend/src/pages/HomePage.jsx:89 | The total equals the like sum plus the love sum plus the laugh sum. |
| HomePage.MyConfessionsCount | frontend/src/pages/HomePage.jsx:90 | At most the list's length; 0 without a user; the whole length when every confession is the user's; 0 when none is. |
| HomePage.MyConfessionsCountOne | frontend/src/pages/HomePage.jsx:90 | A single confession counts 1 when it is the user's and 0 otherwise. |
| HomePage.MyConfessionsCountSplit | frontend/src/pages/HomePage.jsx:90 | The count is additive over concatenation. |
| HomePage.HandleEditConfession | frontend/src/pages/HomePage.jsx:80-87 | Without a user, or for a user who is not the owner, it alerts and changes nothing. Otherwise it sets the confession being edited and opens the modal. |
| HomePage.HandleReaction | frontend/src/pages/HomePage.jsx:58-69 | No user gives the alert and no request; otherwise the reaction request. |
| HomePage.HandleCreateConfession | frontend/src/pages/HomePage.jsx:44-56 | Editing sends an update of the edited id, and otherwise a create. The edit state is cleared only after a successful update. The list reloads only after success. |
| HomePage.EditThenSaveClears | frontend/src/pages/HomePage.jsx:44-87 | An owner's edit followed by a successful submit sends the update and clears the edit state. |
| ConfessionCard.Toggle | frontend/src/components/ConfessionCard.jsx:9-14 | Flips the flag. The count goes up 1 when it becomes liked and down 1 otherwise. |
| ConfessionCard.ToggleTwice | frontend/src/components/ConfessionCard.jsx:9-14 | Two toggles restore the state. |
| ConfessionCard.ToggleAgreesWithFeed | frontend/src/components/ConfessionCard.jsx:9-14 | The card's toggle, and the reaction it reports ('like' exactly when now liked), change the post as the feed's handler does. |
| ConfessionCard.Card.constructor | frontend/src/components/ConfessionCard.jsx:5-7 | The state starts at the post's isLiked and likes. |
| ConfessionCard.Card.HandleLike | frontend/src/components/ConfessionCard.jsx:9-14 | The two fields become Toggle of the old ones. It reports the post's id with 'like' exactly when the card is now liked. |
| CreateModal.AnonAuthor | frontend/src/components/CreateModal.jsx:20 | 'Anon #' followed by four digits that read back as a number between 1000 and 9999. |
| CreateModal.BuildPost | frontend/src/components/CreateModal.jsx:13-21 | Blank content posts nothing. Otherwise the content is untrimmed, the hashtags are ['#secret'], and the author is Anon #n or 'You'. |
| CreateModal.PostedFirst | frontend/src/components/CreateModal.jsx:15-21 | A posted confession lands first in the feed with its content, '#secret' and 0 likes. |
| CreateModal.PostForm.HandleSubmit | frontend/src/components/CreateModal.jsx:11-27 | Blank content changes nothing. Otherwise it posts BuildPost, resets the content to '' and the category to 'Study', and closes. |
| ChatsPage.FindIndex | frontend/src/pages/ChatsPage.jsx:23-39 | The position of the first contact with the id, or none when no contact has it. |
| ChatsPage.FindContact | frontend/src/pages/ChatsPage.jsx:23-39 | `find` returns the first contact with the id, or none. |
| ChatsPage.HandleUpdateContact | frontend/src/pages/ChatsPage.jsx:28-36 | Keeps length and order. Contacts with the id get the new lastMessage and timestamp, with their other fields kept. The rest are unchanged. |
| ChatsPage.HandleSelectContact | frontend/src/pages/ChatsPage.jsx:21-25 | Prefers the list's copy with the same id, and falls back to the given contact. |
| ChatsPage.CurrentContact | frontend/src/pages/ChatsPage.jsx:39 | The list's copy of the selection, else the selection. With no selection there is no current contact. |
| ChatsPage.UpdatedContactIsCurrent | frontend/src/pages/ChatsPage.jsx:28-39 | After a reply to a listed contact, the current contact shows the new message and time. |
| ChatsPage.SelectIsCurrent | frontend/src/pages/ChatsPage.jsx:21-39 | Selecting a contact makes exactly that copy current. |

## Left out

- Database I/O belongs to MongoDB and Mongoose:
  - connections;
  - `populate` and `lean`;
  - query casting, so the CastError branch is kept in the error mapper but nothing in the model raises it;
  - `timestamps`, so `createdAt` is an integer parameter and `updatedAt` is not kept;
  - the `reports` array, which no core operation touches.
- The exact texts of Mongoose validation errors: a failed save is a ValidationError with a fixed message.
- Concurrency: each request runs to completion alone. The non-atomic read-modify-write in addReaction across requests is not modelled.
- bcrypt's salt, its cost, and its internals.
- Joi:
  - unknown keys and type conversion: bodies are typed, and a present value is always a string or list of strings;
  - the email rule: `Joi.IsEmail` is a simplified address check (a local part, an '@', dotted labels), without Joi's TLD list or length limits.
- Strings are ASCII. Unicode case mapping, Unicode white space and UTF-16 lengths are not modelled.
- `req.login` and `req.logout` errors, `logout`, and session storage: the session is the user id returned by Signup and Login.
- The seed scripts. Seeded documents have counters but no ledger entries; that is why the invariant is counter minus tally.
- Routing, the rate limiter and the authentication gate: every modelled endpoint receives the authenticated user's id.
- In `Passport.GoogleVerify` and `AuthController.GoogleCallback`, a profile without a `photos` array would throw in the source. The model always includes a (possibly empty) photo list.
- Client side:
  - loading flags, timers (`setTimeout(onClose)`), alerts as UI, Escape-key handling and the open/close effect of the login dialog;
  - the refetch after a request, which is only reported as a flag;
  - `isOpen` guards;
  - the HTTP client and the auth context;
  - rendering, and the floating-point `toFixed` display of the total.
- `Feed.FilteredConfessions` takes timestamps as integers. A date string that does not parse (NaN in the comparator) is not modelled, and neither is the exact tie order of the browser's sort.
- `ChatsPage.Contact` keeps only the fields the page uses. ChatWindow, which produces the messages and timestamps, is not part of this model.
- Database.UniqueKeysInsert, Database.Db.InsertUser and AuthController.Signup: they use the partial reading of the googleId index, under which any number of users may have a null googleId. As declared, a second email signup breaks the index and gets 500 (see Findings).
- Database.DuplicateKeyError: the error's name `MongoServerError` is that of version 4 and later of the MongoDB Node.js driver. With it, the check on line 12 of errorHandler.js never matches, and an index clash is answered with 500, not 409.

## Findings

| source | as written | input that shows it | evidently intended | confidence | as-written member | corrected member |
|---|---|---|---|---|---|---|
| backend/models/User.js:29-34 | `googleId` has `default: null` with a unique sparse index. A sparse index skips only documents that lack the field, and every new user stores an explicit null. | Two email signups with different emails on an empty store: the second insert raises E11000, which errorHandler.js answers with 500. | Many email accounts without a googleId, with uniqueness only among the googleIds that are set (a partial index on string values, or no default). | medium, not executed | Database.SecondNullGoogleIdAsDeclared | Database.NullGoogleIdsCoexist |
