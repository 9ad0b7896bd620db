/**
 * The two MongoDB collections the backend uses, as one mutable store. Ids are
 * handed out in increasing order, so "every id is below the next one" lets a
 * query walk the ids in order; `findOne` returns the first match in that order.
 * The unique indexes of the users collection (email, and googleId where it is
 * not null) are part of the store's invariant.
 */
module Database {
  import opened Wrappers
  import opened Bcrypt
  import opened ErrorHandler
  import opened Ids
  import opened UserModel
  import opened ConfessionModel
  import opened ReactionLedger

  /**
   * No two users share an email, nor a non-null googleId: the googleId index
   * read as a partial index over the users that have one.
   */
  predicate UniqueKeys(users: map<UserId, User>) {
    forall a, b :: a in users && b in users && a != b ==>
      users[a].email != users[b].email && (users[a].googleId.None? || users[a].googleId != users[b].googleId)
  }

  /**
   * The indexes as the schema declares them. `googleId` defaults to null and a
   * sparse index passes over only the documents that lack the field, so a
   * stored null is a key value like any other.
   */
  predicate UniqueKeysAsDeclared(users: map<UserId, User>) {
    forall a, b :: a in users && b in users && a != b ==>
      users[a].email != users[b].email && users[a].googleId != users[b].googleId
  }

  /** Whatever the declared indexes accept, the partial index accepts too. */
  lemma AsDeclaredIsStricter(users: map<UserId, User>)
    ensures UniqueKeysAsDeclared(users) ==> UniqueKeys(users)
  {
  }

  /**
   * As declared, a second user without a googleId breaks the googleId index,
   * whatever its email, and the duplicate-key error is answered with 500.
   */
  lemma SecondNullGoogleIdAsDeclared(users: map<UserId, User>, id: UserId, u: User, earlier: UserId)
    requires id !in users && earlier in users
    requires users[earlier].googleId.None? && u.googleId.None?
    ensures !UniqueKeysAsDeclared(users[id := u])
    ensures HandleError(DuplicateKeyError()).status == 500
  {
    var after := users[id := u];
    assert after[earlier].googleId == after[id].googleId;
  }

  /** Two email accounts: the partial index accepts them, the declared indexes do not. */
  lemma TwoEmailAccounts()
    ensures var first := User("a@b.c", Some("h1"), "A", None, None, None, EmailAuth);
            var second := User("d@e.f", Some("h2"), "D", None, None, None, EmailAuth);
            UniqueKeys(map[0 := first, 1 := second]) && !UniqueKeysAsDeclared(map[0 := first, 1 := second])
  {
    var first := User("a@b.c", Some("h1"), "A", None, None, None, EmailAuth);
    var second := User("d@e.f", Some("h2"), "D", None, None, None, EmailAuth);
    SecondNullGoogleIdAsDeclared(map[0 := first], 1, second, 0);
    assert map[0 := first][1 := second] == map[0 := first, 1 := second];
  }

  /**
   * Under the partial index, users without a googleId coexist: inserting one
   * keeps the indexes exactly when its email is new.
   */
  lemma NullGoogleIdsCoexist(users: map<UserId, User>, id: UserId, u: User)
    requires UniqueKeys(users) && id !in users && u.googleId.None?
    ensures UniqueKeys(users[id := u]) <==> forall other :: other in users ==> users[other].email != u.email
  {
    UniqueKeysInsert(users, id, u);
  }

  /** The first user below `bound` whose stored email is exactly `key`. */
  function FindEmailKey(users: map<UserId, User>, bound: nat, key: string): (r: Option<UserId>)
    ensures r.Some? ==> r.value < bound && r.value in users && users[r.value].email == key
    ensures r.None? ==> forall id :: id in users && id < bound ==> users[id].email != key
  {
    if bound == 0 then None
    else
      var earlier := FindEmailKey(users, bound - 1, key);
      if earlier.Some? then earlier
      else if bound - 1 in users && users[bound - 1].email == key then Some(bound - 1)
      else None
  }

  /** `User.findOne({ email })` among ids below `bound`; the filter goes through the email setters. */
  function FindByEmail(users: map<UserId, User>, bound: nat, email: string): (r: Option<UserId>)
    ensures r.Some? ==> r.value < bound && r.value in users && users[r.value].email == NormalizeEmail(email)
    ensures r.None? ==> forall id :: id in users && id < bound ==> users[id].email != NormalizeEmail(email)
  {
    FindEmailKey(users, bound, NormalizeEmail(email))
  }

  /** `User.findOne({ googleId })` among ids below `bound`. */
  function FindByGoogleId(users: map<UserId, User>, bound: nat, googleId: string): (r: Option<UserId>)
    ensures r.Some? ==> r.value < bound && r.value in users && users[r.value].googleId == Some(googleId)
    ensures r.None? ==> forall id :: id in users && id < bound ==> users[id].googleId != Some(googleId)
  {
    if bound == 0 then None
    else
      var earlier := FindByGoogleId(users, bound - 1, googleId);
      if earlier.Some? then earlier
      else if bound - 1 in users && users[bound - 1].googleId == Some(googleId) then Some(bound - 1)
      else None
  }

  /** Under the unique indexes, the user `findOne({ email })` returns is the only one with that email. */
  lemma FindByEmailUnique(users: map<UserId, User>, bound: nat, email: string, id: UserId)
    requires UniqueKeys(users)
    requires id in users && id < bound && users[id].email == NormalizeEmail(email)
    ensures FindByEmail(users, bound, email) == Some(id)
  {
  }

  /** Saving a user whose email and googleId did not change keeps the unique indexes. */
  lemma UniqueKeysKept(users: map<UserId, User>, id: UserId, u: User)
    requires UniqueKeys(users) && id in users
    requires u.email == users[id].email && u.googleId == users[id].googleId
    ensures UniqueKeys(users[id := u])
  {
  }

  /** Setting the googleId of a user to one no other user has keeps the unique indexes. */
  lemma UniqueKeysLinked(users: map<UserId, User>, id: UserId, u: User)
    requires UniqueKeys(users) && id in users
    requires u.email == users[id].email
    requires forall other :: other in users && other != id ==> u.googleId.None? || users[other].googleId != u.googleId
    ensures UniqueKeys(users[id := u])
  {
  }

  /**
   * Inserting under an id no user has keeps the unique indexes exactly when no
   * stored user has the new email, nor its googleId when it has one.
   */
  lemma UniqueKeysInsert(users: map<UserId, User>, id: UserId, u: User)
    requires UniqueKeys(users) && id !in users
    ensures UniqueKeys(users[id := u]) <==>
      forall other :: other in users ==> users[other].email != u.email && (u.googleId.None? || users[other].googleId != u.googleId)
  {
    if UniqueKeys(users[id := u]) {
      forall other | other in users
        ensures users[other].email != u.email && (u.googleId.None? || users[other].googleId != u.googleId)
      {
        assert other != id;
        assert users[id := u][other] == users[other] && users[id := u][id] == u;
      }
    }
  }

  /**
   * A new account whose googleId no user below `bound` has can be inserted
   * exactly when `findOne({ email })` finds no account.
   */
  lemma UniqueKeysInsertNewEmail(users: map<UserId, User>, bound: nat, u: User, email: string)
    requires UniqueKeys(users) && forall id :: id in users ==> id < bound
    requires u.email == NormalizeEmail(email) && u.googleId.Some?
    requires FindByGoogleId(users, bound, u.googleId.value).None?
    ensures UniqueKeys(users[bound := u]) <==> FindByEmail(users, bound, email).None?
  {
    UniqueKeysInsert(users, bound, u);
    var clash := FindByEmail(users, bound, email);
    if clash.Some? {
      assert users[clash.value].email == u.email;
    }
  }

  /** The error the driver raises when an insert breaks a unique index. */
  function DuplicateKeyError(): (e: JsError)
    ensures e.code == Some(11000) && e.name != "MongoError"
  {
    JsError("MongoServerError", "E11000 duplicate key error", Some(11000), None)
  }

  class Db {
    const crypto: Hasher
    var users: map<UserId, User>
    var nextUser: nat
    var confessions: map<ConfessionId, Confession>
    var nextConfession: nat

    /** What every saved document satisfies, and the bookkeeping of ids. */
    ghost predicate Valid()
      reads this
    {
      && Sound(crypto)
      && (forall id :: id in users ==> id < nextUser && ValidUser(users[id]))
      && UniqueKeys(users)
      && (forall id :: id in confessions ==> id < nextConfession)
      && (forall id :: id in confessions ==> ValidConfession(confessions[id]) && LedgerConsistent(confessions[id]))
    }

    /** An empty database using the given bcrypt implementation. */
    constructor (crypto: Hasher)
      requires Sound(crypto)
      ensures Valid()
      ensures this.crypto == crypto
      ensures users == map[] && confessions == map[] && nextUser == 0 && nextConfession == 0
    {
      this.crypto := crypto;
      users := map[];
      nextUser := 0;
      confessions := map[];
      nextConfession := 0;
    }

    /**
     * Inserting a new user document: it is stored under a fresh id unless it
     * would break a unique index, in which case nothing changes.
     */
    method InsertUser(u: User) returns (r: Result<UserId, JsError>)
      requires Valid() && ValidUser(u)
      modifies this
      ensures Valid()
      ensures r.Success? <==> UniqueKeys(old(users)[old(nextUser) := u])
      ensures r.Success? ==> r.value == old(nextUser) && users == old(users)[r.value := u] && nextUser == old(nextUser) + 1
      ensures r.Success? ==> confessions == old(confessions) && nextConfession == old(nextConfession)
      ensures r.Failure? ==> r.error == DuplicateKeyError() && unchanged(this)
    {
      if UniqueKeys(users[nextUser := u]) {
        users := users[nextUser := u];
        r := Success(nextUser);
        nextUser := nextUser + 1;
      } else {
        r := Failure(DuplicateKeyError());
      }
    }

    /** Saving an existing user document that keeps the unique indexes. */
    method PutUser(id: UserId, u: User)
      requires Valid() && id in users && ValidUser(u)
      requires UniqueKeys(users[id := u])
      modifies this
      ensures Valid()
      ensures users == old(users)[id := u] && nextUser == old(nextUser)
      ensures confessions == old(confessions) && nextConfession == old(nextConfession)
    {
      users := users[id := u];
    }

    /** Inserting a new confession under a fresh id. */
    method InsertConfession(c: Confession) returns (id: ConfessionId)
      requires Valid() && ValidConfession(c) && LedgerConsistent(c)
      modifies this
      ensures Valid()
      ensures id == old(nextConfession) && id !in old(confessions)
      ensures confessions == old(confessions)[id := c] && nextConfession == old(nextConfession) + 1
      ensures users == old(users) && nextUser == old(nextUser)
    {
      id := nextConfession;
      confessions := confessions[id := c];
      nextConfession := nextConfession + 1;
    }

    /** Saving an existing confession document. */
    method PutConfession(id: ConfessionId, c: Confession)
      requires Valid() && id in confessions && ValidConfession(c) && LedgerConsistent(c)
      modifies this
      ensures Valid()
      ensures confessions == old(confessions)[id := c] && nextConfession == old(nextConfession)
      ensures users == old(users) && nextUser == old(nextUser)
    {
      confessions := confessions[id := c];
    }
  }
}
