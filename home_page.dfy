/**
 * The home page over the listing it loaded: its two derived counts, and the
 * guards of its handlers, which decide which request (if any) is made and
 * how the editing state changes.
 */
module HomePage {
  import opened Wrappers
  import opened Seqs
  import opened Ids
  import opened ConfessionModel
  import opened ConfessionController
  import opened ConfessionModal

  /** `reduce((sum, c) => sum + like + love + laugh, 0)`, folding from the left. */
  function TotalReactions(cs: seq<Entry>): (r: int)
    ensures (forall i :: 0 <= i < |cs| ==> ValidConfession(cs[i].doc)) ==> r >= 0
  {
    if cs == [] then 0
    else TotalReactions(cs[..|cs| - 1]) + cs[|cs| - 1].doc.reactions.Total()
  }

  /** The counters of one kind, summed from the front. */
  function KindSum(cs: seq<Entry>, k: Kind): int {
    if cs == [] then 0 else cs[0].doc.reactions.Get(k) + KindSum(cs[1..], k)
  }

  lemma {:induction false} KindSumSnoc(cs: seq<Entry>, k: Kind)
    requires cs != []
    ensures KindSum(cs, k) == KindSum(cs[..|cs| - 1], k) + cs[|cs| - 1].doc.reactions.Get(k)
    decreases |cs|
  {
    if |cs| > 1 {
      KindSumSnoc(cs[1..], k);
      assert cs[1..][..|cs| - 2] == cs[..|cs| - 1][1..];
    }
  }

  /** The total is the sum of the like, love and laugh counters over the loaded confessions. */
  lemma {:induction false} TotalIsKindSums(cs: seq<Entry>)
    ensures TotalReactions(cs) == KindSum(cs, Like) + KindSum(cs, Love) + KindSum(cs, Laugh)
    decreases |cs|
  {
    if cs != [] {
      TotalIsKindSums(cs[..|cs| - 1]);
      KindSumSnoc(cs, Like);
      KindSumSnoc(cs, Love);
      KindSumSnoc(cs, Laugh);
    }
  }

  /** `user && c.userId._id === user.id`. */
  predicate Mine(user: Option<UserId>, e: Entry) {
    user.Some? && e.doc.owner == user.value
  }

  /** `confessions.filter(c => user && c.userId._id === user.id).length`. */
  function MyConfessionsCount(cs: seq<Entry>, user: Option<UserId>): (r: nat)
    ensures r <= |cs|
    ensures user.None? ==> r == 0
    ensures (forall i :: 0 <= i < |cs| ==> Mine(user, cs[i])) ==> r == |cs|
    ensures (forall i :: 0 <= i < |cs| ==> !Mine(user, cs[i])) ==> r == 0
  {
    var mine := Filter(cs, (e: Entry) => Mine(user, e));
    FilterAll(cs, (e: Entry) => Mine(user, e));
    FilterNone(cs, (e: Entry) => Mine(user, e));
    |mine|
  }

  /** A confession counts exactly when it is the user's: the count of one confession is 1 or 0. */
  lemma MyConfessionsCountOne(e: Entry, user: Option<UserId>)
    ensures MyConfessionsCount([e], user) == if Mine(user, e) then 1 else 0
  {
  }

  /** The count adds up over any split of the list. */
  lemma MyConfessionsCountSplit(a: seq<Entry>, b: seq<Entry>, user: Option<UserId>)
    ensures MyConfessionsCount(a + b, user) == MyConfessionsCount(a, user) + MyConfessionsCount(b, user)
  {
    FilterConcat(a, b, (e: Entry) => Mine(user, e));
  }

  /** The page state the handlers touch. */
  datatype HomeState = HomeState(editing: Option<EditTarget>, modalOpen: bool)

  /** A request to the confession service. */
  datatype Request = Create(data: Payload) | Update(id: ConfessionId, data: Payload) | React(id: ConfessionId, kind: string)

  /**
   * handleEditConfession: only the owner may start an edit; anyone else gets
   * the alert and the state stays as it was. Returns the new state and the alert.
   */
  function HandleEditConfession(s: HomeState, user: Option<UserId>, owner: UserId, target: EditTarget): (r: (HomeState, Option<string>))
    ensures r.1.None? <==> user == Some(owner)
    ensures r.1.Some? ==> r.0 == s && r.1 == Some("You can only edit your own confessions")
    ensures r.1.None? ==> r.0 == HomeState(Some(target), true)
  {
    if user.None? || user.value != owner then (s, Some("You can only edit your own confessions"))
    else (HomeState(Some(target), true), None)
  }

  /** handleReaction: without a user an alert and no request, otherwise the reaction request. */
  function HandleReaction(user: Option<UserId>, id: ConfessionId, kind: string): (r: Result<Request, string>)
    ensures r.Failure? <==> user.None?
    ensures r.Failure? ==> r.error == "Please login to react"
    ensures r.Success? ==> r.value == React(id, kind)
  {
    if user.None? then Failure("Please login to react") else Success(React(id, kind))
  }

  /**
   * handleCreateConfession: an update of the confession being edited, or a
   * create. `succeeded` says whether the request resolved; the editing state
   * is cleared only after a successful update, and the list is reloaded only
   * after a success. Returns the request, the new state, and whether it reloads.
   */
  function HandleCreateConfession(s: HomeState, data: Payload, succeeded: bool): (r: (Request, HomeState, bool))
    ensures r.0.Update? <==> s.editing.Some?
    ensures s.editing.Some? ==> r.0 == Update(s.editing.value.id, data)
    ensures s.editing.None? ==> r.0 == Create(data)
    ensures r.1.modalOpen == s.modalOpen
    ensures r.1.editing.None? <==> s.editing.None? || succeeded
    ensures r.1.editing.Some? ==> r.1 == s
    ensures r.2 == succeeded
  {
    match s.editing
    case Some(t) => (Update(t.id, data), if succeeded then s.(editing := None) else s, succeeded)
    case None => (Create(data), s, succeeded)
  }

  /** An edit started by the owner and submitted successfully ends with no confession being edited. */
  lemma EditThenSaveClears(s: HomeState, owner: UserId, target: EditTarget, data: Payload)
    ensures var started := HandleEditConfession(s, Some(owner), owner, target).0;
      var submitted := HandleCreateConfession(started, data, true);
      submitted.0 == Update(target.id, data) && submitted.1.editing.None? && submitted.1.modalOpen
  {
  }
}
