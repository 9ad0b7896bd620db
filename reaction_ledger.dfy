/**
 * The reaction step of `addReaction`: the requester's earlier ledger entry is
 * removed and its counter decremented, then the new entry is appended and its
 * counter incremented. The lemmas relate the three counters to the
 * `userReactions` ledger.
 */
module ReactionLedger {
  import opened Wrappers
  import opened ConfessionModel
  import opened Ids

  /** `userReactions.find((r) => r.userId === u)`: the first entry of user `u`. */
  function FindReaction(rs: seq<UserReaction>, u: UserId): (r: Option<UserReaction>)
    ensures r.Some? ==> r.value in rs && r.value.userId == u
    ensures r.None? <==> forall i :: 0 <= i < |rs| ==> rs[i].userId != u
  {
    if rs == [] then None
    else if rs[0].userId == u then Some(rs[0])
    else FindReaction(rs[1..], u)
  }

  /** `userReactions.filter((r) => r.userId !== u)`. */
  function RemoveUser(rs: seq<UserReaction>, u: UserId): (r: seq<UserReaction>)
    ensures forall x :: x in r <==> x in rs && x.userId != u
    ensures |r| <= |rs|
  {
    if rs == [] then []
    else if rs[0].userId == u then RemoveUser(rs[1..], u)
    else [rs[0]] + RemoveUser(rs[1..], u)
  }

  /** The number of ledger entries held by user `u`. */
  function EntriesOf(rs: seq<UserReaction>, u: UserId): nat {
    if rs == [] then 0 else (if rs[0].userId == u then 1 else 0) + EntriesOf(rs[1..], u)
  }

  /** The number of ledger entries of kind `k`. */
  function Tally(rs: seq<UserReaction>, k: Kind): nat {
    if rs == [] then 0 else (if rs[0].kind == k then 1 else 0) + Tally(rs[1..], k)
  }

  /** No user holds two entries. Nothing in the schema enforces it; `addReaction` keeps it. */
  predicate OnePerUser(rs: seq<UserReaction>) {
    forall i, j :: 0 <= i < j < |rs| ==> rs[i].userId != rs[j].userId
  }

  /**
   * What counter `k` holds beyond the ledger's entries of kind `k`. It is 0 for
   * a confession created through the API and the seeded count for seeded data,
   * whose counters come with an empty ledger.
   */
  function Surplus(c: Confession, k: Kind): int {
    c.reactions.Get(k) - Tally(c.userReactions, k)
  }

  /** The invariant every stored confession keeps. */
  predicate LedgerConsistent(c: Confession) {
    && OnePerUser(c.userReactions)
    && Surplus(c, Like) >= 0 && Surplus(c, Love) >= 0 && Surplus(c, Laugh) >= 0
  }

  /** Lines 216-233 of the controller: replace the requester's reaction by one of kind `k`. */
  function ApplyReaction(c: Confession, u: UserId, k: Kind): (r: Confession)
    ensures r == c.(reactions := r.reactions, userReactions := r.userReactions)
  {
    var existing := FindReaction(c.userReactions, u);
    var removed :=
      if existing.Some? then
        c.(reactions := c.reactions.Bump(existing.value.kind, -1),
           userReactions := RemoveUser(c.userReactions, u))
      else c;
    removed.(reactions := removed.reactions.Bump(k, 1),
             userReactions := removed.userReactions + [UserReaction(u, k)])
  }

  // ---- facts about the ledger functions ----

  lemma {:induction false} RemoveAbsentUser(rs: seq<UserReaction>, u: UserId)
    requires FindReaction(rs, u).None?
    ensures RemoveUser(rs, u) == rs
    decreases |rs|
  {
    if rs != [] {
      RemoveAbsentUser(rs[1..], u);
      assert rs == [rs[0]] + rs[1..];
    }
  }

  lemma {:induction false} RemoveUserAppend(rs: seq<UserReaction>, x: UserReaction, u: UserId)
    ensures RemoveUser(rs + [x], u) == RemoveUser(rs, u) + (if x.userId == u then [] else [x])
    decreases |rs|
  {
    if rs == [] {
      assert [x][1..] == [];
    } else {
      assert (rs + [x])[0] == rs[0];
      assert (rs + [x])[1..] == rs[1..] + [x];
      RemoveUserAppend(rs[1..], x, u);
    }
  }

  lemma {:induction false} EntriesOfRemoved(rs: seq<UserReaction>, u: UserId)
    ensures EntriesOf(RemoveUser(rs, u), u) == 0
    decreases |rs|
  {
    if rs != [] {
      EntriesOfRemoved(rs[1..], u);
      if rs[0].userId != u {
        assert ([rs[0]] + RemoveUser(rs[1..], u))[1..] == RemoveUser(rs[1..], u);
      }
    }
  }

  lemma {:induction false} EntriesOfAppend(rs: seq<UserReaction>, x: UserReaction, u: UserId)
    ensures EntriesOf(rs + [x], u) == EntriesOf(rs, u) + (if x.userId == u then 1 else 0)
    decreases |rs|
  {
    if rs == [] {
      assert [x][1..] == [];
    } else {
      assert (rs + [x])[1..] == rs[1..] + [x];
      EntriesOfAppend(rs[1..], x, u);
    }
  }

  lemma {:induction false} TallyAppend(rs: seq<UserReaction>, x: UserReaction, k: Kind)
    ensures Tally(rs + [x], k) == Tally(rs, k) + (if x.kind == k then 1 else 0)
    decreases |rs|
  {
    if rs == [] {
      assert [x][1..] == [];
    } else {
      assert (rs + [x])[1..] == rs[1..] + [x];
      TallyAppend(rs[1..], x, k);
    }
  }

  /** With one entry per user, removing user `u` drops exactly the tally of `u`'s kind. */
  lemma {:induction false} TallyRemoveUser(rs: seq<UserReaction>, u: UserId, k: Kind)
    requires OnePerUser(rs)
    ensures Tally(RemoveUser(rs, u), k) ==
            Tally(rs, k) - (if FindReaction(rs, u).Some? && FindReaction(rs, u).value.kind == k then 1 else 0)
    decreases |rs|
  {
    if rs != [] {
      var tail := rs[1..];
      assert OnePerUser(tail) by {
        forall i, j | 0 <= i < j < |tail| ensures tail[i].userId != tail[j].userId {
          assert tail[i] == rs[i + 1] && tail[j] == rs[j + 1];
        }
      }
      if rs[0].userId == u {
        assert FindReaction(tail, u).None? by {
          forall i | 0 <= i < |tail| ensures tail[i].userId != u {
            assert tail[i] == rs[i + 1];
          }
        }
        RemoveAbsentUser(tail, u);
      } else {
        TallyRemoveUser(tail, u, k);
        assert ([rs[0]] + RemoveUser(tail, u))[1..] == RemoveUser(tail, u);
      }
    }
  }

  /** Dropping the first entry keeps one entry per user. */
  lemma TailOnePerUser(rs: seq<UserReaction>)
    requires rs != [] && OnePerUser(rs)
    ensures OnePerUser(rs[1..])
  {
    var tail := rs[1..];
    forall i, j | 0 <= i < j < |tail| ensures tail[i].userId != tail[j].userId {
      assert tail[i] == rs[i + 1] && tail[j] == rs[j + 1];
    }
  }

  /** No entry left by RemoveUser on the tail belongs to the head's user. */
  lemma HeadUserNotInRemoved(rs: seq<UserReaction>, u: UserId)
    requires rs != [] && OnePerUser(rs)
    ensures forall x :: x in RemoveUser(rs[1..], u) ==> x.userId != rs[0].userId
  {
    var tail := rs[1..];
    forall x | x in RemoveUser(tail, u) ensures x.userId != rs[0].userId {
      assert x in tail;
      var m :| 0 <= m < |tail| && tail[m] == x;
      assert rs[m + 1] == x;
    }
  }

  lemma {:induction false} RemoveUserKeepsOnePerUser(rs: seq<UserReaction>, u: UserId)
    requires OnePerUser(rs)
    ensures OnePerUser(RemoveUser(rs, u))
    decreases |rs|
  {
    if rs != [] {
      var tail := rs[1..];
      TailOnePerUser(rs);
      RemoveUserKeepsOnePerUser(tail, u);
      if rs[0].userId != u {
        var rest := RemoveUser(tail, u);
        var r := [rs[0]] + rest;
        HeadUserNotInRemoved(rs, u);
        forall i, j | 0 <= i < j < |r| ensures r[i].userId != r[j].userId {
          if i == 0 {
            assert r[j] == rest[j - 1] && rest[j - 1] in rest;
          } else {
            assert r[i] == rest[i - 1] && r[j] == rest[j - 1];
          }
        }
      }
    }
  }

  /** The three tallies partition the ledger. */
  lemma {:induction false} TalliesPartition(rs: seq<UserReaction>)
    ensures Tally(rs, Like) + Tally(rs, Love) + Tally(rs, Laugh) == |rs|
    decreases |rs|
  {
    if rs != [] {
      TalliesPartition(rs[1..]);
    }
  }

  // ---- the properties of one reaction ----

  /**
   * After the reaction, the requester holds exactly one entry, the last one, of
   * the requested kind; every other user's entries are the ones before, in
   * their original order.
   */
  lemma {:induction false} ReactionLedgerEntries(c: Confession, u: UserId, k: Kind)
    ensures var r := ApplyReaction(c, u, k);
      && EntriesOf(r.userReactions, u) == 1
      && |r.userReactions| > 0 && r.userReactions[|r.userReactions| - 1] == UserReaction(u, k)
      && FindReaction(r.userReactions, u) == Some(UserReaction(u, k))
      && RemoveUser(r.userReactions, u) == RemoveUser(c.userReactions, u)
  {
    var r := ApplyReaction(c, u, k);
    var before := RemoveUser(c.userReactions, u);
    if FindReaction(c.userReactions, u).None? {
      RemoveAbsentUser(c.userReactions, u);
    }
    assert r.userReactions == before + [UserReaction(u, k)];
    EntriesOfRemoved(c.userReactions, u);
    EntriesOfAppend(before, UserReaction(u, k), u);
    RemoveUserAppend(before, UserReaction(u, k), u);
    assert before + [] == before;
    RemoveUserTwice(c.userReactions, u);
    assert FindReaction(before, u).None?;
    FindAfterAbsent(before, UserReaction(u, k), u);
  }

  /** The ledger after a reaction is the others' entries followed by the new one. */
  lemma LedgerAfterReaction(c: Confession, u: UserId, k: Kind)
    ensures ApplyReaction(c, u, k).userReactions == RemoveUser(c.userReactions, u) + [UserReaction(u, k)]
  {
    if FindReaction(c.userReactions, u).None? {
      RemoveAbsentUser(c.userReactions, u);
    }
  }

  lemma RemoveUserTwice(rs: seq<UserReaction>, u: UserId)
    ensures RemoveUser(RemoveUser(rs, u), u) == RemoveUser(rs, u)
  {
    RemoveAbsentUser(RemoveUser(rs, u), u);
  }

  lemma {:induction false} FindAfterAbsent(rs: seq<UserReaction>, x: UserReaction, u: UserId)
    requires FindReaction(rs, u).None? && x.userId == u
    ensures FindReaction(rs + [x], u) == Some(x)
    decreases |rs|
  {
    if rs == [] {
      assert [x][0] == x;
    } else {
      assert (rs + [x])[0] == rs[0];
      assert (rs + [x])[1..] == rs[1..] + [x];
      FindAfterAbsent(rs[1..], x, u);
    }
  }

  /**
   * For every kind, counter minus ledger tally is the same after the reaction
   * as before: no counter moves without its ledger entry. This needs one entry
   * per user, because `find` decrements for the first entry while `filter`
   * removes them all.
   */
  lemma ReactionPreservesSurplus(c: Confession, u: UserId, k: Kind)
    requires OnePerUser(c.userReactions)
    ensures forall k' :: Surplus(ApplyReaction(c, u, k), k') == Surplus(c, k')
  {
    var r := ApplyReaction(c, u, k);
    var existing := FindReaction(c.userReactions, u);
    var removed := RemoveUser(c.userReactions, u);
    if existing.None? {
      RemoveAbsentUser(c.userReactions, u);
    }
    forall k' ensures Surplus(r, k') == Surplus(c, k') {
      TallyRemoveUser(c.userReactions, u, k');
      TallyAppend(removed, UserReaction(u, k), k');
    }
  }

  /** The total of the counters rises by one exactly when the requester had no entry before. */
  lemma ReactionTotal(c: Confession, u: UserId, k: Kind)
    ensures ApplyReaction(c, u, k).reactions.Total() ==
            c.reactions.Total() + (if FindReaction(c.userReactions, u).None? then 1 else 0)
  {
  }

  /** Re-reacting with the same kind leaves the counters alone and moves the entry to the end. */
  lemma SameKindReReact(c: Confession, u: UserId, k: Kind)
    requires FindReaction(c.userReactions, u) == Some(UserReaction(u, k))
    ensures ApplyReaction(c, u, k).reactions == c.reactions
    ensures ApplyReaction(c, u, k).userReactions == RemoveUser(c.userReactions, u) + [UserReaction(u, k)]
  {
  }

  /** The reaction keeps the ledger at one entry per user. */
  lemma ReactionKeepsOnePerUser(c: Confession, u: UserId, k: Kind)
    requires OnePerUser(c.userReactions)
    ensures OnePerUser(ApplyReaction(c, u, k).userReactions)
  {
    var before := RemoveUser(c.userReactions, u);
    var r := ApplyReaction(c, u, k);
    if FindReaction(c.userReactions, u).None? {
      RemoveAbsentUser(c.userReactions, u);
    }
    RemoveUserKeepsOnePerUser(c.userReactions, u);
    assert r.userReactions == before + [UserReaction(u, k)];
    forall i, j | 0 <= i < j < |r.userReactions| ensures r.userReactions[i].userId != r.userReactions[j].userId {
      if j == |before| {
        assert r.userReactions[i] in before;
      } else {
        assert r.userReactions[i] == before[i] && r.userReactions[j] == before[j];
      }
    }
  }

  /**
   * The reaction keeps a consistent confession consistent, so no counter ever
   * drops below its ledger tally, and in particular below zero.
   */
  lemma ReactionKeepsConsistent(c: Confession, u: UserId, k: Kind)
    requires LedgerConsistent(c)
    ensures LedgerConsistent(ApplyReaction(c, u, k))
    ensures var r := ApplyReaction(c, u, k).reactions; r.like >= 0 && r.love >= 0 && r.laugh >= 0
  {
    ReactionPreservesSurplus(c, u, k);
    ReactionKeepsOnePerUser(c, u, k);
  }

  /** A consistent confession's counters are all at least zero. */
  lemma ConsistentCountersNonNegative(c: Confession)
    requires LedgerConsistent(c)
    ensures c.reactions.like >= 0 && c.reactions.love >= 0 && c.reactions.laugh >= 0
  {
  }

  /** The counters total the ledger's length plus the surpluses. */
  lemma TotalIsLedgerPlusSurplus(c: Confession)
    ensures c.reactions.Total() == |c.userReactions| + Surplus(c, Like) + Surplus(c, Love) + Surplus(c, Laugh)
  {
    TalliesPartition(c.userReactions);
  }

  /** A confession created through the API has zero surplus, so its counters equal the ledger tallies. */
  lemma NewConfessionConsistent(owner: UserId, text: string, secretCode: string, category: Option<Category>,
                                hashtags: seq<string>, now: int)
    ensures var c := NewConfession(owner, text, secretCode, category, hashtags, now);
      LedgerConsistent(c) && Surplus(c, Like) == 0 && Surplus(c, Love) == 0 && Surplus(c, Laugh) == 0
  {
    EmptyLedgerConsistent(NewConfession(owner, text, secretCode, category, hashtags, now));
  }

  /** Zero counters over an empty ledger are consistent, with zero surplus. */
  lemma EmptyLedgerConsistent(c: Confession)
    requires c.reactions == Reactions(0, 0, 0) && c.userReactions == []
    ensures LedgerConsistent(c) && Surplus(c, Like) == 0 && Surplus(c, Love) == 0 && Surplus(c, Laugh) == 0
  {
  }

}
