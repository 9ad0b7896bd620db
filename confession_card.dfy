/**
 * A feed card's own like state: the heart toggles the two fields together
 * and reports the new state to the feed.
 */
module ConfessionCard {
  import opened App

  /** The toggle on (isLiked, likesCount): flip the flag, count one up when it becomes liked, one down otherwise. */
  function Toggle(s: (bool, int)): (r: (bool, int))
    ensures r.0 == !s.0
    ensures r.0 ==> r.1 == s.1 + 1
    ensures !r.0 ==> r.1 == s.1 - 1
  {
    if s.0 then (false, s.1 - 1) else (true, s.1 + 1)
  }

  /** Liking twice in a row gives back the state it started from. */
  lemma ToggleTwice(s: (bool, int))
    ensures Toggle(Toggle(s)) == s
  {
  }

  /** The card's toggle and the feed's reaction handler agree on the post the card shows. */
  lemma ToggleAgreesWithFeed(p: Post)
    ensures var r := ReactTo(p, if Toggle((p.isLiked, p.likes)).0 then "like" else "unlike");
      Toggle((p.isLiked, p.likes)) == (r.isLiked, r.likes)
  {
  }

  class Card {
    const postId: int
    var isLiked: bool
    var likesCount: int

    /** The state starts from the post's own flag and count. */
    constructor (data: Post)
      ensures postId == data.id && isLiked == data.isLiked && likesCount == data.likes
    {
      postId := data.id;
      isLiked := data.isLiked;
      likesCount := data.likes;
    }

    /** handleLike; returns the arguments passed to `onReact`. */
    method HandleLike() returns (id: int, kind: string)
      modifies this
      ensures (isLiked, likesCount) == Toggle((old(isLiked), old(likesCount)))
      ensures id == postId
      ensures kind == (if isLiked then "like" else "unlike")
    {
      var newLiked := !isLiked;
      isLiked := newLiked;
      likesCount := if newLiked then likesCount + 1 else likesCount - 1;
      return postId, if newLiked then "like" else "unlike";
    }
  }
}
