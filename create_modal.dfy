/**
 * The quick post dialog of the demo feed: the post it hands to `onPost`,
 * and the reset after posting.
 */
module CreateModal {
  import opened Wrappers
  import opened Strings
  import opened App

  /**
   * The anonymous author name, where `draw` is `Math.floor(Math.random() * 9000)`:
   * "Anon #" followed by a four-digit number from 1000 to 9999.
   */
  function AnonAuthor(draw: nat): (r: string)
    requires draw < 9000
    ensures StartsWith(r, "Anon #") && |r| == 10
    ensures forall i :: 6 <= i < |r| ==> '0' <= r[i] <= '9'
    ensures 1000 <= ParseDecimal(r[6..]) <= 9999 && ParseDecimal(r[6..]) == draw + 1000
  {
    var digits := Decimal(draw + 1000);
    FourDigits(draw + 1000);
    DecimalRoundTrip(draw + 1000);
    var r := "Anon #" + digits;
    assert r[..6] == "Anon #" && r[6..] == digits;
    r
  }

  /** A number from 1000 to 9999 has exactly four digits. */
  lemma FourDigits(n: nat)
    requires 1000 <= n <= 9999
    ensures |Decimal(n)| == 4
  {
    assert n / 10 >= 100 && n / 100 >= 10;
    assert Pow10(4) == 10000;
    DecimalBound(n, 4);
  }

  /** The post for the dialog's fields, or nothing when the content is blank. */
  function BuildPost(content: string, category: string, isAnonymous: bool, draw: nat): (r: Option<NewPost>)
    requires draw < 9000
    ensures r.None? <==> Trim(content) == ""
    ensures r.Some? ==> r.value.content == content && r.value.category == category && r.value.isAnonymous == isAnonymous
    ensures r.Some? ==> r.value.hashtags == Some(["#secret"])
    ensures r.Some? && isAnonymous ==> r.value.author == AnonAuthor(draw)
    ensures r.Some? && !isAnonymous ==> r.value.author == "You"
  {
    if Trim(content) == "" then None
    else Some(NewPost(content, category, isAnonymous, Some(["#secret"]), if isAnonymous then AnonAuthor(draw) else "You"))
  }

  /** Posting from the dialog puts a post with the untrimmed content and the one default tag at the top of the feed. */
  lemma PostedFirst(posts: seq<Post>, content: string, category: string, isAnonymous: bool, draw: nat, now: int)
    requires draw < 9000 && Trim(content) != ""
    ensures var feed := HandlePost(posts, BuildPost(content, category, isAnonymous, draw).value, now);
      && feed[0].content == content && feed[0].hashtags == ["#secret"] && feed[0].likes == 0
      && feed[1..] == posts
  {
  }

  /** The dialog's fields. */
  class PostForm {
    var content: string
    var category: string
    var isAnonymous: bool

    constructor ()
      ensures content == "" && category == "Study" && isAnonymous
    {
      content := "";
      category := "Study";
      isAnonymous := true;
    }

    /**
     * handleSubmit with the random draw; returns the post handed to `onPost`
     * and whether the dialog closed. A blank content does nothing at all.
     */
    method HandleSubmit(draw: nat) returns (posted: Option<NewPost>, closed: bool)
      requires draw < 9000
      modifies this
      ensures posted == BuildPost(old(content), old(category), old(isAnonymous), draw)
      ensures closed <==> posted.Some?
      ensures posted.None? ==> content == old(content) && category == old(category) && isAnonymous == old(isAnonymous)
      ensures posted.Some? ==> content == "" && category == "Study" && isAnonymous == old(isAnonymous)
    {
      posted := BuildPost(content, category, isAnonymous, draw);
      if posted.None? {
        return posted, false;
      }
      content := "";
      category := "Study";
      closed := true;
    }
  }
}
