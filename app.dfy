/**
 * The demo feed kept in the App component's state: posting prepends a new
 * post, reacting rebuilds the list with one post's like count changed.
 */
module App {
  import opened Wrappers

  /** A feed post; `timestamp` is the instant its ISO string denotes, in milliseconds. */
  datatype Post = Post(id: int, author: string, timestamp: int, category: string, content: string,
                       hashtags: seq<string>, likes: int, comments: int, isLiked: bool)

  /** What the create modal hands to `onPost`. */
  datatype NewPost = NewPost(content: string, category: string, isAnonymous: bool,
                             hashtags: Option<seq<string>>, author: string)

  /** handlePost at time `now`: the new post goes first, the old list follows unchanged. */
  function HandlePost(posts: seq<Post>, np: NewPost, now: int): (r: seq<Post>)
    ensures |r| == |posts| + 1 && r[1..] == posts
    ensures r[0].id == |posts| + 1 && r[0].timestamp == now
    ensures r[0].likes == 0 && r[0].comments == 0 && !r[0].isLiked
    ensures r[0].hashtags == np.hashtags.GetOr([])
    ensures r[0].author == np.author && r[0].category == np.category && r[0].content == np.content
  {
    [Post(|posts| + 1, np.author, now, np.category, np.content, np.hashtags.GetOr([]), 0, 0, false)] + posts
  }

  /** One post's reaction: 'like' adds one and marks it liked; anything else takes one away, below zero if need be. */
  function ReactTo(p: Post, kind: string): (r: Post)
    ensures r == p.(likes := r.likes, isLiked := r.isLiked)
    ensures kind == "like" ==> r.likes == p.likes + 1 && r.isLiked
    ensures kind != "like" ==> r.likes == p.likes - 1 && !r.isLiked
  {
    if kind == "like" then p.(likes := p.likes + 1, isLiked := true) else p.(likes := p.likes - 1, isLiked := false)
  }

  /** handleReact: every post with the id reacts, every other post is kept, the order stays. */
  function HandleReact(posts: seq<Post>, id: int, kind: string): (r: seq<Post>)
    ensures |r| == |posts|
    ensures forall i :: 0 <= i < |posts| && posts[i].id == id ==> r[i] == ReactTo(posts[i], kind)
    ensures forall i :: 0 <= i < |posts| && posts[i].id != id ==> r[i] == posts[i]
  {
    seq(|posts|, i requires 0 <= i < |posts| => if posts[i].id == id then ReactTo(posts[i], kind) else posts[i])
  }

  /** A like followed by an unlike restores every count and leaves the post unliked. */
  lemma LikeThenUnlike(posts: seq<Post>, id: int)
    ensures var r := HandleReact(HandleReact(posts, id, "like"), id, "unlike");
      && |r| == |posts|
      && forall i :: 0 <= i < |posts| ==>
           r[i] == if posts[i].id == id then posts[i].(isLiked := false) else posts[i]
  {
    var once := HandleReact(posts, id, "like");
    assert forall i :: 0 <= i < |posts| ==> once[i].id == posts[i].id;
  }
}
