/**
 * The Feed page's `filteredConfessions`: a category filter, a case-insensitive
 * search over the content and the hashtags, then a sort by timestamp.
 */
module Feed {
  import opened Strings
  import opened Sorting
  import opened Seqs
  import opened App

  /** The category filter: 'All' keeps everything, any other value needs an exact match. */
  predicate InCategory(p: Post, activeCategory: string) {
    activeCategory == "All" || p.category == activeCategory
  }

  /** The search filter: the lower-cased term occurs in the lower-cased content or in some lower-cased hashtag. */
  predicate MatchesSearch(p: Post, searchTerm: string) {
    || Contains(Lower(p.content), Lower(searchTerm))
    || exists i :: 0 <= i < |p.hashtags| && Contains(Lower(p.hashtags[i]), Lower(searchTerm))
  }

  /** The category filter as the test handed to `filter`. */
  function CategoryTest(activeCategory: string): Post -> bool {
    (p: Post) => InCategory(p, activeCategory)
  }

  /** The search filter as the test handed to `filter`. */
  function SearchTest(searchTerm: string): Post -> bool {
    (p: Post) => MatchesSearch(p, searchTerm)
  }

  /** Both filters as a single test. */
  function BothTests(activeCategory: string, searchTerm: string): Post -> bool {
    (p: Post) => InCategory(p, activeCategory) && MatchesSearch(p, searchTerm)
  }

  /** The sort's comparator as an order: newest first for 'Newest', oldest first otherwise. */
  function TimeOrder(sortOption: string): (Post, Post) -> bool {
    if sortOption == "Newest" then (a: Post, b: Post) => a.timestamp >= b.timestamp
    else (a: Post, b: Post) => a.timestamp <= b.timestamp
  }

  lemma TimeOrderTotal(sortOption: string)
    ensures TotalPreorder(TimeOrder(sortOption))
  {
  }

  /** A sequence sorted by the comparator is ordered by timestamp in the chosen direction. */
  lemma SortedByTime(r: seq<Post>, sortOption: string)
    requires SortedBy(r, TimeOrder(sortOption))
    ensures sortOption == "Newest" ==> forall i, j :: 0 <= i < j < |r| ==> r[i].timestamp >= r[j].timestamp
    ensures sortOption != "Newest" ==> forall i, j :: 0 <= i < j < |r| ==> r[i].timestamp <= r[j].timestamp
  {
  }

  /** The pipeline: filter by category, then by the search term, then sort. */
  function FilteredConfessions(posts: seq<Post>, activeCategory: string, searchTerm: string, sortOption: string): (r: seq<Post>)
    ensures multiset(r) <= multiset(posts)
    ensures forall p :: p in r <==> p in posts && InCategory(p, activeCategory) && MatchesSearch(p, searchTerm)
    ensures sortOption == "Newest" ==> forall i, j :: 0 <= i < j < |r| ==> r[i].timestamp >= r[j].timestamp
    ensures sortOption != "Newest" ==> forall i, j :: 0 <= i < j < |r| ==> r[i].timestamp <= r[j].timestamp
  {
    var byCategory := Filter(posts, CategoryTest(activeCategory));
    var bySearch := Filter(byCategory, SearchTest(searchTerm));
    var order := TimeOrder(sortOption);
    FilterMembers(posts, CategoryTest(activeCategory));
    FilterMembers(byCategory, SearchTest(searchTerm));
    TimeOrderTotal(sortOption);
    SortSorted(bySearch, order);
    SortMembers(bySearch, order);
    SortedByTime(Sort(bySearch, order), sortOption);
    Sort(bySearch, order)
  }

  /** The two `filter` calls of the pipeline act as one filter by both conditions. */
  lemma OneFilterPass(posts: seq<Post>, activeCategory: string, searchTerm: string, sortOption: string)
    ensures FilteredConfessions(posts, activeCategory, searchTerm, sortOption) ==
      Sort(Filter(posts, BothTests(activeCategory, searchTerm)), TimeOrder(sortOption))
  {
    FilterFilter(posts, CategoryTest(activeCategory), SearchTest(searchTerm), BothTests(activeCategory, searchTerm));
  }

  /** With an empty search box every post of the category is shown. */
  lemma EmptySearchKeepsCategory(posts: seq<Post>, activeCategory: string, sortOption: string)
    ensures forall p :: p in FilteredConfessions(posts, activeCategory, "", sortOption) <==>
      p in posts && InCategory(p, activeCategory)
  {
    forall p: Post ensures MatchesSearch(p, "") {
      ContainsEmpty(Lower(p.content));
    }
  }
}
