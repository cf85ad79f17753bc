/** The "Recent Articles" grid: up to six posts taken by position, after the
    first one. */
module LatestPosts {
  import opened Posts
  import opened Intents
  import FeaturedPost

  /** The exclusive end the component passes to `slice`. */
  const SliceEnd: nat := 7

  function Min(a: int, b: int): int
  {
    if a <= b then a else b
  }

  /** `s.slice(start, end)` for non-negative bounds: out-of-range bounds are
      clamped and an empty range gives the empty list. */
  function Slice<T>(s: seq<T>, start: nat, end: nat): (r: seq<T>)
    ensures |r| == if Min(end, |s|) <= start then 0 else Min(end, |s|) - start
    ensures forall i :: 0 <= i < |r| ==> r[i] == s[start + i]
  {
    if Min(end, |s|) <= start then [] else s[start..Min(end, |s|)]
  }

  /** `posts.slice(1, Math.min(posts.length, 7))`. */
  function Latest(posts: seq<Post>): (r: seq<Post>)
    ensures |r| == if |posts| <= 1 then 0 else Min(|posts|, SliceEnd) - 1
    ensures |r| <= 6
    ensures r == [] <==> |posts| <= 1
    ensures forall i :: 0 <= i < |r| ==> r[i] == posts[i + 1]
    ensures |posts| >= 1 ==> r == posts[1..Min(|posts|, SliceEnd)]
  {
    Slice(posts, 1, Min(|posts|, SliceEnd))
  }

  /** The two ways the section renders. */
  datatype Section = NoPostsYet | Cards(posts: seq<Post>)

  function LatestSection(posts: seq<Post>): (r: Section)
    ensures r == NoPostsYet <==> |posts| <= 1
    ensures r.Cards? ==> r.posts == posts[1..Min(|posts|, SliceEnd)]
  {
    var latest := Latest(posts);
    if |latest| == 0 then NoPostsYet else Cards(latest)
  }

  /** Clicking card `i` opens the post one place further down the list. */
  function CardClick(posts: seq<Post>, i: nat): (r: Intent)
    requires i < |Latest(posts)|
    ensures r == Navigate("post", Some(posts[i + 1].id))
  {
    OpenPost(Latest(posts)[i].id)
  }

  /** "View All Articles" navigates to the full list without a payload. */
  function ViewAll(): (r: Intent)
    ensures r.Navigate? && r.page == "all-posts" && r.data == None
  {
    GoTo("all-posts")
  }

  /** The list is cut by position only, so drafts show whenever they sit at
      positions 1 to 6. */
  lemma DraftsAreNotFiltered(posts: seq<Post>, i: nat)
    requires 1 <= i < Min(|posts|, SliceEnd)
    ensures posts[i] in Latest(posts)
  {
    assert Latest(posts)[i - 1] == posts[i];
  }

  /** With unique ids and a published first post, the featured post is the
      first post and does not appear again in the grid. */
  lemma FeaturedNotRepeated(posts: seq<Post>)
    requires |posts| >= 1 && posts[0].status == Published
    requires DistinctIds(posts)
    ensures FeaturedPost.Featured(posts) == Some(posts[0])
    ensures posts[0] !in Latest(posts)
  {
  }

  /** The grid skips position 0 whatever is featured: when the first post is a
      draft and the first published post sits at positions 1 to 6, that post is
      featured above and shown again in the grid. */
  lemma FeaturedRepeatedAfterLeadingDraft(posts: seq<Post>, k: nat)
    requires 1 <= k < Min(|posts|, SliceEnd)
    requires posts[k].status == Published
    requires forall j :: 0 <= j < k ==> posts[j].status == Draft
    ensures FeaturedPost.Featured(posts) == Some(posts[k])
    ensures Latest(posts)[k - 1] == posts[k]
  {
  }
}
