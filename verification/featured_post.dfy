/** The "Editor's Pick" section: the first published post, falling back to the
    first post of any status; nothing at all for an empty list. */
module FeaturedPost {
  import opened Posts
  import opened Intents

  /** The index `posts.find(post => post.status === 'published')` stops at. */
  function FirstPublished(posts: seq<Post>): (r: Option<nat>)
    ensures r.Some? ==> r.value < |posts| && posts[r.value].status == Published
    ensures r.Some? ==> forall j :: 0 <= j < r.value ==> posts[j].status == Draft
    ensures r.None? ==> forall j :: 0 <= j < |posts| ==> posts[j].status == Draft
  {
    if posts == [] then None
    else if posts[0].status == Published then Some(0)
    else match FirstPublished(posts[1..])
      case None =>
        assert posts[0].status == Draft;
        assert forall j :: 1 <= j < |posts| ==> posts[j] == posts[1..][j - 1];
        assert forall j :: 0 <= j < |posts| - 1 ==> posts[1..][j].status == Draft;
        None
      case Some(k) => Some(k + 1)
  }

  /** `posts.find(...) || posts[0]`; `None` is the case the component renders
      nothing for. */
  function Featured(posts: seq<Post>): (r: Option<Post>)
    ensures r.None? <==> posts == []
    ensures r.Some? ==> r.value in posts
    ensures forall i ::
      (0 <= i < |posts| && posts[i].status == Published && forall j :: 0 <= j < i ==> posts[j].status == Draft)
      ==> r == Some(posts[i])
    ensures posts != [] && (forall j :: 0 <= j < |posts| ==> posts[j].status == Draft) ==>
      r == Some(posts[0])
  {
    match FirstPublished(posts)
    case Some(k) => Some(posts[k])
    case None => if posts == [] then None else Some(posts[0])
  }

  /** Whatever is featured, no post before it in the list is published. */
  lemma NothingPublishedBeforeFeatured(posts: seq<Post>, i: nat)
    requires i < |posts| && Featured(posts) == Some(posts[i])
    requires DistinctIds(posts)
    ensures forall j :: 0 <= j < i ==> posts[j].status == Draft
  {
    match FirstPublished(posts)
    case Some(k) =>
      assert posts[k] == posts[i];
    case None =>
  }

  /** "Read Full Article" opens the featured post. */
  function ReadFullArticle(posts: seq<Post>): (r: Option<Intent>)
    ensures r.Some? <==> posts != []
    ensures r.Some? ==> r.value == Navigate("post", Some(Featured(posts).value.id))
  {
    match Featured(posts)
    case Some(p) => Some(OpenPost(p.id))
    case None => None
  }
}
