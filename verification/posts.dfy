/** The post record shared by the dashboard, the article page and the home
    page sections, and the small option type the components use for values
    that may be absent (`null` or `undefined` in the components' TypeScript). */
module Posts {

  datatype Option<T> = None | Some(value: T)

  /** The two publication states a post can be in. */
  datatype Status = Published | Draft

  /** One article, with every field the components read. */
  datatype Post = Post(
    id: string,
    title: string,
    content: string,
    excerpt: string,
    image: string,
    author: string,
    date: string,
    readTime: string,
    views: string,
    category: string,
    status: Status,
    tags: seq<string>)

  /** What the post form hands back on save: a post without `id` and `views`. */
  datatype PostFields = PostFields(
    title: string,
    content: string,
    excerpt: string,
    image: string,
    author: string,
    date: string,
    readTime: string,
    category: string,
    status: Status,
    tags: seq<string>)

  /** `b` keeps the elements of `a` in order, possibly with others between them. */
  predicate IsSubsequence<T(==)>(a: seq<T>, b: seq<T>)
    decreases |b|
  {
    a == [] ||
    (b != [] && ((a[0] == b[0] && IsSubsequence(a[1..], b[1..])) || IsSubsequence(a, b[1..])))
  }

  /** Post ids are pairwise different. */
  predicate DistinctIds(posts: seq<Post>)
  {
    forall i, j :: 0 <= i < j < |posts| ==> posts[i].id != posts[j].id
  }
}
