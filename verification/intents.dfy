/** The callbacks a component receives from its parent (`onNavigate`,
    `onCreatePost`, `onUpdatePost`, `onDeletePost`) are modelled as requests
    appended to a log; what the parent does with them is not part of the
    model. */
module Intents {
  import opened Posts

  datatype Intent =
    | Navigate(page: string, data: Option<string>)
    | CreatePost(fields: PostFields)
    | UpdatePost(postId: string, changes: PostFields)
    | DeletePost(postId: string)

  /** `onNavigate(page)` with no payload. */
  function GoTo(page: string): Intent
  {
    Navigate(page, None)
  }

  /** `onNavigate('post', id)`: open one article. */
  function OpenPost(id: string): Intent
  {
    Navigate("post", Some(id))
  }
}
