/** The admin area: a fixed-credential login gate, a create-or-edit post form,
    a two-step delete, and the published/draft split behind the statistics
    cards. */
module AdminDashboard {
  import opened Posts
  import opened Intents

  const AdminEmail: string := "admin@technova.com"
  const AdminPassword: string := "admin123"

  // ---------------------------------------------------------------------------
  // Status filters and the statistics they feed

  /** `posts.filter(post => post.status === s)`. */
  function FilterByStatus(posts: seq<Post>, s: Status): (r: seq<Post>)
    ensures |r| <= |posts|
    ensures forall p :: p in r ==> p in posts && p.status == s
    ensures forall p :: p in posts && p.status == s ==> p in r
  {
    if posts == [] then []
    else if posts[0].status == s then [posts[0]] + FilterByStatus(posts[1..], s)
    else FilterByStatus(posts[1..], s)
  }

  function PublishedPosts(posts: seq<Post>): seq<Post>
  {
    FilterByStatus(posts, Published)
  }

  function DraftPosts(posts: seq<Post>): seq<Post>
  {
    FilterByStatus(posts, Draft)
  }

  /** A filter keeps the posts it selects in their original order. */
  lemma {:induction false} FilterKeepsOrder(posts: seq<Post>, s: Status)
    ensures IsSubsequence(FilterByStatus(posts, s), posts)
  {
    if posts != [] {
      FilterKeepsOrder(posts[1..], s);
      var r := FilterByStatus(posts, s);
      if posts[0].status == s {
        assert r[0] == posts[0] && r[1..] == FilterByStatus(posts[1..], s);
      }
    }
  }

  /** Every post lands in exactly one of the two lists: together they are the
      whole collection, element for element. */
  lemma {:induction false} StatusPartition(posts: seq<Post>)
    ensures multiset(PublishedPosts(posts)) + multiset(DraftPosts(posts)) == multiset(posts)
    ensures |PublishedPosts(posts)| + |DraftPosts(posts)| == |posts|
  {
    if posts != [] {
      StatusPartition(posts[1..]);
      assert posts == [posts[0]] + posts[1..];
    }
    assert |multiset(PublishedPosts(posts))| == |PublishedPosts(posts)|;
    assert |multiset(DraftPosts(posts))| == |DraftPosts(posts)|;
  }

  /** No post is in both lists. */
  lemma StatusFiltersDisjoint(posts: seq<Post>)
    ensures forall p :: p in PublishedPosts(posts) ==> p !in DraftPosts(posts)
  {
  }

  /** The values of the Total Posts, Published and Drafts cards. */
  datatype Stats = Stats(total: nat, published: nat, drafts: nat)

  function PostStats(posts: seq<Post>): (r: Stats)
    ensures r.published + r.drafts == r.total
    ensures r.total == |posts|
    ensures r.published == |PublishedPosts(posts)| && r.drafts == |DraftPosts(posts)|
  {
    StatusPartition(posts);
    Stats(|posts|, |PublishedPosts(posts)|, |DraftPosts(posts)|)
  }

  // ---------------------------------------------------------------------------
  // Component state

  datatype LoginForm = LoginForm(email: string, password: string)

  /** Which of the three screens the component renders. */
  datatype View = LoginView | PostFormView(isEditing: bool) | DashboardView

  /** The component's local state, as one value. */
  datatype State = State(
    isLoggedIn: bool,
    loginForm: LoginForm,
    showPostForm: bool,
    editingPost: Option<Post>,
    deletePostId: Option<string>,
    intents: seq<Intent>)

  /** A pending delete id counts only when it is a non-empty string. */
  predicate HasPendingDelete(deletePostId: Option<string>)
  {
    deletePostId.Some? && deletePostId.value != ""
  }

  class Dashboard {
    var isLoggedIn: bool
    var loginForm: LoginForm
    var showPostForm: bool
    var editingPost: Option<Post>
    var deletePostId: Option<string>
    /** The calls made to `onNavigate`, `onCreatePost`, `onUpdatePost` and
        `onDeletePost`, oldest first. */
    var intents: seq<Intent>

    function Snapshot(): State
      reads this
    {
      State(isLoggedIn, loginForm, showPostForm, editingPost, deletePostId, intents)
    }

    constructor ()
      ensures Snapshot() == State(false, LoginForm("", ""), false, None, None, [])
    {
      isLoggedIn := false;
      loginForm := LoginForm("", "");
      showPostForm := false;
      editingPost := None;
      deletePostId := None;
      intents := [];
    }

    /** Screen priority: the login gate first, then the form, then the dashboard. */
    function CurrentView(): (v: View)
      reads this
      ensures v == LoginView <==> !isLoggedIn
      ensures v.PostFormView? <==> isLoggedIn && showPostForm
      ensures v.PostFormView? ==> (v.isEditing <==> editingPost.Some?)
      ensures v == DashboardView <==> isLoggedIn && !showPostForm
    {
      if !isLoggedIn then LoginView
      else if showPostForm then PostFormView(editingPost.Some?)
      else DashboardView
    }

    /** The delete confirmation dialog is open while a delete is pending
        (`!!deletePostId`: neither null nor the empty string). */
    predicate DeleteDialogOpen()
      reads this
      ensures DeleteDialogOpen() <==> deletePostId != None && deletePostId != Some("")
    {
      HasPendingDelete(deletePostId)
    }

    method EditEmail(email: string)
      modifies this
      ensures Snapshot() == old(Snapshot()).(loginForm := old(loginForm).(email := email))
    {
      loginForm := loginForm.(email := email);
    }

    method EditPassword(password: string)
      modifies this
      ensures Snapshot() == old(Snapshot()).(loginForm := old(loginForm).(password := password))
    {
      loginForm := loginForm.(password := password);
    }

    /** Submitting the login form. A mismatch changes nothing. */
    method Login() returns (ok: bool)
      modifies this
      ensures ok <==> loginForm.email == AdminEmail && loginForm.password == AdminPassword
      ensures ok ==> Snapshot() == old(Snapshot()).(isLoggedIn := true)
      ensures !ok ==> Snapshot() == old(Snapshot())
    {
      ok := loginForm.email == AdminEmail && loginForm.password == AdminPassword;
      if ok {
        isLoggedIn := true;
      }
    }

    /** Either Logout button: only the login flag changes. */
    method Logout()
      modifies this
      ensures Snapshot() == old(Snapshot()).(isLoggedIn := false)
    {
      isLoggedIn := false;
    }

    /** "New Post": open the form in create mode. */
    method CreatePost()
      modifies this
      ensures Snapshot() == old(Snapshot()).(editingPost := None, showPostForm := true)
    {
      editingPost := None;
      showPostForm := true;
    }

    /** The edit button of a row: open the form on that post. */
    method EditPost(post: Post)
      modifies this
      ensures Snapshot() == old(Snapshot()).(editingPost := Some(post), showPostForm := true)
    {
      editingPost := Some(post);
      showPostForm := true;
    }

    /** Saving the form sends one request, an update when a post is being
        edited and a create otherwise, and closes the form. */
    method PostSave(fields: PostFields)
      modifies this
      ensures intents == old(intents) + [
        if old(editingPost).Some? then UpdatePost(old(editingPost).value.id, fields)
        else Intent.CreatePost(fields)]
      ensures Snapshot() == old(Snapshot()).(intents := intents, showPostForm := false, editingPost := None)
    {
      if editingPost.Some? {
        intents := intents + [UpdatePost(editingPost.value.id, fields)];
      } else {
        intents := intents + [Intent.CreatePost(fields)];
      }
      showPostForm := false;
      editingPost := None;
    }

    /** Cancelling the form sends nothing and closes it. */
    method PostCancel()
      modifies this
      ensures Snapshot() == old(Snapshot()).(showPostForm := false, editingPost := None)
    {
      showPostForm := false;
      editingPost := None;
    }

    /** The trash button of a row: the first step of a delete. */
    method RequestDelete(postId: string)
      modifies this
      ensures Snapshot() == old(Snapshot()).(deletePostId := Some(postId))
    {
      deletePostId := Some(postId);
    }

    /** The dialog closing (`onOpenChange`) drops the pending id. */
    method DismissDelete()
      modifies this
      ensures Snapshot() == old(Snapshot()).(deletePostId := None)
    {
      deletePostId := None;
    }

    /** The dialog's Delete button: one delete request for the pending id,
        which is then cleared; nothing at all when no id is pending. */
    method DeleteConfirm()
      modifies this
      ensures HasPendingDelete(old(deletePostId)) ==>
        Snapshot() == old(Snapshot()).(intents := old(intents) + [DeletePost(old(deletePostId).value)], deletePostId := None)
      ensures !HasPendingDelete(old(deletePostId)) ==> Snapshot() == old(Snapshot())
    {
      if deletePostId.Some? && deletePostId.value != "" {
        intents := intents + [DeletePost(deletePostId.value)];
        deletePostId := None;
      }
    }

    /** The eye button of a row opens the post on the public site. */
    method ViewPost(postId: string)
      modifies this
      ensures Snapshot() == old(Snapshot()).(intents := old(intents) + [OpenPost(postId)])
    {
      intents := intents + [OpenPost(postId)];
    }

    /** "Back to Home" on the login screen and "Back to Site" on the dashboard. */
    method BackToHome()
      modifies this
      ensures Snapshot() == old(Snapshot()).(intents := old(intents) + [GoTo("home")])
    {
      intents := intents + [GoTo("home")];
    }
  }

  // ---------------------------------------------------------------------------
  // Sequences of handler calls

  /** Logging out and back in returns to the screen that was showing. */
  method LogoutThenLogin(d: Dashboard) returns (ok: bool)
    requires d.isLoggedIn
    requires d.loginForm == LoginForm(AdminEmail, AdminPassword)
    modifies d
    ensures ok
    ensures d.Snapshot() == old(d.Snapshot())
    ensures d.CurrentView() == old(d.CurrentView())
  {
    d.Logout();
    ok := d.Login();
  }

  /** Asking to delete a post and confirming sends exactly one delete for it. */
  method RequestThenConfirm(d: Dashboard, postId: string)
    requires postId != ""
    modifies d
    ensures d.intents == old(d.intents) + [DeletePost(postId)]
    ensures !d.DeleteDialogOpen()
  {
    d.RequestDelete(postId);
    d.DeleteConfirm();
  }

  /** Opening a post for edit and saving sends one update for that post's id. */
  method EditThenSave(d: Dashboard, post: Post, fields: PostFields)
    modifies d
    ensures d.intents == old(d.intents) + [UpdatePost(post.id, fields)]
    ensures !d.showPostForm && d.editingPost == None
  {
    d.EditPost(post);
    d.PostSave(fields);
  }
}
