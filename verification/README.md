# TechNova blog front end: state and selection logic

This project models in Dafny the logic inside the React components of the TechNova blog. Most of the components are rendering; the model keeps the handlers, selectors and derived strings.

- **Admin dashboard** (`AdminDashboard`). The class `Dashboard` holds the five pieces of component state: `isLoggedIn`, `loginForm`, `showPostForm`, `editingPost` and `deletePostId`.
  - Login is a fixed-credential gate. Logout clears only the login flag.
  - The post form is either in create mode or in edit mode. Saving it sends one request, create or update.
  - Delete takes two steps: a pending id, then a confirm.
  - The published and draft filters feed the statistics cards.
  - Each callback prop (`onNavigate`, `onCreatePost`, `onUpdatePost`, `onDeletePost`) is modelled as an `Intent` appended to the log `intents`. Contracts can then say "exactly one request, with these arguments".
- **Article page** (`BlogPost`). The class `BlogPostPage` holds the comment list, seeded with two comments, and the comment draft. It also holds the like and bookmark flags.
  - The list grows only by appending the draft, and only when the draft is not blank after JavaScript's `trim`.
  - The comment counter and the "Comments (n)" heading both show the length of `comments`.
  - The author's display name, `@handle` and avatar initials are pure functions. They are defined over models of the JavaScript string operations, which are in module `Text`.
- **Home page sections**.
  - `FeaturedPost.Featured` is the first published post, or the first post when no post is published, or nothing when the list is empty.
  - `LatestPosts.Latest` is the positional slice `posts[1 .. min(len, 7))`.
  - The grid skips position 0 whatever post is featured. So when the first post is a draft and the first published post sits at positions 1 to 6, that post is featured and also shown again in the grid (`LatestPosts.FeaturedRepeatedAfterLeadingDraft`). With a published first post and unique ids, nothing is shown twice (`LatestPosts.FeaturedNotRepeated`).
  - "View All Articles" is the intent `LatestPosts.ViewAll`, a navigation to `all-posts` with no payload.
- **Header** (`Header`). The class `HeaderBar` holds the mobile-menu flag and the search query.
  - A link is highlighted when its page is the current page. Because the three links have distinct pages, at most one is highlighted.
  - The mobile menu is shown while `isMenuOpen` holds (`HeaderBar.MobileMenuShown`).

Each class method states its whole new state. The class's `Snapshot()` packs all fields into one value, and the method's `ensures` gives that value in terms of `old(Snapshot())`. This also covers "nothing else changes". A few module-level methods call handlers in sequence and prove what the sequence does, for example that two toggles restore the state.

This model follows the components' code where it departs from the system's wider design:

- A failed login only shows an alert. It returns no error value.
- Navigation accepts any page string and does no checking.
- No handler increments a comment's likes.
- The total-views figure multiplies every post's number by 1000, whether or not it ends in "K".

## Model

| member | source | states |
|---|---|---|
| `Text.Trim` | src/components/BlogPost.tsx:72 | `trim()` gives the empty string exactly when every character is JavaScript whitespace; otherwise the result starts and ends with a non-whitespace character |
| `Text.ToLower` | src/components/BlogPost.tsx:68 | `toLowerCase()` leaves no upper-case letter, keeps the length and position of every character, and returns an already lower-case string unchanged |
| `Text.RemoveFirst` | src/components/BlogPost.tsx:68 | `replace(' ', '')` leaves a string without a space unchanged and removes one character from a string with one |
| `Text.RemoveFirstAt` | src/components/BlogPost.tsx:68 | `replace(' ', '')` removes exactly the first space and keeps everything around it |
| `Text.Split` | src/components/BlogPost.tsx:120 | `split(' ')` yields at least one piece, and no piece contains a space |
| `Text.JoinSplit` | src/components/BlogPost.tsx:120 | joining the pieces of a split with the same separator gives back the string |
| `AdminDashboard.FilterByStatus` | src/components/AdminDashboard.tsx:109-110 | the filtered list contains exactly the posts of the given status |
| `AdminDashboard.FilterKeepsOrder` | src/components/AdminDashboard.tsx:109-110 | each filter keeps its posts in list order (a subsequence) |
| `AdminDashboard.StatusPartition` | src/components/AdminDashboard.tsx:109-110 | the published and draft lists together are the post list as a multiset, and their lengths add up to its length |
| `AdminDashboard.StatusFiltersDisjoint` | src/components/AdminDashboard.tsx:109-110 | no post is in both lists |
| `AdminDashboard.PostStats` | src/components/AdminDashboard.tsx:116-137 | Total Posts is the number of posts, Published and Drafts are the lengths of the two filtered lists (lines 126, 133), and the two add up to the total |
| `AdminDashboard.Dashboard.constructor` | src/components/AdminDashboard.tsx:54-61 | logged out, empty login form, form closed, no post being edited, no pending delete, no requests sent |
| `AdminDashboard.Dashboard.CurrentView` | src/components/AdminDashboard.tsx:147-264 | the login screen exactly when logged out; otherwise the form exactly when it is open, in edit mode exactly when a post is being edited; otherwise the dashboard |
| `AdminDashboard.Dashboard.DeleteDialogOpen` | src/components/AdminDashboard.tsx:479 | the confirmation dialog is open exactly when the pending id is neither absent nor the empty string; `RequestThenConfirm` proves it ends closed |
| `AdminDashboard.Dashboard.EditEmail` | src/components/AdminDashboard.tsx:183 | only the form's email changes |
| `AdminDashboard.Dashboard.EditPassword` | src/components/AdminDashboard.tsx:197 | only the form's password changes |
| `AdminDashboard.Dashboard.Login` | src/components/AdminDashboard.tsx:63-71 | succeeds exactly when the form holds admin@technova.com / admin123; success sets only the login flag; a mismatch changes nothing |
| `AdminDashboard.Dashboard.Logout` | src/components/AdminDashboard.tsx:247 | from either screen (also line 283) only the login flag is cleared; the form and the post being edited stay as they were |
| `AdminDashboard.Dashboard.CreatePost` | src/components/AdminDashboard.tsx:73-76 | opens the form with no post being edited; nothing else changes |
| `AdminDashboard.Dashboard.EditPost` | src/components/AdminDashboard.tsx:78-81 | opens the form on the given post; nothing else changes |
| `AdminDashboard.Dashboard.PostSave` | src/components/AdminDashboard.tsx:83-91 | appends exactly one request: update of the edited post's id with the form data, or create with it when no post is edited; then closes the form and clears the edited post |
| `AdminDashboard.Dashboard.PostCancel` | src/components/AdminDashboard.tsx:93-96 | sends nothing, closes the form and clears the edited post |
| `AdminDashboard.Dashboard.RequestDelete` | src/components/AdminDashboard.tsx:392 | only the pending delete id is set |
| `AdminDashboard.Dashboard.DismissDelete` | src/components/AdminDashboard.tsx:479 | only the pending delete id is cleared |
| `AdminDashboard.Dashboard.DeleteConfirm` | src/components/AdminDashboard.tsx:98-103 | with a non-empty pending id, appends exactly one delete request for it and clears it; otherwise (no id, or the falsy empty string) changes nothing |
| `AdminDashboard.Dashboard.ViewPost` | src/components/AdminDashboard.tsx:105-107 | appends one navigation to `post` carrying the id |
| `AdminDashboard.Dashboard.BackToHome` | src/components/AdminDashboard.tsx:155 | appends one navigation to `home` without payload (also "Back to Site", line 273) |
| `AdminDashboard.LogoutThenLogin` | src/components/AdminDashboard.tsx:283 | logging out and back in with the right credentials restores the whole state, so the same screen shows again |
| `AdminDashboard.RequestThenConfirm` | src/components/AdminDashboard.tsx:98-103 | choosing a post to delete and confirming sends exactly one delete for its id and closes the dialog |
| `AdminDashboard.EditThenSave` | src/components/AdminDashboard.tsx:83-91 | editing a post and saving sends exactly one update for that post's id |
| `BlogPost.DisplayName` | src/components/BlogPost.tsx:65 | the author when non-empty, otherwise exactly "Anonymous"; never empty |
| `BlogPost.Handle` | src/components/BlogPost.tsx:68 | the handle starts with `@` |
| `BlogPost.HandleOfDisplayName` | src/components/BlogPost.tsx:65-68 | the handle is `@` plus the lower-cased display name with its first space removed |
| `BlogPost.HandleDropsFirstSpace` | src/components/BlogPost.tsx:68 | when the name's first space is at index i, the handle is `@` plus the lower-cased name without position i and with every later space kept |
| `BlogPost.HandleIsLowerCase` | src/components/BlogPost.tsx:68 | a handle contains no upper-case letter |
| `BlogPost.Initials` | src/components/BlogPost.tsx:120 | the initials are exactly the non-space characters at the start of the name or after a space, in order; empty pieces contribute nothing |
| `BlogPost.InitialsBounds` | src/components/BlogPost.tsx:120 | initials are no longer than the name, contain no space and use only the name's characters (the same expression at lines 215 and 267) |
| `BlogPost.NewComment` | src/components/BlogPost.tsx:73-80 | the new comment is by "You", has 0 likes and the untrimmed draft as content |
| `BlogPost.BlogPostPage.constructor` | src/components/BlogPost.tsx:42-62 | not liked, not bookmarked, empty draft, and the two seeded comments (ids "1" and "2", 12 and 8 likes, in that order) |
| `BlogPost.BlogPostPage.PostCommentDisabled` | src/components/BlogPost.tsx:249 | the Post Comment button is disabled exactly when every character of the draft is whitespace; `AddComment` changes nothing in that case |
| `BlogPost.BlogPostPage.EditDraft` | src/components/BlogPost.tsx:243 | only the draft changes |
| `BlogPost.BlogPostPage.AddComment` | src/components/BlogPost.tsx:71-84 | a blank draft (the case the disabled button shows, line 249) changes nothing; otherwise exactly one comment is appended after the unchanged earlier ones, and the draft is emptied |
| `BlogPost.BlogPostPage.ToggleLike` | src/components/BlogPost.tsx:159 | only the like flag is negated |
| `BlogPost.BlogPostPage.ToggleBookmark` | src/components/BlogPost.tsx:177 | only the bookmark flag is negated |
| `BlogPost.BlogPostPage.BackToHome` | src/components/BlogPost.tsx:93 | appends one navigation to `home` |
| `BlogPost.ToggleTwice` | src/components/BlogPost.tsx:159 | two clicks on the heart or on the bookmark (line 177) restore the whole page state |
| `BlogPost.PostWhitespace` | src/components/BlogPost.tsx:71-72 | posting a whitespace-only draft leaves the comments and the draft as they were |
| `FeaturedPost.FirstPublished` | src/components/FeaturedPost.tsx:29 | `find` stops at a published post with only drafts before it, or finds none when every post is a draft |
| `FeaturedPost.Featured` | src/components/FeaturedPost.tsx:29-33 | nothing exactly for an empty list; otherwise a post of the list: the first published one, or the first post when all are drafts |
| `FeaturedPost.NothingPublishedBeforeFeatured` | src/components/FeaturedPost.tsx:29 | with unique ids, every post before the featured one is a draft |
| `FeaturedPost.ReadFullArticle` | src/components/FeaturedPost.tsx:100 | the button exists exactly when the list is non-empty and opens the featured post's id |
| `LatestPosts.Slice` | src/components/LatestPosts.tsx:37 | `slice` clamps its bounds and yields the elements from `start` on, in order |
| `LatestPosts.Latest` | src/components/LatestPosts.tsx:37 | the grid is `posts[1 .. min(len, 7))`: element i is post i+1, at most 6 posts, and empty exactly when there is at most one post |
| `LatestPosts.LatestSection` | src/components/LatestPosts.tsx:37-50 | "No posts available yet" exactly when there is at most one post; otherwise the cards of the slice |
| `LatestPosts.CardClick` | src/components/LatestPosts.tsx:75 | card i opens post i+1 of the list |
| `LatestPosts.ViewAll` | src/components/LatestPosts.tsx:146 | one navigation to `all-posts` with no payload |
| `LatestPosts.DraftsAreNotFiltered` | src/components/LatestPosts.tsx:36-37 | every post at positions 1 to 6 is shown, drafts included |
| `LatestPosts.FeaturedNotRepeated` | src/components/LatestPosts.tsx:37 | with unique ids and a published first post, the featured post is the first one and is not in the grid |
| `LatestPosts.FeaturedRepeatedAfterLeadingDraft` | src/components/LatestPosts.tsx:36-37 | when drafts come before a published post at positions 1 to 6, that post is featured and also in the grid |
| `Header.IsActive` | src/components/Header.tsx:43 | a link is highlighted exactly when its page is the current page, the same test as in the mobile menu (line 108); `AtMostOneActive` bounds how many are |
| `Header.CountActive` | src/components/Header.tsx:43 | no link is highlighted exactly when none has the current page |
| `Header.AtMostOneActive` | src/components/Header.tsx:108 | links with distinct pages highlight at most one link |
| `Header.NavItemsHighlightOne` | src/components/Header.tsx:15-19 | the header's three links highlight at most one link |
| `Header.HeaderBar.constructor` | src/components/Header.tsx:12-13 | menu closed, empty search, no navigation sent |
| `Header.HeaderBar.MobileMenuShown` | src/components/Header.tsx:87 | the mobile menu is shown exactly while `isMenuOpen` holds; `ToggleMenu` flips it and `MobileNavClick` hides it |
| `Header.HeaderBar.LogoClick` | src/components/Header.tsx:28 | appends one navigation to `home` |
| `Header.HeaderBar.DesktopNavClick` | src/components/Header.tsx:41 | appends one navigation to the link's page and leaves the menu flag as it was |
| `Header.HeaderBar.MobileNavClick` | src/components/Header.tsx:103-106 | appends one navigation to the link's page and closes the menu, so the mobile menu is hidden |
| `Header.HeaderBar.ToggleMenu` | src/components/Header.tsx:76 | only the menu flag is negated, so the mobile menu's visibility flips |
| `Header.HeaderBar.EditSearch` | src/components/Header.tsx:60 | only the query changes; no navigation, and the menu flag is kept (also line 96) |
| `Header.ToggleMenuTwice` | src/components/Header.tsx:76 | two clicks on the menu button restore the header state |

## Left out

- Rendering. This covers JSX, CSS classes, icons, `ImageWithFallback`, and the Tabs, Card, Avatar and AlertDialog library components. It also covers the analytics, users and settings placeholder tabs and the "Popular Posts" preview (`posts.slice(0, 3)`). None of these hold logic.
- The Total Views card (AdminDashboard.tsx:111-114, 140). It needs `parseFloat` and `toFixed`, which are floating point. As written, it removes a "K" and multiplies every post's number by 1000, so "250" counts as 250000.
- The "change" percentages on the statistics cards. They are constant strings.
- The random like count next to the heart button (BlogPost.tsx:163). It is drawn from `Math.random()` on every render.
- The clock. The new comment's id (`Date.now()`) and date (`new Date()`) are parameters of `AddComment`. Date formatting with `toLocaleDateString` is left out.
- The `alert` shown when login fails. `Login` returns `false` and changes nothing.
- The browser's `required` check on the two login fields. `Login` is modelled for any submission. With an empty field it fails anyway, because both fixed credentials are non-empty.
- Whether the dialog library calls `onOpenChange` after the Delete button. Closing the dialog is modelled as its own handler, `DismissDelete`.
- What the parent does with a request. Creating, updating and deleting posts, assigning ids and `views`, the page router and the post form are in the App and PostForm components, which are not part of this model. Only the requests these components send are modelled.
- The type of `onUpdatePost`. It accepts a `Partial<Post>`. The save handler always passes the full form data, and the model sends exactly that.
- Liking a comment. The heart button under a comment has no handler.
- Footer.tsx and Categories.tsx. They are static link tables. Categories opens `navigate('category', id)`; the footer's category links navigate to `category` without an id.
- Text.ToLower: only the ASCII letters A-Z are lowered. JavaScript's `toLowerCase` also lowers other Unicode letters.
- UTF-16 encoding. Strings are sequences of Unicode characters, while JavaScript strings are sequences of UTF-16 code units. So `n[0]` on a name piece that starts with a character outside the Basic Multilingual Plane gives the whole character here, but only its first surrogate in JavaScript.
