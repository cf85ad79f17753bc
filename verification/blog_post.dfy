/** The article page: the comment list with its draft box, the like and
    bookmark toggles, and the author's display name, handle and initials. */
module BlogPost {
  import opened Posts
  import opened Intents
  import opened Text

  // ---------------------------------------------------------------------------
  // Author derivations

  /** The name shown for the author: the post's author, or "Anonymous". */
  function DisplayName(author: string): (r: string)
    ensures r != []
    ensures author != [] ==> r == author
    ensures author == [] ==> r == "Anonymous"
  {
    if author == "" then "Anonymous" else author
  }

  /** The handle under the name: "@" and the lower-cased author (or
      "anonymous"), with its first space taken out. */
  function Handle(author: string): (r: string)
    ensures |r| >= 1 && r[0] == '@'
  {
    "@" + RemoveFirst(ToLower(if author == "" then "anonymous" else author), ' ')
  }

  /** The handle is the display name, lower-cased, with the first space removed. */
  lemma HandleOfDisplayName(author: string)
    ensures Handle(author) == "@" + RemoveFirst(ToLower(DisplayName(author)), ' ')
  {
    if author == "" {
      LowerAnonymous();
    }
  }

  lemma LowerAnonymous()
    ensures ToLower("Anonymous") == "anonymous"
  {
    var name := "Anonymous";
    var lower := ToLower(name);
    assert lower[0] == 'a';
    assert lower[1..] == name[1..] by {
      forall k | 1 <= k < |name|
        ensures lower[k] == name[k]
      {
        assert !('A' <= name[k] <= 'Z');
      }
    }
    assert lower == [lower[0]] + lower[1..];
  }

  /** Only the first space goes: the handle is one character shorter than the
      lower-cased name when the name has a space, and keeps every other
      character in place. */
  lemma HandleDropsFirstSpace(author: string, i: nat)
    requires var name := DisplayName(author); i < |name| && name[i] == ' ' && forall k :: 0 <= k < i ==> name[k] != ' '
    ensures var lower := ToLower(DisplayName(author));
      Handle(author) == "@" + lower[..i] + lower[i + 1..]
  {
    HandleOfDisplayName(author);
    var lower := ToLower(DisplayName(author));
    RemoveFirstAt(lower, ' ', i);
  }

  /** A handle contains no upper-case ASCII letter. */
  lemma HandleIsLowerCase(author: string)
    ensures IsLowerCase(Handle(author))
  {
    var lower := ToLower(if author == "" then "anonymous" else author);
    LowerStaysLower(lower, ' ');
  }

  lemma {:induction false} LowerStaysLower(s: string, c: char)
    requires IsLowerCase(s)
    ensures IsLowerCase(RemoveFirst(s, c))
  {
    if s != [] && s[0] != c {
      LowerStaysLower(s[1..], c);
      assert RemoveFirst(s, c) == [s[0]] + RemoveFirst(s[1..], c);
    }
  }

  /** The first character of a name piece; an empty piece gives nothing
      (`undefined` joins as the empty string). */
  function FirstChar(piece: string): string
  {
    if piece == "" then "" else [piece[0]]
  }

  function FirstChars(pieces: seq<string>): string
  {
    if pieces == [] then "" else FirstChar(pieces[0]) + FirstChars(pieces[1..])
  }

  /** `name.split(' ').map(n => n[0]).join('')`: the avatar fallback. It is
      exactly the first letters of the space-separated words. */
  function Initials(name: string): (r: string)
    ensures r == WordStarts(name, true)
  {
    FirstCharsOfSplit(name);
    FirstChars(Split(name, ' '))
  }

  /** Reference definition of the initials: scanning left to right, every
      non-space character that starts the string or follows a space. */
  function WordStarts(s: string, atStart: bool): string
  {
    if s == [] then ""
    else if s[0] == ' ' then WordStarts(s[1..], true)
    else (if atStart then [s[0]] else "") + WordStarts(s[1..], false)
  }

  lemma {:induction false} FirstCharsOfSplit(s: string)
    ensures FirstChars(Split(s, ' ')) == WordStarts(s, true)
    ensures FirstChars(Split(s, ' ')[1..]) == WordStarts(s, false)
  {
    if s != [] {
      FirstCharsOfSplit(s[1..]);
      var rest := Split(s[1..], ' ');
      if s[0] == ' ' {
        assert Split(s, ' ') == [""] + rest;
        assert ([""] + rest)[1..] == rest;
      } else {
        var first := [s[0]] + rest[0];
        assert Split(s, ' ') == [first] + rest[1..];
        assert ([first] + rest[1..])[1..] == rest[1..];
      }
    }
  }

  lemma {:induction false} WordStartsBounds(s: string, atStart: bool)
    ensures |WordStarts(s, atStart)| <= |s|
    ensures ' ' !in WordStarts(s, atStart)
    ensures forall c :: c in WordStarts(s, atStart) ==> c in s
  {
    if s != [] {
      WordStartsBounds(s[1..], atStart || s[0] == ' ');
      WordStartsBounds(s[1..], s[0] == ' ');
      assert forall c :: c in s[1..] ==> c in s;
    }
  }

  /** The initials are never longer than the name, contain no space and use
      only characters of the name. */
  lemma InitialsBounds(name: string)
    ensures |Initials(name)| <= |name|
    ensures ' ' !in Initials(name)
    ensures forall c :: c in Initials(name) ==> c in name
  {
    WordStartsBounds(name, true);
  }

  // ---------------------------------------------------------------------------
  // Comments

  datatype Comment = Comment(id: string, author: string, avatar: string, content: string, date: string, likes: nat)

  const PlaceholderAvatar: string := "/api/placeholder/40/40"

  /** The two comments every article page starts with. */
  const SeededComments: seq<Comment> := [
    Comment("1", "Alex Thompson", PlaceholderAvatar,
      "Fascinating insights! The section on neural networks was particularly enlightening. Thank you for breaking down such complex concepts.",
      "2025-01-15", 12),
    Comment("2", "Sophia Martinez", PlaceholderAvatar,
      "Great article! I've been following AI developments closely, and your perspective on the future implications is spot on.",
      "2025-01-15", 8)
  ]

  /** The comment the reader's draft becomes; the id and date come from the clock. */
  function NewComment(draft: string, id: string, date: string): (c: Comment)
    ensures c.author == "You" && c.likes == 0 && c.content == draft
  {
    Comment(id, "You", PlaceholderAvatar, draft, date, 0)
  }

  datatype State = State(
    isLiked: bool,
    isBookmarked: bool,
    draft: string,
    comments: seq<Comment>,
    intents: seq<Intent>)

  class BlogPostPage {
    const post: Post
    var isLiked: bool
    var isBookmarked: bool
    /** The text in the comment box (`comment` in the component). */
    var draft: string
    var comments: seq<Comment>
    /** The calls made to `onNavigate`, oldest first. */
    var intents: seq<Intent>

    function Snapshot(): State
      reads this
    {
      State(isLiked, isBookmarked, draft, comments, intents)
    }

    constructor (post: Post)
      ensures this.post == post
      ensures Snapshot() == State(false, false, "", SeededComments, [])
    {
      this.post := post;
      isLiked := false;
      isBookmarked := false;
      draft := "";
      comments := SeededComments;
      intents := [];
    }

    /** The Post Comment button is disabled exactly when the draft is made of
        whitespace only (`!comment.trim()`). */
    predicate PostCommentDisabled()
      reads this
      ensures PostCommentDisabled() <==> AllWhitespace(draft)
    {
      IsBlank(draft)
    }

    method EditDraft(text: string)
      modifies this
      ensures Snapshot() == old(Snapshot()).(draft := text)
    {
      draft := text;
    }

    /** Post Comment: a blank draft changes nothing; otherwise the untrimmed
        draft is appended as a new comment and the box is emptied. */
    method AddComment(id: string, date: string)
      modifies this
      ensures old(PostCommentDisabled()) ==> Snapshot() == old(Snapshot())
      ensures !old(PostCommentDisabled()) ==>
        Snapshot() == old(Snapshot()).(comments := old(comments) + [NewComment(old(draft), id, date)], draft := "")
    {
      if Trim(draft) != "" {
        comments := comments + [NewComment(draft, id, date)];
        draft := "";
      }
    }

    method ToggleLike()
      modifies this
      ensures Snapshot() == old(Snapshot()).(isLiked := !old(isLiked))
    {
      isLiked := !isLiked;
    }

    method ToggleBookmark()
      modifies this
      ensures Snapshot() == old(Snapshot()).(isBookmarked := !old(isBookmarked))
    {
      isBookmarked := !isBookmarked;
    }

    /** "Back to Home". */
    method BackToHome()
      modifies this
      ensures Snapshot() == old(Snapshot()).(intents := old(intents) + [GoTo("home")])
    {
      intents := intents + [GoTo("home")];
    }
  }

  // ---------------------------------------------------------------------------
  // Sequences of handler calls

  /** Two clicks on the heart, or on the bookmark, restore the page. */
  method ToggleTwice(page: BlogPostPage, bookmark: bool)
    modifies page
    ensures page.Snapshot() == old(page.Snapshot())
  {
    if bookmark {
      page.ToggleBookmark();
      page.ToggleBookmark();
    } else {
      page.ToggleLike();
      page.ToggleLike();
    }
  }

  /** Typing a comment made only of whitespace and posting it leaves the
      comment list as it was. */
  method PostWhitespace(page: BlogPostPage, text: string, id: string, date: string)
    requires AllWhitespace(text)
    modifies page
    ensures page.comments == old(page.comments)
    ensures page.draft == text
  {
    page.EditDraft(text);
    page.AddComment(id, date);
  }
}
