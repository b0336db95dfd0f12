/** The page shaping of the platform client: which URL a page request goes to,
    which children of a listing become posts, and how a post's comments decide
    whether a loan was given. The HTTP exchange is replaced by two response
    functions from URL to decoded reply; authentication and the rate limiter
    are not part of this model. */
module Reddit {
  import opened Wrappers
  import opened Text
  import opened Classifier

  const API_BASE := "https://oauth.reddit.com"

  /** The page size the platform enforces. */
  const MAX_PAGE_SIZE := 100

  /** The author the platform shows for a deleted account. */
  const DELETED_AUTHOR := "[deleted]"

  /** One child of a `/new` listing: the fields the client reads from `data`. */
  datatype Child = Child(id: string, title: string, created: int, numComments: int, author: string)

  /** The `data` of a `/new` reply: `after` is null on the last page. */
  datatype Listing = Listing(after: Option<string>, children: seq<Child>)

  /** One child of the comment listing: a comment, or the `more` stub that
      stands for further comments and carries no body. */
  datatype CommentChild = Comment(body: string) | More

  /** `min(limit, 100)`: larger limits are cut down, smaller ones are passed on unchanged. */
  function PageSize(limit: int): (c: int)
    ensures c <= MAX_PAGE_SIZE
    ensures limit <= MAX_PAGE_SIZE ==> c == limit
    ensures limit > MAX_PAGE_SIZE ==> c == MAX_PAGE_SIZE
  {
    if limit < MAX_PAGE_SIZE then limit else MAX_PAGE_SIZE
  }

  /** How a cursor is written into the URL: a null cursor is formatted as `None`. */
  function CursorText(nextPage: Option<string>): string {
    match nextPage
    case None => "None"
    case Some(s) => s
  }

  function PageBaseUrl(sr: string, c: int): string {
    API_BASE + "/r/" + sr + "/new/?limit=" + IntText(c)
  }

  /** Only the empty string selects the first page; every other cursor,
      including a null one, is appended as `&after=`. */
  function NewestPostsUrl(sr: string, nextPage: Option<string>, c: int): string {
    if nextPage == Some("") then PageBaseUrl(sr, c)
    else PageBaseUrl(sr, c) + "&after=" + CursorText(nextPage)
  }

  /** The URL tells the cursor apart, except that a null cursor and the
      string `None` ask for the same page. */
  lemma {:induction false} NewestPostsUrlDeterminesCursor(sr: string, c: int, a: Option<string>, b: Option<string>)
    requires NewestPostsUrl(sr, a, c) == NewestPostsUrl(sr, b, c)
    ensures CursorText(a) == CursorText(b)
    ensures a == b || {a, b} == {None, Some("None")}
  {
    var base := PageBaseUrl(sr, c);
    if a == Some("") || b == Some("") {
      assert |NewestPostsUrl(sr, a, c)| == |base| <==> a == Some("");
      assert |NewestPostsUrl(sr, b, c)| == |base| <==> b == Some("");
    } else {
      var prefix := base + "&after=";
      assert NewestPostsUrl(sr, a, c) == prefix + CursorText(a);
      assert NewestPostsUrl(sr, b, c) == prefix + CursorText(b);
      assert CursorText(a) == (prefix + CursorText(a))[|prefix|..];
      assert CursorText(b) == (prefix + CursorText(b))[|prefix|..];
    }
  }

  function CommentsUrl(sr: string, id: string): string {
    API_BASE + "/r/" + sr + "/comments/" + id
  }

  /** The children kept as posts: those whose author was not deleted, in listing order. */
  function Kept(children: seq<Child>): (kept: seq<Child>)
    ensures |kept| <= |children|
    decreases |children|
  {
    if |children| == 0 then []
    else if children[0].author != DELETED_AUTHOR then [children[0]] + Kept(children[1..])
    else Kept(children[1..])
  }

  /** Exactly the children with a live author are kept. */
  lemma {:induction false} KeptMembers(children: seq<Child>)
    ensures forall c :: c in Kept(children) <==> c in children && c.author != DELETED_AUTHOR
    decreases |children|
  {
    if |children| > 0 {
      KeptMembers(children[1..]);
      assert children == [children[0]] + children[1..];
    }
  }

  /** The record one child classifies to. */
  function ChildRecord(c: Child): PostRecord {
    Classify(c.id, c.title, c.created, c.numComments)
  }

  /** The records the kept children classify to, in listing order. */
  function PageRecords(children: seq<Child>): (rows: seq<PostRecord>)
    decreases |children|
  {
    if |children| == 0 then []
    else
      var last := children[|children| - 1];
      PageRecords(children[..|children| - 1]) + (if last.author != DELETED_AUTHOR then [ChildRecord(last)] else [])
  }

  /** There is one record per kept child, and each record is the
      classification of the kept child at the same place. */
  lemma {:induction false} PageRecordsClassifyKept(children: seq<Child>)
    ensures |PageRecords(children)| == |Kept(children)|
    ensures forall i :: 0 <= i < |PageRecords(children)| ==>
      PageRecords(children)[i] == ChildRecord(Kept(children)[i])
    decreases |children|
  {
    if |children| > 0 {
      var n := |children| - 1;
      PageRecordsClassifyKept(children[..n]);
      KeptConcat(children[..n], [children[n]]);
      assert children[..n] + [children[n]] == children;
      assert [children[n]][1..] == [];
    }
  }

  /** A comment that mentions a loan: `$LOAN` anywhere in the upper-cased body. */
  predicate MentionsLoan(body: string) {
    Contains(Upper(body), "$LOAN")
  }

  /** The five characters of `body` at `i` spell `$loan` in some letter case. */
  predicate SpellsLoanAt(body: string, i: nat) {
    i + 5 <= |body| && Upper(body[i..i + 5]) == "$LOAN"
  }

  /** A body mentions a loan exactly when some five of its characters spell
      `$loan` in any mix of letter case. */
  lemma {:induction false} MentionsLoanIgnoresCase(body: string)
    ensures MentionsLoan(body) <==> exists i :: SpellsLoanAt(body, i)
  {
    var up := Upper(body);
    ContainsIsSubstring(up, "$LOAN");
    if MentionsLoan(body) {
      var k: nat :| SliceAt(up, "$LOAN", k);
      assert up[k..k + 5] == Upper(body[k..k + 5]);
      assert SpellsLoanAt(body, k);
    } else {
      forall i: nat | SpellsLoanAt(body, i) ensures false {
        assert up[i..i + 5] == Upper(body[i..i + 5]);
        assert SliceAt(up, "$LOAN", i);
      }
    }
  }

  class APITool {
    /** The decoded `data` of the reply to a `/new` request, by URL. */
    const listingAt: string -> Listing
    /** The children of the second listing of the reply to a comments request, by URL. */
    const commentsAt: string -> seq<CommentChild>

    constructor (listingAt: string -> Listing, commentsAt: string -> seq<CommentChild>)
      ensures this.listingAt == listingAt && this.commentsAt == commentsAt
    {
      this.listingAt := listingAt;
      this.commentsAt := commentsAt;
    }

    /** One page of the newest posts: the request goes to the URL the cursor
        selects, every kept child becomes a new `Post`, and the reply's own
        cursor is handed back for the next page. */
    method GetNewestPosts(sr: string, nextPage: Option<string>, limit: int) returns (posts: seq<Post>, after: Option<string>)
      ensures var reply := listingAt(NewestPostsUrl(sr, nextPage, PageSize(limit)));
        && after == reply.after
        && Records(posts) == PageRecords(reply.children)
      ensures forall i :: 0 <= i < |posts| ==> fresh(posts[i])
    {
      var c := if limit < MAX_PAGE_SIZE then limit else MAX_PAGE_SIZE;
      var response;
      if nextPage == Some("") {
        response := listingAt(API_BASE + "/r/" + sr + "/new/?limit=" + IntText(c));
      } else {
        response := listingAt(API_BASE + "/r/" + sr + "/new/?limit=" + IntText(c) + "&after=" + CursorText(nextPage));
      }
      after := response.after;
      posts := PostsOf(response.children);
    }

    /** The loop over the children of one reply. */
    static method PostsOf(children: seq<Child>) returns (posts: seq<Post>)
      ensures Records(posts) == PageRecords(children)
      ensures forall i :: 0 <= i < |posts| ==> fresh(posts[i])
    {
      posts := [];
      ghost var rows: seq<PostRecord> := [];
      var i := 0;
      while i < |children|
        invariant 0 <= i <= |children|
        invariant rows == PageRecords(children[..i])
        invariant |posts| == |rows|
        invariant forall j :: 0 <= j < |posts| ==> fresh(posts[j]) && posts[j].Record() == rows[j]
      {
        var child := children[i];
        assert children[..i + 1][..i] == children[..i];
        if child.author != DELETED_AUTHOR {
          var p := NewPost(child);
          posts := posts + [p];
          rows := rows + [ChildRecord(child)];
        }
        i := i + 1;
      }
      assert children[..i] == children;
    }

    /** The post one kept child becomes. */
    static method NewPost(child: Child) returns (p: Post)
      ensures fresh(p) && p.Record() == ChildRecord(child)
    {
      p := new Post(child.id, child.title, child.created, child.numComments);
    }

    /** Whether any comment on the post mentions a loan. Comments are read in
        order and the first mention decides; reading a `more` stub before any
        mention fails, because it has no body (None). */
    method IsPostActive(sr: string, id: string) returns (active: Option<bool>)
      ensures var cs := commentsAt(CommentsUrl(sr, id));
        && (active == Some(true) <==>
            exists k :: 0 <= k < |cs| && cs[k].Comment? && MentionsLoan(cs[k].body) && PlainBefore(cs, k))
        && (active == Some(false) <==> PlainBefore(cs, |cs|))
        && (active == None <==> exists k :: 0 <= k < |cs| && cs[k].More? && PlainBefore(cs, k))
    {
      var response := commentsAt(API_BASE + "/r/" + sr + "/comments/" + id);
      var i := 0;
      while i < |response|
        invariant 0 <= i <= |response|
        invariant PlainBefore(response, i)
      {
        match response[i] {
          case More =>
            PlainBeforeUnique(response, i);
            return None;
          case Comment(body) =>
            if Contains(Upper(body), "$LOAN") {
              PlainBeforeUnique(response, i);
              return Some(true);
            }
        }
        i := i + 1;
      }
      PlainBeforeUnique(response, i);
      return Some(false);
    }
  }

  /** The first `k` children are comments that do not mention a loan. */
  predicate PlainBefore(cs: seq<CommentChild>, k: nat)
    requires k <= |cs|
  {
    forall j :: 0 <= j < k ==> cs[j].Comment? && !MentionsLoan(cs[j].body)
  }

  /** The child that ends the scan is the only one that can. */
  lemma {:induction false} PlainBeforeUnique(cs: seq<CommentChild>, k: nat)
    requires k <= |cs| && PlainBefore(cs, k)
    requires k < |cs| ==> cs[k].More? || MentionsLoan(cs[k].body)
    ensures forall m :: k < m <= |cs| ==> !PlainBefore(cs, m)
    ensures forall m :: 0 <= m < k ==> !(cs[m].More? || MentionsLoan(cs[m].body))
  {
    forall m | k < m <= |cs| ensures !PlainBefore(cs, m) {
      assert !(cs[k].Comment? && !MentionsLoan(cs[k].body));
    }
  }

  lemma {:induction false} KeptConcat(a: seq<Child>, b: seq<Child>)
    ensures Kept(a + b) == Kept(a) + Kept(b)
    decreases |a|
  {
    if |a| == 0 {
      assert a + b == b;
    } else {
      assert (a + b)[1..] == a[1..] + b;
      KeptConcat(a[1..], b);
    }
  }
}
