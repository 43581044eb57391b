/** The detail page (blog-frontend/src/pages/BlogDetails.js): the route id
    guard, the third post normaliser, the share links and the comment list
    kept in the browser's storage. */
module BlogDetails {
  import opened Js
  import opened Storage
  import Home
  import AdminDashboard
  import Session

  const InvalidId := "Invalid post ID"
  const NotFoundText := "Post not found"
  const UnknownAuthor := "Unknown"

  // ---------------------------------------------------------------------
  // The normaliser
  // ---------------------------------------------------------------------

  /** `categories.map((c) => (typeof c === "string" ? c : c.name))`; reading
      `.name` of a null entry throws. */
  function CategoryLabels(items: seq<Json>): Result<seq<Json>> {
    if items == [] then Ok([])
    else if Nullish(items[0]) then Fail(TypeError)
    else
      var rest :- CategoryLabels(items[1..]);
      Ok([if items[0].Str? then items[0] else Member(items[0], "name")] + rest)
  }

  /** The labels keep the length and order of the array: a string entry is
      its own label, any other entry contributes its `name`; the map throws
      exactly when some entry is null or undefined. */
  lemma {:induction false} CategoryLabelsSpec(items: seq<Json>)
    ensures CategoryLabels(items).Fail? <==> exists i :: 0 <= i < |items| && Nullish(items[i])
    ensures CategoryLabels(items).Ok? ==>
              var r := CategoryLabels(items).value;
              && |r| == |items|
              && forall i :: 0 <= i < |items| ==>
                   (items[i].Str? ==> r[i] == items[i]) && (!items[i].Str? ==> r[i] == Member(items[i], "name"))
  {
    if items != [] {
      var tail := items[1..];
      CategoryLabelsSpec(tail);
      if exists i :: 0 <= i < |items| && Nullish(items[i]) {
        var i :| 0 <= i < |items| && Nullish(items[i]);
        if i > 0 { assert tail[i - 1] == items[i]; }
      }
      if CategoryLabels(tail).Fail? {
        var i :| 0 <= i < |tail| && Nullish(tail[i]);
        assert Nullish(items[i + 1]);
      } else if !Nullish(items[0]) {
        var rest := CategoryLabels(tail).value;
        var r := CategoryLabels(items).value;
        forall i | 0 <= i < |items|
          ensures (items[i].Str? ==> r[i] == items[i]) && (!items[i].Str? ==> r[i] == Member(items[i], "name"))
        {
          if i > 0 { assert r[i] == rest[i - 1] && items[i] == tail[i - 1]; }
        }
      }
    }
  }

  /** The post as the detail page shows it. `publishDate` is the locale
      date text, or "". */
  datatype Detail = Detail(
    id: Json,
    title: Json,
    content: Json,
    categories: seq<Json>,
    imageUrl: Json,
    publishDate: string,
    author: Json)

  /** The argument of `setPost`: `localeDate` stands for `new
      Date(d).toLocaleDateString()`; reading a field of a null body throws.
      The title rule is the listing's. */
  function Normalize(data: Json, localeDate: Json -> string): Result<Detail> {
    if Nullish(data) then Fail(TypeError)
    else
      var cs := Member(data, "categories");
      var labels :- (if cs.Arr? then CategoryLabels(cs.items) else Ok([]));
      var d := Member(data, "publishDate");
      Ok(Detail(Or(Member(data, "id"), Member(data, "_id")),
                Home.LooseTitle(Member(data, "title")),
                Or(Member(data, "content"), Str("")),
                labels,
                Or(Member(data, "imageUrl"), Str("")),
                if Truthy(d) then localeDate(d) else "",
                Or(Member(Member(data, "author"), "name"), Str(UnknownAuthor))))
  }

  /** The detail record: the id is `id` when truthy and `_id` otherwise; the
      title is `title.en` when truthy, else the raw title when truthy, else
      "Untitled"; content and image default to ""; an array of categories
      gives one label per entry and anything else gives none; the author is
      `author.name` when truthy and "Unknown" otherwise; a missing date
      shows as "". */
  lemma NormalizeSpec(data: Json, localeDate: Json -> string)
    requires Normalize(data, localeDate).Ok?
    ensures var p := Normalize(data, localeDate).value;
            var cs := Member(data, "categories");
            && (Truthy(Member(data, "id")) ==> p.id == Member(data, "id"))
            && (!Truthy(Member(data, "id")) ==> p.id == Member(data, "_id"))
            && p.title == Home.LooseTitle(Member(data, "title"))
            && Truthy(p.title)
            && (Truthy(Member(Member(data, "title"), "en")) ==> p.title == Member(Member(data, "title"), "en"))
            && (Truthy(Member(data, "content")) ==> p.content == Member(data, "content"))
            && (!Truthy(Member(data, "content")) ==> p.content == Str(""))
            && (Truthy(Member(data, "imageUrl")) ==> p.imageUrl == Member(data, "imageUrl"))
            && (!Truthy(Member(data, "imageUrl")) ==> p.imageUrl == Str(""))
            && (!cs.Arr? ==> p.categories == [])
            && (cs.Arr? ==> CategoryLabels(cs.items) == Ok(p.categories) && |p.categories| == |cs.items|)
            && (!Truthy(Member(data, "publishDate")) ==> p.publishDate == "")
            && Truthy(p.author)
            && (Truthy(Member(Member(data, "author"), "name")) ==> p.author == Member(Member(data, "author"), "name"))
            && (!Truthy(Member(Member(data, "author"), "name")) ==> p.author == Str(UnknownAuthor))
  {
    var cs := Member(data, "categories");
    if cs.Arr? { CategoryLabelsSpec(cs.items); }
  }

  /** Normalising throws exactly on a null body or an array of categories
      holding a null entry; a non-array `categories` is never read. */
  lemma NormalizeFails(data: Json, localeDate: Json -> string)
    ensures Normalize(data, localeDate).Fail? <==>
              || Nullish(data)
              || (Member(data, "categories").Arr? &&
                  exists i :: 0 <= i < |Member(data, "categories").items| && Nullish(Member(data, "categories").items[i]))
  {
    var cs := Member(data, "categories");
    if cs.Arr? { CategoryLabelsSpec(cs.items); }
  }

  /** A plain-string author has no `name`, so it shows as "Unknown". */
  lemma StringAuthorIsUnknown(data: Json, localeDate: Json -> string)
    requires Normalize(data, localeDate).Ok? && Member(data, "author").Str?
    ensures Normalize(data, localeDate).value.author == Str(UnknownAuthor)
  {
  }

  /** The three normalisers read the id differently. For a post whose `id`
      is "" and whose `_id` is "42": the detail page falls back to `_id`,
      the admin list (`??`) keeps the empty `id` and drops the post, and the
      listing card takes `_id` only. */
  lemma IdRulesDiffer(localeDate: Json -> string)
    ensures var post := Obj([("id", Str("")), ("_id", Str("42"))]);
            && Normalize(post, localeDate).Ok?
            && Normalize(post, localeDate).value.id == Str("42")
            && AdminDashboard.FormatPost(post) == Ok(None)
            && Home.Normalize(post).Ok? && Home.Normalize(post).value.id == Str("42")
  {
  }

  // ---------------------------------------------------------------------
  // The page
  // ---------------------------------------------------------------------

  /** How the fetch of the post ends: its JSON body, an error status, a
      rejection with this message (network failure or a body that is not
      JSON), or an abort when the page goes away. */
  datatype Fetch = Found(data: Json) | NotOk | Rejected(message: string) | Aborted

  /** What the page renders. */
  datatype View = Spinner | ErrorView(message: string) | Unavailable | Article(post: Detail)

  class DetailsPage {
    var post: Option<Detail>
    var loadingPost: bool
    var error: string

    constructor ()
      ensures post == None && loadingPost && error == ""
    {
      post, loadingPost, error := None, true, "";
    }

    /** The render: the spinner while loading, else the error, else "Post
        not available" without a post, else the article. */
    function View(): View
      reads this
    {
      if loadingPost then Spinner
      else if error != "" then ErrorView(error)
      else if post.None? then Unavailable
      else Article(post.value)
    }

    /** The start of the fetch effect: a missing or empty route id sets the
        error and stops loading without any request; otherwise the request
        for that id goes out (`fetchId`). */
    method Start(routeId: Option<string>) returns (fetchId: Option<string>)
      modifies this`error, this`loadingPost
      ensures routeId == None || routeId == Some("") ==>
                fetchId == None && error == InvalidId && !loadingPost && View() == ErrorView(InvalidId)
      ensures routeId.Some? && routeId.value != "" ==>
                fetchId == routeId && error == old(error) && loadingPost == old(loadingPost)
    {
      if routeId == None || routeId.value == "" {
        error := InvalidId;
        loadingPost := false;
        return None;
      }
      fetchId := routeId;
    }

    /** The rest of the fetch effect. `typeErrorMessage` is the engine's text
        for a TypeError thrown while normalising; an abort leaves the error
        alone. */
    method Settle(response: Fetch, localeDate: Json -> string, typeErrorMessage: string)
      modifies this`post, this`error, this`loadingPost
      ensures !loadingPost
      ensures response.Found? && Normalize(response.data, localeDate).Ok? ==>
                post == Some(Normalize(response.data, localeDate).value) && error == old(error)
      ensures response.Found? && Normalize(response.data, localeDate).Fail? ==>
                post == old(post) && error == typeErrorMessage
      ensures response.NotOk? ==> post == old(post) && error == NotFoundText
      ensures response.Rejected? ==> post == old(post) && error == response.message
      ensures response.Aborted? ==> post == old(post) && error == old(error)
    {
      match response {
        case Found(data) =>
          var normalized := Normalize(data, localeDate);
          if normalized.Ok? {
            post := Some(normalized.value);
          } else {
            error := typeErrorMessage;
          }
        case NotOk =>
          error := NotFoundText;
        case Rejected(m) =>
          error := m;
        case Aborted =>
      }
      loadingPost := false;
    }
  }

  // ---------------------------------------------------------------------
  // Share links
  // ---------------------------------------------------------------------

  const ShareNames := ["Facebook", "Twitter", "WhatsApp", "LinkedIn"]

  /** The `shareLinks` memo as its entries in order: `encode` stands for
      `encodeURIComponent`, which converts the title to a string first, and
      `href` for `window.location.href`. */
  function ShareLinks(post: Option<Detail>, href: string, encode: string -> string): seq<(string, string)> {
    if post.None? then []
    else
      var pageUrl := encode(href);
      var title := encode(ToStr(post.value.title));
      [("Facebook", "https://facebook.com/sharer/sharer.php?u=" + pageUrl),
       ("Twitter", "https://twitter.com/intent/tweet?text=" + title + "&url=" + pageUrl),
       ("WhatsApp", "https://wa.me/?text=" + title + "%20" + pageUrl),
       ("LinkedIn", "https://www.linkedin.com/sharing/share-offsite/?url=" + pageUrl)]
  }

  function KeysOf(links: seq<(string, string)>): (r: seq<string>)
    ensures |r| == |links|
    ensures forall k :: 0 <= k < |links| ==> r[k] == links[k].0
  {
    seq(|links|, k requires 0 <= k < |links| => links[k].0)
  }

  predicate EndsWith(s: string, suffix: string) {
    |suffix| <= |s| && s[|s| - |suffix|..] == suffix
  }

  /** Without a post there are no links; with one there are exactly the four
      services, in order, and every link ends with the encoded page URL. */
  lemma ShareLinksSpec(post: Option<Detail>, href: string, encode: string -> string)
    ensures post.None? ==> ShareLinks(post, href, encode) == []
    ensures post.Some? ==>
              var links := ShareLinks(post, href, encode);
              && KeysOf(links) == ShareNames
              && forall k :: 0 <= k < |links| ==> EndsWith(links[k].1, encode(href))
  {
    if post.Some? {
      var links := ShareLinks(post, href, encode);
      assert KeysOf(links) == ShareNames;
      var u := encode(href);
      forall k | 0 <= k < |links| ensures EndsWith(links[k].1, u) {
        var v := links[k].1;
        var head := v[..|v| - |u|];
        assert v == head + u;
      }
    }
  }

  // ---------------------------------------------------------------------
  // Comments
  // ---------------------------------------------------------------------

  datatype Comment = Comment(id: nat, name: string, text: string, date: string)

  /** The storage key `comments_${postId}`. */
  function CommentKey(postId: Json): string {
    "comments_" + ToStr(postId)
  }

  /** Different string ids have different keys, and no key is the admin
      flag. */
  lemma CommentKeySpec(a: string, b: string, postId: Json)
    ensures CommentKey(Str(a)) == CommentKey(Str(b)) ==> a == b
    ensures CommentKey(postId) != Session.AdminKey
  {
    if CommentKey(Str(a)) == CommentKey(Str(b)) {
      assert a == CommentKey(Str(a))[9..];
      assert b == CommentKey(Str(b))[9..];
    }
    assert CommentKey(postId)[0] == 'c' != Session.AdminKey[0];
  }

  /** Every post without an id shares one key. */
  lemma IdlessPostsShareKey()
    ensures CommentKey(Undefined) == "comments_undefined"
  {
  }

  class CommentsSection {
    const postId: Json
    var comments: seq<Comment>
    var name: string
    var text: string

    constructor (postId: Json)
      ensures this.postId == postId && comments == [] && name == "" && text == ""
    {
      this.postId := postId;
      comments, name, text := [], "", "";
    }

    method SetName(value: string)
      modifies this`name
      ensures name == value
    {
      name := value;
    }

    method SetText(value: string)
      modifies this`text
      ensures text == value
    {
      text := value;
    }

    /** The first effect: a truthy saved string under the post's key
        replaces the list (`parse` stands for `JSON.parse`). */
    method Restore(storage: LocalStorage, parse: string -> seq<Comment>)
      modifies this`comments
      ensures var saved := storage.GetItem(CommentKey(postId));
              && (saved.Some? && saved.value != "" ==> comments == parse(saved.value))
              && (!(saved.Some? && saved.value != "") ==> comments == old(comments))
    {
      var saved := storage.GetItem(CommentKey(postId));
      if saved.Some? && saved.value != "" {
        comments := parse(saved.value);
      }
    }

    /** The second effect: the list is written under the post's key and
        nothing else in the storage changes (`serialize` stands for
        `JSON.stringify`). */
    method Persist(storage: LocalStorage, serialize: seq<Comment> -> string)
      modifies storage
      ensures storage.items == old(storage.items)[CommentKey(postId) := serialize(comments)]
      ensures Session.IsAdmin(storage.items) == Session.IsAdmin(old(storage.items))
    {
      CommentKeySpec("", "", postId);
      storage.SetItem(CommentKey(postId), serialize(comments));
    }

    /** `addComment`: `now` is `Date.now()` and `localeNow` the locale text
        of the current time. A name or text of white space only changes
        nothing; otherwise the comment, with name and text as typed, goes in
        front of the list and both inputs are cleared. */
    method AddComment(now: nat, localeNow: string)
      modifies this`comments, this`name, this`text
      ensures AllSpace(old(name)) || AllSpace(old(text)) ==>
                comments == old(comments) && name == old(name) && text == old(text)
      ensures !AllSpace(old(name)) && !AllSpace(old(text)) ==>
                && comments == [Comment(now, old(name), old(text), localeNow)] + old(comments)
                && |comments| == |old(comments)| + 1 && comments[1..] == old(comments)
                && name == "" && text == ""
    {
      TrimEmptyIff(name);
      TrimEmptyIff(text);
      if Trim(name) == "" || Trim(text) == "" {
        return;
      }
      var comment := Comment(now, name, text, localeNow);
      comments := [comment] + comments;
      name := "";
      text := "";
    }
  }
}
