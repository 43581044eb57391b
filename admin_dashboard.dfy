/** The admin table (blog-frontend/src/pages/AdminDashboard.js): the fetched
    posts are normalised into table records (posts without a usable id are
    skipped), and a delete removes the row at once and puts the old list
    back if the server refuses. */
module AdminDashboard {
  import opened Js

  // ---------------------------------------------------------------------
  // Normalisation
  // ---------------------------------------------------------------------

  /** `post.id ?? post._id ?? null` */
  function RawId(post: Json): Json {
    Coalesce(Coalesce(Member(post, "id"), Member(post, "_id")), Null)
  }

  /** The title column: for an object(-like) title, `en`, else the first
      value, else "Untitled"; otherwise `String(title || "Untitled")`. */
  function AdminTitle(title: Json): Json {
    if IsObjectLike(title) then
      var values := Values(title);
      Or(Or(Member(title, "en"), if values == [] then Undefined else values[0]), Str("Untitled"))
    else
      Str(ToStr(Or(title, Str("Untitled"))))
  }

  /** `author?.name || author || "Unknown"` */
  function AdminAuthor(author: Json): Json {
    Or(Or(Member(author, "name"), author), Str("Unknown"))
  }

  /** The record of one post: the post's own fields, with `id`, `title`,
      `author` and `publishDate` replaced. */
  function Record(props: seq<(string, Json)>, id: Json): seq<(string, Json)> {
    var post := Obj(props);
    var r1 := SetProp(props, "id", Str(ToStr(id)));
    var r2 := SetProp(r1, "title", AdminTitle(Member(post, "title")));
    var r3 := SetProp(r2, "author", AdminAuthor(Member(post, "author")));
    SetProp(r3, "publishDate", Or(Member(post, "publishDate"), Null))
  }

  /** One step of `data.map(...)`: `null` for a post without a truthy id;
      reading `post.id` throws on a null post. */
  function FormatPost(post: Json): Result<Option<Json>> {
    if Nullish(post) then Fail(TypeError)
    else
      var id := RawId(post);
      if !Truthy(id) then Ok(None)
      else
        assert post.Obj?;
        Ok(Some(Obj(Record(post.props, id))))
  }

  /** `data.map(...).filter(Boolean)` */
  function FormatPosts(data: seq<Json>): Result<seq<Json>> {
    if data == [] then Ok([])
    else
      var head :- FormatPost(data[0]);
      var rest :- FormatPosts(data[1..]);
      Ok((if head.Some? then [head.value] else []) + rest)
  }

  /** A post has a usable id. */
  predicate HasId(post: Json) { Truthy(RawId(post)) }

  /** The reference list: the posts with a usable id, in their order. */
  function WithId(data: seq<Json>): seq<Json> {
    if data == [] then []
    else (if HasId(data[0]) then [data[0]] else []) + WithId(data[1..])
  }

  lemma {:induction false} WithIdSubseq(data: seq<Json>)
    ensures IsSubseq(WithId(data), data)
    ensures forall p :: p in WithId(data) <==> p in data && HasId(p)
  {
    if data != [] {
      WithIdSubseq(data[1..]);
      assert data == [data[0]] + data[1..];
      if HasId(data[0]) {
        SubseqCons(data[0], WithId(data[1..]), data[1..]);
      } else {
        assert WithId(data) == WithId(data[1..]);
        SubseqSkip(data[0], WithId(data[1..]), data[1..]);
      }
    }
  }

  /** Only an object can carry a truthy id. */
  lemma HasIdIsObject(post: Json)
    requires HasId(post)
    ensures post.Obj?
  {
  }

  /** The record a kept post becomes. */
  function RecordOf(post: Json): Json
    requires HasId(post)
  {
    Obj(Record(post.props, RawId(post)))
  }

  /** Normalising throws exactly when some post is null or undefined. */
  lemma {:induction false} FormatPostsFails(data: seq<Json>)
    ensures FormatPosts(data).Fail? <==> exists i :: 0 <= i < |data| && Nullish(data[i])
  {
    if data != [] {
      var tail := data[1..];
      FormatPostsFails(tail);
      if FormatPosts(tail).Fail? {
        var i :| 0 <= i < |tail| && Nullish(tail[i]);
        assert Nullish(data[i + 1]);
      }
      if exists i :: 0 <= i < |data| && Nullish(data[i]) {
        var i :| 0 <= i < |data| && Nullish(data[i]);
        if i > 0 { assert tail[i - 1] == data[i]; }
      }
    }
  }

  /** The admin list is the list of posts with a usable id, in order, each
      turned into its record; it is no longer than the input. */
  lemma {:induction false} FormatPostsSpec(data: seq<Json>)
    requires FormatPosts(data).Ok?
    ensures var kept := WithId(data);
            var r := FormatPosts(data).value;
            && |r| == |kept| <= |data|
            && IsSubseq(kept, data)
            && forall i :: 0 <= i < |r| ==> HasId(kept[i]) && r[i] == RecordOf(kept[i])
  {
    WithIdSubseq(data);
    IsSubseqLength(WithId(data), data);
    if data != [] {
      var tail := data[1..];
      FormatPostsSpec(tail);
      var rest := FormatPosts(tail).value;
      var r := FormatPosts(data).value;
      var kt := WithId(tail);
      if HasId(data[0]) {
        assert r == [RecordOf(data[0])] + rest;
        assert WithId(data) == [data[0]] + kt;
        forall i | 0 <= i < |r|
          ensures HasId(WithId(data)[i]) && r[i] == RecordOf(WithId(data)[i])
        {
          if i > 0 { assert r[i] == rest[i - 1] && WithId(data)[i] == kt[i - 1]; }
        }
      } else {
        assert r == rest;
        assert WithId(data) == kt;
      }
    }
  }

  /** A record's id is the string form of `id ?? _id`, its title, author and
      date are resolved, and every other field is the post's own. */
  lemma RecordSpec(props: seq<(string, Json)>, id: Json)
    ensures var r := Record(props, id);
            && Lookup(r, "id") == Str(ToStr(id))
            && Lookup(r, "title") == AdminTitle(Lookup(props, "title"))
            && Lookup(r, "author") == AdminAuthor(Lookup(props, "author"))
            && Lookup(r, "publishDate") == Or(Lookup(props, "publishDate"), Null)
            && forall k :: k != "id" && k != "title" && k != "author" && k != "publishDate" ==> Lookup(r, k) == Lookup(props, k)
  {
  }

  /** The id field only falls back to `_id` when `id` is null or undefined:
      a present but falsy `id` such as "" or 0 drops the post. */
  lemma FalsyIdDropsPost(post: Json)
    requires post.Obj? && !Nullish(Member(post, "id")) && !Truthy(Member(post, "id"))
    ensures FormatPost(post) == Ok(None)
  {
  }

  /** A record's id is a non-empty string unless the raw id is an array
      whose elements all print as "" (for example `[]`). */
  lemma RecordIdNonEmpty(id: Json)
    requires Truthy(id) && !id.Arr?
    ensures ToStr(id) != ""
  {
  }

  /** The raw id `[]` is truthy, so the post is kept, but its record id is
      the empty string. */
  lemma EmptyArrayIdGivesEmptyId()
    ensures FormatPost(Obj([("id", Arr([]))])) == Ok(Some(Obj(Record([("id", Arr([]))], Arr([])))))
    ensures Lookup(Record([("id", Arr([]))], Arr([])), "id") == Str("")
  {
    assert ToStr(Arr([])) == Join([], ",");
  }

  /** The title column for an object title: `en` when truthy, else the first
      value when truthy, else "Untitled"; for anything else it is always a
      string: "Untitled" for a falsy title and the title's string form
      otherwise. */
  lemma AdminTitleSpec(title: Json)
    ensures Truthy(AdminTitle(title))
    ensures IsObjectLike(title) && Truthy(Member(title, "en")) ==> AdminTitle(title) == Member(title, "en")
    ensures IsObjectLike(title) && !Truthy(Member(title, "en")) && Values(title) != [] && Truthy(Values(title)[0]) ==>
              AdminTitle(title) == Values(title)[0]
    ensures IsObjectLike(title) && !Truthy(Member(title, "en")) && (Values(title) == [] || !Truthy(Values(title)[0])) ==>
              AdminTitle(title) == Str("Untitled")
    ensures !IsObjectLike(title) ==> AdminTitle(title).Str?
    ensures !IsObjectLike(title) && !Truthy(title) ==> AdminTitle(title) == Str("Untitled")
    ensures title.Str? && title.s != "" ==> AdminTitle(title) == title
  {
    if !IsObjectLike(title) && Truthy(title) {
      match title {
        case Bool(_) =>
        case Num(n) =>
          assert IntToString(n) != "";
        case Str(_) =>
      }
    }
  }

  /** The three title examples: English wins, a lone Spanish entry is used,
      no title gives the placeholder. */
  lemma TitleExamples()
    ensures AdminTitle(Obj([("en", Str("Hello")), ("es", Str("Hola"))])) == Str("Hello")
    ensures AdminTitle(Obj([("es", Str("Hola"))])) == Str("Hola")
    ensures AdminTitle(Undefined) == Str("Untitled")
  {
    assert Values(Obj([("es", Str("Hola"))])) == [Str("Hola")];
  }

  /** The author column is `author.name` when truthy, else the author value
      itself when truthy, else "Unknown". */
  lemma AdminAuthorSpec(author: Json)
    ensures Truthy(AdminAuthor(author))
    ensures Truthy(Member(author, "name")) ==> AdminAuthor(author) == Member(author, "name")
    ensures !Truthy(Member(author, "name")) && Truthy(author) ==> AdminAuthor(author) == author
    ensures !Truthy(author) ==> AdminAuthor(author) == Str("Unknown")
  {
  }

  // ---------------------------------------------------------------------
  // The Published column
  // ---------------------------------------------------------------------

  /** A cell of the Published column; the date formatting itself belongs to
      the date library. */
  datatype PublishedCell = Dash | Formatted(date: Json)

  function Published(record: Json): (c: PublishedCell)
    ensures c == Dash <==> !Truthy(Member(record, "publishDate"))
    ensures c.Formatted? ==> c.date == Member(record, "publishDate")
  {
    var d := Member(record, "publishDate");
    if Truthy(d) then Formatted(d) else Dash
  }

  /** A record shows '-' exactly when the post's own date is falsy. */
  lemma PublishedDashIffNoDate(props: seq<(string, Json)>, id: Json)
    ensures Published(Obj(Record(props, id))) == Dash <==> !Truthy(Lookup(props, "publishDate"))
  {
    RecordSpec(props, id);
  }

  // ---------------------------------------------------------------------
  // Delete
  // ---------------------------------------------------------------------

  /** `prev.filter((post) => post.id !== id)` */
  function WithoutId(posts: seq<Json>, id: string): seq<Json> {
    if posts == [] then []
    else (if Member(posts[0], "id") != Str(id) then [posts[0]] else []) + WithoutId(posts[1..], id)
  }

  /** The optimistic list drops every row with that id at once and keeps all
      other rows in order. */
  lemma {:induction false} WithoutIdSpec(posts: seq<Json>, id: string)
    ensures IsSubseq(WithoutId(posts, id), posts)
    ensures forall p :: p in WithoutId(posts, id) <==> p in posts && Member(p, "id") != Str(id)
    ensures forall p :: multiset(WithoutId(posts, id))[p] == if Member(p, "id") != Str(id) then multiset(posts)[p] else 0
  {
    if posts != [] {
      WithoutIdSpec(posts[1..], id);
      var r := WithoutId(posts, id);
      assert posts == [posts[0]] + posts[1..];
      assert multiset(posts) == multiset([posts[0]]) + multiset(posts[1..]);
      if Member(posts[0], "id") != Str(id) {
        SubseqCons(posts[0], WithoutId(posts[1..], id), posts[1..]);
      } else {
        assert WithoutId(posts, id) == WithoutId(posts[1..], id);
        SubseqSkip(posts[0], WithoutId(posts[1..], id), posts[1..]);
      }
    }
  }

  /** The outcome of `fetch(..., { method: "DELETE" })`. */
  datatype DeleteOutcome =
    | Deleted                        // res.ok
    | NotOk                          // the server answered with an error status
    | Rejected(message: string)      // fetch threw with this message

  /** The outcome of `fetch` and `res.json()` for `GET /posts`. */
  datatype Response = ListNotOk | ListRejected(message: string) | Body(data: Json)

  class Dashboard {
    var posts: seq<Json>
    var loading: bool
    var error: Option<string>

    constructor ()
      ensures posts == [] && loading && error == None
    {
      posts, loading, error := [], true, None;
    }

    /** The fetch handler; `typeErrorMessage` is the engine's text for a
        TypeError thrown while normalising. */
    method Load(response: Response, typeErrorMessage: string)
      modifies this
      ensures !loading
      ensures response.ListNotOk? ==> posts == old(posts) && error == Some("Failed to fetch posts")
      ensures response.ListRejected? ==>
                posts == old(posts)
                && error == Some(if response.message != "" then response.message else "Something went wrong")
      ensures response.Body? && response.data.Arr? && FormatPosts(response.data.items).Ok? ==>
                posts == FormatPosts(response.data.items).value && error == old(error)
      ensures response.Body? && (!response.data.Arr? || FormatPosts(response.data.items).Fail?) ==>
                posts == old(posts)
                && error == Some(if typeErrorMessage != "" then typeErrorMessage else "Something went wrong")
    {
      match response {
        case ListNotOk =>
          error := Some("Failed to fetch posts");
        case ListRejected(m) =>
          error := Some(if m != "" then m else "Something went wrong");
        case Body(data) =>
          var formatted := if data.Arr? then FormatPosts(data.items) else Fail(TypeError);
          if formatted.Ok? {
            posts := formatted.value;
          } else {
            error := Some(if typeErrorMessage != "" then typeErrorMessage else "Something went wrong");
          }
      }
      loading := false;
    }

    /** The synchronous part of `handleDelete`: ask for confirmation, keep a
        copy of the list, drop the row. A declined confirmation changes
        nothing. */
    method BeginDelete(id: string, confirmed: bool) returns (snapshot: Option<seq<Json>>)
      modifies this`posts
      ensures !confirmed ==> snapshot == None && posts == old(posts)
      ensures confirmed ==> snapshot == Some(old(posts)) && posts == WithoutId(old(posts), id)
    {
      if !confirmed {
        return None;
      }
      snapshot := Some(posts);
      posts := WithoutId(posts, id);
    }

    /** The part of `handleDelete` after the server answers: on failure the
        error is set and the list is put back to the copy. */
    method SettleDelete(snapshot: seq<Json>, outcome: DeleteOutcome)
      modifies this`posts, this`error
      ensures outcome.Deleted? ==> posts == old(posts) && error == old(error)
      ensures outcome.NotOk? ==> posts == snapshot && error == Some("Failed to delete post")
      ensures outcome.Rejected? ==>
                posts == snapshot
                && error == Some(if outcome.message != "" then outcome.message else "Failed to delete post")
    {
      match outcome {
        case Deleted =>
        case NotOk =>
          error := Some("Failed to delete post");
          posts := snapshot;
        case Rejected(m) =>
          error := Some(if m != "" then m else "Failed to delete post");
          posts := snapshot;
      }
    }

    /** `handleDelete` when no other change to the list happens while the
        request is in flight: success leaves the list without the row, any
        failure restores the list exactly and sets an error. */
    method HandleDelete(id: string, confirmed: bool, outcome: DeleteOutcome)
      modifies this`posts, this`error
      ensures !confirmed ==> posts == old(posts) && error == old(error)
      ensures confirmed && outcome.Deleted? ==> posts == WithoutId(old(posts), id) && error == old(error)
      ensures confirmed && !outcome.Deleted? ==> posts == old(posts) && error.Some?
    {
      var snapshot := BeginDelete(id, confirmed);
      if snapshot.Some? {
        SettleDelete(snapshot.value, outcome);
      }
    }
  }
}
