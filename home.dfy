/** The public listing page (blog-frontend/src/pages/Home.js): it turns the
    posts fetched from `GET /posts` into cards, collects the category names,
    filters by a case-insensitive title search and a category, and shows six
    cards per page. */
module Home {
  import opened Js

  const POSTS_PER_PAGE: nat := 6
  /** The number of entries of the rotating `quotes` array. */
  const QUOTE_COUNT: nat := 4
  /** The category selector's sentinel that matches every post. */
  const ALL: string := "All"

  /** A card of the listing, as the load step builds it from a raw post. */
  datatype Card = Card(id: Json, title: Json, excerpt: Json, imageUrl: Json, categories: seq<Json>)

  // ---------------------------------------------------------------------
  // Normalisation of the fetched posts
  // ---------------------------------------------------------------------

  /** `title?.en || title || "Untitled"`: the English entry when it is
      truthy, else the raw title itself when truthy (of whatever type), else
      the placeholder. */
  function LooseTitle(title: Json): (r: Json)
    ensures Truthy(r)
    ensures Truthy(Member(title, "en")) ==> r == Member(title, "en")
    ensures !Truthy(Member(title, "en")) && Truthy(title) ==> r == title
    ensures !Truthy(Member(title, "en")) && !Truthy(title) ==> r == Str("Untitled")
  {
    Or(Or(Member(title, "en"), title), Str("Untitled"))
  }

  /** `cs?.map((c) => c.name) || []`: no categories give [], an array gives
      its names, and any other value throws (it has no `map` method). */
  function CardCategories(cs: Json): Result<seq<Json>> {
    if Nullish(cs) then Ok([])
    else if cs.Arr? then Names(cs.items)
    else Fail(TypeError)
  }

  /** One element of `data.map(...)`. Reading `post._id` throws on a null
      post; the id is taken from `_id` only. */
  function Normalize(post: Json): Result<Card> {
    if Nullish(post) then Fail(TypeError)
    else
      var cats :- CardCategories(Member(post, "categories"));
      Ok(Card(Member(post, "_id"),
              LooseTitle(Member(post, "title")),
              Or(Member(post, "excerpt"), Str("")),
              Or(Member(post, "imageUrl"), Str("")),
              cats))
  }

  function NormalizeAll(data: seq<Json>): Result<seq<Card>> {
    if data == [] then Ok([])
    else
      var c :- Normalize(data[0]);
      var rest :- NormalizeAll(data[1..]);
      Ok([c] + rest)
  }

  /** `data.map(...)` on the response body: a body that is not an array has
      no `map` method. */
  function NormalizeBody(data: Json): Result<seq<Card>> {
    if data.Arr? then NormalizeAll(data.items) else Fail(TypeError)
  }

  /** A listing card keeps `_id` as its id (an `id` field is ignored), gets
      a truthy title, defaults excerpt and image to "" and categories to [];
      normalising throws exactly for a null post, a non-array `categories`
      that is neither null nor undefined, or a null category entry. */
  lemma NormalizeSpec(post: Json)
    ensures Normalize(post).Fail? <==>
              Nullish(post)
              || (var cs := Member(post, "categories");
                  !Nullish(cs) && (!cs.Arr? || exists i :: 0 <= i < |cs.items| && Nullish(cs.items[i])))
    ensures Normalize(post).Ok? ==>
              var c := Normalize(post).value;
              && c.id == Member(post, "_id")
              && c.title == LooseTitle(Member(post, "title"))
              && (Truthy(Member(post, "excerpt")) ==> c.excerpt == Member(post, "excerpt"))
              && (!Truthy(Member(post, "excerpt")) ==> c.excerpt == Str(""))
              && (Truthy(Member(post, "imageUrl")) ==> c.imageUrl == Member(post, "imageUrl"))
              && (!Truthy(Member(post, "imageUrl")) ==> c.imageUrl == Str(""))
              && (Nullish(Member(post, "categories")) ==> c.categories == [])
              && (Member(post, "categories").Arr? ==>
                    |c.categories| == |Member(post, "categories").items|
                    && forall i :: 0 <= i < |c.categories| ==>
                         c.categories[i] == Member(Member(post, "categories").items[i], "name"))
  {
    var cs := Member(post, "categories");
    if cs.Arr? { NamesFacts(cs.items); }
  }

  /** A successful load gives one card per post, in order. */
  lemma {:induction false} NormalizeAllFacts(data: seq<Json>)
    ensures NormalizeAll(data).Fail? <==> exists i :: 0 <= i < |data| && Normalize(data[i]).Fail?
    ensures NormalizeAll(data).Ok? ==>
              |NormalizeAll(data).value| == |data|
              && forall i :: 0 <= i < |data| ==> Normalize(data[i]) == Ok(NormalizeAll(data).value[i])
  {
    if data != [] {
      NormalizeAllFacts(data[1..]);
      if Normalize(data[0]).Ok? && NormalizeAll(data[1..]).Ok? {
        var rest := NormalizeAll(data[1..]).value;
        forall i | 0 <= i < |data| ensures Normalize(data[i]) == Ok(([Normalize(data[0]).value] + rest)[i]) {
          if i > 0 { assert data[1..][i - 1] == data[i]; }
        }
      }
      if NormalizeAll(data[1..]).Fail? {
        var i :| 0 <= i < |data[1..]| && Normalize(data[1..][i]).Fail?;
        assert data[1..][i] == data[i + 1];
      }
      if exists i :: 0 <= i < |data| && Normalize(data[i]).Fail? {
        var i :| 0 <= i < |data| && Normalize(data[i]).Fail?;
        if i > 0 { assert data[1..][i - 1] == data[i]; }
      }
    }
  }

  // ---------------------------------------------------------------------
  // The category list
  // ---------------------------------------------------------------------

  /** `data.flatMap((p) => p.categories.map((c) => c.name))`: unlike the
      card normaliser this reads `p.categories.map` without `?.`, so a post
      with no categories throws. */
  function CategoryNames(data: seq<Json>): Result<seq<Json>> {
    if data == [] then Ok([])
    else if Nullish(data[0]) || !Member(data[0], "categories").Arr? then Fail(TypeError)
    else
      var names :- Names(Member(data[0], "categories").items);
      var rest :- CategoryNames(data[1..]);
      Ok(names + rest)
  }

  /** The names of one post's `categories` array, read entry by entry. */
  function PostNames(p: Json): seq<Json> {
    var cs := Member(p, "categories");
    if cs.Arr? then seq(|cs.items|, j requires 0 <= j < |cs.items| => Member(cs.items[j], "name")) else []
  }

  /** The lists of `xss` one after another. */
  function Flatten(xss: seq<seq<Json>>): seq<Json> {
    if xss == [] then [] else xss[0] + Flatten(xss[1..])
  }

  /** Collecting the names throws exactly when some post is null, has no
      `categories` array, or has a null entry in it; otherwise the list is
      every post's category names, post after post, in order. */
  lemma {:induction false} CategoryNamesFacts(data: seq<Json>)
    ensures CategoryNames(data).Fail? <==>
              exists i :: 0 <= i < |data| &&
                (Nullish(data[i]) || !Member(data[i], "categories").Arr?
                 || exists j :: 0 <= j < |Member(data[i], "categories").items| && Nullish(Member(data[i], "categories").items[j]))
    ensures CategoryNames(data).Ok? ==>
              CategoryNames(data).value == Flatten(seq(|data|, i requires 0 <= i < |data| => PostNames(data[i])))
  {
    if data != [] {
      var tail := data[1..];
      CategoryNamesFacts(tail);
      var all := seq(|data|, i requires 0 <= i < |data| => PostNames(data[i]));
      assert all[1..] == seq(|tail|, i requires 0 <= i < |tail| => PostNames(tail[i]));
      var cs := Member(data[0], "categories");
      if cs.Arr? {
        NamesFacts(cs.items);
        if Names(cs.items).Ok? {
          assert Names(cs.items).value == PostNames(data[0]);
        }
      }
      if exists i :: 0 <= i < |tail| &&
           (Nullish(tail[i]) || !Member(tail[i], "categories").Arr?
            || exists j :: 0 <= j < |Member(tail[i], "categories").items| && Nullish(Member(tail[i], "categories").items[j])) {
        var i :| 0 <= i < |tail| &&
           (Nullish(tail[i]) || !Member(tail[i], "categories").Arr?
            || exists j :: 0 <= j < |Member(tail[i], "categories").items| && Nullish(Member(tail[i], "categories").items[j]));
        assert data[i + 1] == tail[i];
      }
      if exists i :: 0 <= i < |data| &&
           (Nullish(data[i]) || !Member(data[i], "categories").Arr?
            || exists j :: 0 <= j < |Member(data[i], "categories").items| && Nullish(Member(data[i], "categories").items[j])) {
        var i :| 0 <= i < |data| &&
           (Nullish(data[i]) || !Member(data[i], "categories").Arr?
            || exists j :: 0 <= j < |Member(data[i], "categories").items| && Nullish(Member(data[i], "categories").items[j]));
        if i > 0 { assert tail[i - 1] == data[i]; }
      }
    }
  }

  /** A value that `Set` compares by value (SameValueZero); every object or
      array parsed from JSON is a reference distinct from all others. */
  predicate Primitive(v: Json) { !IsObjectLike(v) }

  /** `set.has(x)` for a set whose insertion order is `members`. */
  predicate SetHas(members: seq<Json>, x: Json) { Primitive(x) && x in members }

  /** `Array.from(new Set(xs))` continued from a set holding `members`:
      each value is added in turn unless the set already has it. */
  function SetInsertAll(members: seq<Json>, xs: seq<Json>): seq<Json>
    decreases |xs|
  {
    if xs == [] then members
    else SetInsertAll(if SetHas(members, xs[0]) then members else members + [xs[0]], xs[1..])
  }

  /** `Array.from(new Set(xs))` */
  function Unique(xs: seq<Json>): seq<Json> {
    SetInsertAll([], xs)
  }

  /** Position `k` holds the first occurrence of its value. */
  predicate IsFirst(xs: seq<Json>, k: nat)
    requires k < |xs|
  {
    !Primitive(xs[k]) || xs[k] !in xs[..k]
  }

  /** The reference definition: the entries of `xs` at their first
      occurrences, in order. */
  function FirstOccurrences(xs: seq<Json>): seq<Json> {
    if xs == [] then []
    else
      var n := |xs| - 1;
      FirstOccurrences(xs[..n]) + (if IsFirst(xs, n) then [xs[n]] else [])
  }

  lemma {:induction false} FirstOccurrencesMembers(xs: seq<Json>)
    ensures forall x :: x in FirstOccurrences(xs) <==> x in xs
  {
    if xs != [] {
      var n := |xs| - 1;
      FirstOccurrencesMembers(xs[..n]);
      assert xs == xs[..n] + [xs[n]];
    }
  }

  lemma {:induction false} SetInsertAllIsFirstOccurrences(p: seq<Json>, xs: seq<Json>)
    ensures SetInsertAll(FirstOccurrences(p), xs) == FirstOccurrences(p + xs)
    decreases |xs|
  {
    if xs == [] {
      assert p + xs == p;
    } else {
      var q := p + [xs[0]];
      FirstOccurrencesMembers(p);
      assert q[..|p|] == p;
      assert FirstOccurrences(q) == FirstOccurrences(p) + (if IsFirst(q, |p|) then [xs[0]] else []);
      assert IsFirst(q, |p|) <==> !SetHas(FirstOccurrences(p), xs[0]);
      var m := if SetHas(FirstOccurrences(p), xs[0]) then FirstOccurrences(p) else FirstOccurrences(p) + [xs[0]];
      assert m == FirstOccurrences(q);
      assert SetInsertAll(FirstOccurrences(p), xs) == SetInsertAll(m, xs[1..]);
      SetInsertAllIsFirstOccurrences(q, xs[1..]);
      assert q + xs[1..] == p + xs;
    }
  }

  /** No primitive value appears twice. */
  predicate NoPrimitiveRepeats(u: seq<Json>) {
    forall i, j :: 0 <= i < j < |u| && u[i] == u[j] ==> !Primitive(u[i])
  }

  lemma {:induction false} FirstOccurrencesDistinct(xs: seq<Json>)
    ensures NoPrimitiveRepeats(FirstOccurrences(xs))
  {
    if xs != [] {
      var n := |xs| - 1;
      var v := FirstOccurrences(xs[..n]);
      FirstOccurrencesDistinct(xs[..n]);
      FirstOccurrencesMembers(xs[..n]);
      var u := FirstOccurrences(xs);
      assert u == v + (if IsFirst(xs, n) then [xs[n]] else []);
      forall i, j | 0 <= i < j < |u| && u[i] == u[j] ensures !Primitive(u[i]) {
        if j < |v| {
          assert u[i] == v[i] && u[j] == v[j];
        } else {
          assert u[j] == xs[n] && IsFirst(xs, n);
          assert u[i] == v[i] && v[i] in v;
          assert v[i] in xs[..n];
        }
      }
    }
  }

  lemma {:induction false} FirstOccurrencesSubseq(xs: seq<Json>)
    ensures IsSubseq(FirstOccurrences(xs), xs)
  {
    if xs != [] {
      var n := |xs| - 1;
      FirstOccurrencesSubseq(xs[..n]);
      SubseqExtend(FirstOccurrences(xs[..n]), xs[..n], xs[n], IsFirst(xs, n));
      assert xs[..n] + [xs[n]] == xs;
    }
  }

  lemma {:induction false} SubseqExtend<T>(a: seq<T>, b: seq<T>, x: T, keep: bool)
    requires IsSubseq(a, b)
    ensures IsSubseq(a + (if keep then [x] else []), b + [x])
    decreases |b|
  {
    var a' := a + (if keep then [x] else []);
    if b == [] {
      assert a == [];
      if keep { assert a' == [x]; assert IsSubseq(a'[1..], []); }
    } else if a == [] {
      SubseqExtend(a, b[1..], x, keep);
      assert (b + [x])[1..] == b[1..] + [x];
      if keep {
        assert a' == [x];
      }
    } else {
      assert (b + [x])[1..] == b[1..] + [x];
      assert a'[0] == a[0];
      if a[0] == b[0] && IsSubseq(a[1..], b[1..]) {
        SubseqExtend(a[1..], b[1..], x, keep);
        assert a'[1..] == a[1..] + (if keep then [x] else []);
      } else {
        SubseqExtend(a, b[1..], x, keep);
      }
    }
  }

  /** The category selector lists every category name of every post once,
      keeping the order of first appearance; names that are objects are
      never merged, since a `Set` compares them by reference. */
  lemma UniqueSpec(xs: seq<Json>)
    ensures Unique(xs) == FirstOccurrences(xs)
    ensures forall x :: x in Unique(xs) <==> x in xs
    ensures NoPrimitiveRepeats(Unique(xs))
    ensures IsSubseq(Unique(xs), xs)
  {
    SetInsertAllIsFirstOccurrences([], xs);
    assert [] + xs == xs;
    FirstOccurrencesMembers(xs);
    FirstOccurrencesDistinct(xs);
    FirstOccurrencesSubseq(xs);
  }

  // ---------------------------------------------------------------------
  // Search and category filter
  // ---------------------------------------------------------------------

  /** Whether a card with a string title passes the filters. */
  predicate Matches(c: Card, searchTerm: string, selected: string)
    requires c.title.Str?
  {
    Includes(Lower(c.title.s), Lower(searchTerm)) && (selected == ALL || Str(selected) in c.categories)
  }

  /** `posts.filter(...)`: `post.title.toLowerCase()` throws for a card whose
      title is not a string, whatever the filters are. */
  function Filter(posts: seq<Card>, searchTerm: string, selected: string): Result<seq<Card>> {
    if posts == [] then Ok([])
    else if !posts[0].title.Str? then Fail(TypeError)
    else
      var rest :- Filter(posts[1..], searchTerm, selected);
      Ok((if Matches(posts[0], searchTerm, selected) then [posts[0]] else []) + rest)
  }

  /** The filtered list is an order-preserving subsequence that holds a card
      exactly when its lowered title includes the lowered search term and its
      categories include the selected one (or "All" is selected); the filter
      throws exactly when some card has a non-string title. */
  lemma {:induction false} FilterSpec(posts: seq<Card>, searchTerm: string, selected: string)
    ensures Filter(posts, searchTerm, selected).Fail? <==> exists i :: 0 <= i < |posts| && !posts[i].title.Str?
    ensures Filter(posts, searchTerm, selected).Ok? ==>
              var r := Filter(posts, searchTerm, selected).value;
              && IsSubseq(r, posts)
              && (forall c :: c in r <==> c in posts && c.title.Str? && Matches(c, searchTerm, selected))
              && forall c :: multiset(r)[c] == if c.title.Str? && Matches(c, searchTerm, selected) then multiset(posts)[c] else 0
  {
    if posts != [] && posts[0].title.Str? {
      var tail := posts[1..];
      FilterSpec(tail, searchTerm, selected);
      assert posts == [posts[0]] + tail;
      if Filter(tail, searchTerm, selected).Ok? {
        var rest := Filter(tail, searchTerm, selected).value;
        var keep := Matches(posts[0], searchTerm, selected);
        var r := (if keep then [posts[0]] else []) + rest;
        assert multiset(posts) == multiset([posts[0]]) + multiset(tail);
        assert multiset(r) == multiset(if keep then [posts[0]] else []) + multiset(rest);
        if keep {
          assert r[0] == posts[0] && r[1..] == rest;
        } else {
          assert r == rest;
        }
      } else {
        var i :| 0 <= i < |tail| && !tail[i].title.Str?;
        assert !posts[i + 1].title.Str?;
      }
      if exists i :: 0 <= i < |posts| && !posts[i].title.Str? {
        var i :| 0 <= i < |posts| && !posts[i].title.Str?;
        assert tail[i - 1] == posts[i];
      }
    }
  }

  /** An empty search with "All" selected keeps every post. */
  lemma {:induction false} FilterKeepsAll(posts: seq<Card>)
    requires forall i :: 0 <= i < |posts| ==> posts[i].title.Str?
    ensures Filter(posts, "", ALL) == Ok(posts)
  {
    if posts != [] {
      IncludesEmpty(Lower(posts[0].title.s));
      FilterKeepsAll(posts[1..]);
      assert [posts[0]] + posts[1..] == posts;
    }
  }

  /** A search term that no title contains leaves nothing, and so no page. */
  lemma NoMatchNoPages(posts: seq<Card>, searchTerm: string, selected: string)
    requires Filter(posts, searchTerm, selected).Ok?
    requires forall c :: c in posts && c.title.Str? ==> !Includes(Lower(c.title.s), Lower(searchTerm))
    ensures Filter(posts, searchTerm, selected).value == []
    ensures TotalPages(|Filter(posts, searchTerm, selected).value|) == 0
  {
    FilterSpec(posts, searchTerm, selected);
    var r := Filter(posts, searchTerm, selected).value;
  }

  // ---------------------------------------------------------------------
  // Pagination
  // ---------------------------------------------------------------------

  /** `Math.ceil(n / POSTS_PER_PAGE)` */
  function TotalPages(n: nat): (t: nat)
    ensures t == 0 <==> n == 0
    ensures (t - 1) * POSTS_PER_PAGE < n <= t * POSTS_PER_PAGE || n == 0
  {
    (n + POSTS_PER_PAGE - 1) / POSTS_PER_PAGE
  }

  /** `filtered.slice(start, start + POSTS_PER_PAGE)` with
      `start = (page - 1) * POSTS_PER_PAGE`. */
  function Page<T>(filtered: seq<T>, page: int): seq<T> {
    var start := (page - 1) * POSTS_PER_PAGE;
    Slice(filtered, start, start + POSTS_PER_PAGE)
  }

  /** Pages 1 to `k`, one after the other. */
  function Pages<T>(filtered: seq<T>, k: nat): seq<T> {
    if k == 0 then [] else Pages(filtered, k - 1) + Page(filtered, k)
  }

  /** A page from 1 on is the run of at most six posts starting at
      `(page - 1) * 6`; pages past the last are empty. */
  lemma PageSpec<T>(filtered: seq<T>, page: int)
    requires page >= 1
    ensures |Page(filtered, page)| <= POSTS_PER_PAGE
    ensures var start := (page - 1) * POSTS_PER_PAGE;
            var end := if start + POSTS_PER_PAGE < |filtered| then start + POSTS_PER_PAGE else |filtered|;
            Page(filtered, page) == if start < |filtered| then filtered[start..end] else []
    ensures page > TotalPages(|filtered|) ==> Page(filtered, page) == []
  {
  }

  lemma {:induction false} PagesPrefix<T>(filtered: seq<T>, k: nat)
    ensures Pages(filtered, k) ==
              filtered[..if k * POSTS_PER_PAGE < |filtered| then k * POSTS_PER_PAGE else |filtered|]
  {
    if k > 0 {
      PagesPrefix(filtered, k - 1);
      PageSpec(filtered, k);
      var a := (k - 1) * POSTS_PER_PAGE;
      var b := k * POSTS_PER_PAGE;
      if a < |filtered| {
        var e := if b < |filtered| then b else |filtered|;
        assert filtered[..a] + filtered[a..e] == filtered[..e];
      }
    }
  }

  /** Reading pages 1 to `totalPages` in turn shows every filtered post once,
      in order. */
  lemma PagesCoverAll<T>(filtered: seq<T>)
    ensures Pages(filtered, TotalPages(|filtered|)) == filtered
  {
    PagesPrefix(filtered, TotalPages(|filtered|));
    assert filtered[..|filtered|] == filtered;
  }

  // ---------------------------------------------------------------------
  // The rotating quote
  // ---------------------------------------------------------------------

  /** `(prev + 1) % quotes.length` */
  function NextQuote(prev: int): (r: int)
    requires prev >= 0
    ensures 0 <= r < QUOTE_COUNT
    ensures prev + 1 < QUOTE_COUNT ==> r == prev + 1
    ensures prev == QUOTE_COUNT - 1 ==> r == 0
  {
    JsRem(prev + 1, QUOTE_COUNT)
  }

  // ---------------------------------------------------------------------
  // The page state
  // ---------------------------------------------------------------------

  /** The outcome of `fetch(...)` and `res.json()` for `GET /posts`. */
  datatype Response =
    | NotOk                      // the server answered with an error status
    | Rejected(message: string)  // fetch or res.json() threw with this message
    | Body(data: Json)           // the parsed JSON body

  class HomePage {
    var posts: seq<Card>
    var loading: bool
    var error: string
    var currentPage: int
    var searchTerm: string
    var selectedCategory: string
    var categories: seq<Json>
    var currentQuote: int

    /** The state on mount. */
    constructor ()
      ensures Valid()
      ensures posts == [] && loading && error == "" && currentPage == 1
      ensures searchTerm == "" && selectedCategory == ALL && categories == [] && currentQuote == 0
    {
      posts, loading, error, currentPage := [], true, "", 1;
      searchTerm, selectedCategory, categories, currentQuote := "", ALL, [], 0;
    }

    /** The `filteredPosts` memo, computed on every render. */
    function Filtered(): Result<seq<Card>>
      reads this
    {
      Filter(posts, searchTerm, selectedCategory)
    }

    function PageCount(): nat
      reads this
    {
      if Filtered().Ok? then TotalPages(|Filtered().value|) else 0
    }

    /** The `paginatedPosts` memo. */
    function Paginated(): seq<Card>
      reads this
    {
      if Filtered().Ok? then Page(Filtered().value, currentPage) else []
    }

    /** The render throws (the filter reached a non-string title). */
    predicate Crashed()
      reads this
    {
      Filtered().Fail?
    }

    /** The search box, the category selector and the grid are on screen:
        not loading, no error, at least one post, and the render did not
        throw. */
    predicate ControlsShown()
      reads this
    {
      !Crashed() && !loading && error == "" && |posts| > 0
    }

    predicate PaginationShown()
      reads this
    {
      ControlsShown() && PageCount() > 1
    }

    predicate PrevDisabled()
      reads this
    {
      currentPage == 1
    }

    predicate NextDisabled()
      reads this
    {
      currentPage == PageCount()
    }

    /** The cursor is a page number from 1, and a real page whenever it is
        not 1; it is 1 until the posts arrive; the quote index is in range. */
    ghost predicate Valid()
      reads this
    {
      && currentPage >= 1
      && (loading ==> currentPage == 1)
      && (currentPage == 1 || currentPage <= PageCount())
      && 0 <= currentQuote < QUOTE_COUNT
    }

    /** The cursor never leaves the pages while the pagination is shown. */
    lemma CursorInRange()
      requires Valid()
      ensures 1 <= currentPage
      ensures PaginationShown() ==> currentPage <= PageCount()
      ensures PaginationShown() ==> |Paginated()| > 0
    {
      if PaginationShown() {
        var f := Filtered().value;
        PageSpec(f, currentPage);
        assert (currentPage - 1) * POSTS_PER_PAGE < |f|;
      }
    }

    /** The fetch handler: cards and category names from the body, or the
        error message. `typeErrorMessage` is the engine's text for a
        TypeError thrown while normalising. When the card step succeeds but
        the category step throws, the cards are kept and the error is set. */
    method Load(response: Response, typeErrorMessage: string)
      requires Valid() && loading
      modifies this
      ensures Valid() && !loading
      ensures currentPage == 1 && searchTerm == old(searchTerm) && selectedCategory == old(selectedCategory)
      ensures currentQuote == old(currentQuote)
      ensures response.NotOk? ==> posts == old(posts) && categories == old(categories) && error == "Failed to fetch posts"
      ensures response.Rejected? ==>
                posts == old(posts) && categories == old(categories)
                && error == (if response.message != "" then response.message else "Something went wrong")
      ensures response.Body? && NormalizeBody(response.data).Fail? ==>
                posts == old(posts) && categories == old(categories)
                && error == (if typeErrorMessage != "" then typeErrorMessage else "Something went wrong")
      ensures response.Body? && NormalizeBody(response.data).Ok? ==>
                posts == NormalizeBody(response.data).value
                && (CategoryNames(response.data.items).Ok? ==>
                      categories == Unique(CategoryNames(response.data.items).value) && error == old(error))
                && (CategoryNames(response.data.items).Fail? ==>
                      categories == old(categories)
                      && error == (if typeErrorMessage != "" then typeErrorMessage else "Something went wrong"))
    {
      var fallback := "Something went wrong";
      match response {
        case NotOk =>
          error := "Failed to fetch posts";
        case Rejected(m) =>
          error := if m != "" then m else fallback;
        case Body(data) =>
          var cards := NormalizeBody(data);
          if cards.Fail? {
            error := if typeErrorMessage != "" then typeErrorMessage else fallback;
          } else {
            posts := cards.value;
            var names := CategoryNames(data.items);
            if names.Fail? {
              error := if typeErrorMessage != "" then typeErrorMessage else fallback;
            } else {
              categories := Unique(names.value);
            }
          }
      }
      loading := false;
    }

    /** Typing in the search box: new term, back to page 1. */
    method SetSearchTerm(value: string)
      requires Valid() && ControlsShown()
      modifies this`searchTerm, this`currentPage
      ensures Valid()
      ensures searchTerm == value && currentPage == 1
    {
      searchTerm := value;
      currentPage := 1;
    }

    /** Choosing a category: new selection, back to page 1. */
    method SetSelectedCategory(value: string)
      requires Valid() && ControlsShown()
      modifies this`selectedCategory, this`currentPage
      ensures Valid()
      ensures selectedCategory == value && currentPage == 1
    {
      selectedCategory := value;
      currentPage := 1;
    }

    /** The Prev button; it is disabled on page 1. */
    method ClickPrev()
      requires Valid() && PaginationShown()
      modifies this`currentPage
      ensures Valid()
      ensures currentPage == if old(currentPage) == 1 then 1 else old(currentPage) - 1
    {
      if !PrevDisabled() {
        currentPage := currentPage - 1;
      }
    }

    /** The Next button; it is disabled on the last page. */
    method ClickNext()
      requires Valid() && PaginationShown()
      modifies this`currentPage
      ensures Valid()
      ensures currentPage == if old(currentPage) == PageCount() then old(currentPage) else old(currentPage) + 1
    {
      CursorInRange();
      if !NextDisabled() {
        currentPage := currentPage + 1;
      }
    }

    /** The numbered button `idx + 1`. */
    method ClickPage(idx: nat)
      requires Valid() && PaginationShown() && idx < PageCount()
      modifies this`currentPage
      ensures Valid()
      ensures currentPage == idx + 1
    {
      currentPage := idx + 1;
    }

    /** The five-second timer's step. */
    method TickQuote()
      requires Valid()
      modifies this`currentQuote
      ensures Valid()
      ensures currentQuote == NextQuote(old(currentQuote))
    {
      currentQuote := NextQuote(currentQuote);
    }
  }
}
