/** The edit page (blog-frontend/src/pages/EditPost.js): the fetched post is
    mapped into the shared form (category names joined with ", ", the date
    cut at "T"), edited, and sent back with the categories parsed again. */
module EditPost {
  import opened Js
  import opened PostForm

  const ListPath := "/admin"
  const NotFoundText := "Post not found"
  const FailedToUpdate := "Failed to update post"

  // ---------------------------------------------------------------------
  // The fetched post as a form
  // ---------------------------------------------------------------------

  /** `data.categories ? data.categories.map((c) => c.name).join(", ") : ""`;
      a truthy value that is not an array has no `map` method. */
  function CategoriesText(cs: Json): Result<string> {
    if !Truthy(cs) then Ok("")
    else if cs.Arr? then
      var names :- Names(cs.items);
      Ok(JoinValues(names, ", "))
    else Fail(TypeError)
  }

  /** `data.publishDate ? data.publishDate.split("T")[0] : ""`; a truthy
      value that is not a string has no `split` method. */
  function DateText(d: Json): Result<string> {
    if !Truthy(d) then Ok("")
    else if d.Str? then Ok(Before(d.s, 'T'))
    else Fail(TypeError)
  }

  /** The argument of `setPost` in the fetch handler; reading a field of a
      null body throws. */
  function LoadForm(data: Json): Result<Form> {
    if Nullish(data) then Fail(TypeError)
    else
      var categories :- CategoriesText(Member(data, "categories"));
      var date :- DateText(Member(data, "publishDate"));
      Ok(Form(Or(Member(data, "title"), Obj([("en", Str(""))])),
              Or(Member(data, "excerpt"), Str("")),
              Or(Member(data, "content"), Str("")),
              categories,
              Or(Member(data, "imageUrl"), Str("")),
              date,
              Or(Member(data, "videoUrl"), Str(""))))
  }

  /** Loading throws exactly on a null body, on truthy categories that are
      not an array or hold a null entry, and on a truthy date that is not a
      string. */
  lemma LoadFormFails(data: Json)
    ensures LoadForm(data).Fail? <==>
              || Nullish(data)
              || (Truthy(Member(data, "categories")) && !Member(data, "categories").Arr?)
              || (Member(data, "categories").Arr? &&
                  exists i :: 0 <= i < |Member(data, "categories").items| && Nullish(Member(data, "categories").items[i]))
              || (Truthy(Member(data, "publishDate")) && !Member(data, "publishDate").Str?)
  {
    var cs := Member(data, "categories");
    if cs.Arr? { NamesFacts(cs.items); }
  }

  /** A loaded form keeps the post's title when it is truthy and uses
      `{ en: "" }` otherwise; excerpt, content, image and video are the
      post's when truthy and "" otherwise; the categories are "" when falsy
      and the entries' names joined with ", " when an array; the date is the text before the first "T", which is
      the whole string when it has no "T". */
  lemma LoadFormSpec(data: Json)
    requires LoadForm(data).Ok?
    ensures var p := LoadForm(data).value;
            && Truthy(p.title)
            && (Truthy(Member(data, "title")) ==> p.title == Member(data, "title"))
            && (!Truthy(Member(data, "title")) ==> p.title == Obj([("en", Str(""))]))
            && (Truthy(Member(data, "excerpt")) ==> p.excerpt == Member(data, "excerpt"))
            && (!Truthy(Member(data, "excerpt")) ==> p.excerpt == Str(""))
            && (Truthy(Member(data, "content")) ==> p.content == Member(data, "content"))
            && (!Truthy(Member(data, "content")) ==> p.content == Str(""))
            && (Truthy(Member(data, "imageUrl")) ==> p.imageUrl == Member(data, "imageUrl"))
            && (!Truthy(Member(data, "imageUrl")) ==> p.imageUrl == Str(""))
            && (Truthy(Member(data, "videoUrl")) ==> p.videoUrl == Member(data, "videoUrl"))
            && (!Truthy(Member(data, "videoUrl")) ==> p.videoUrl == Str(""))
            && (!Truthy(Member(data, "categories")) ==> p.categories == "")
            && (Member(data, "categories").Arr? ==>
                  var items := Member(data, "categories").items;
                  p.categories == JoinValues(seq(|items|, i requires 0 <= i < |items| => Member(items[i], "name")), ", "))
            && (!Truthy(Member(data, "publishDate")) ==> p.publishDate == "")
            && (Member(data, "publishDate").Str? ==>
                  var d := Member(data, "publishDate").s;
                  && IsPrefix(p.publishDate, d)
                  && 'T' !in p.publishDate
                  && ('T' !in d ==> p.publishDate == d)
                  && ('T' in d ==> d[|p.publishDate|] == 'T'))
  {
    var d := Member(data, "publishDate");
    if d.Str? { BeforeFacts(d.s, 'T'); }
    var cs := Member(data, "categories");
    if cs.Arr? {
      NamesFacts(cs.items);
      assert Names(cs.items).value == seq(|cs.items|, i requires 0 <= i < |cs.items| => Member(cs.items[i], "name"));
    }
  }

  /** `String(Str(s))` is `s`, so joining string values joins the strings. */
  lemma JoinStrings(names: seq<string>, sep: string)
    ensures JoinValues(seq(|names|, i requires 0 <= i < |names| => Str(names[i])), sep) == Join(names, sep)
  {
    var items := seq(|names|, i requires 0 <= i < |names| => Str(names[i]));
    assert seq(|items|, i requires 0 <= i < |items| =>
                 if Nullish(items[i]) then "" else ToStr(items[i])) == names;
  }

  /** An ISO timestamp loads as its calendar day. */
  lemma IsoDateCut(day: string, rest: string)
    requires 'T' !in day
    ensures DateText(Str(day + "T" + rest)) == Ok(day)
  {
    SplitCons(day, 'T', rest);
  }

  // ---------------------------------------------------------------------
  // Round trip of the category names
  // ---------------------------------------------------------------------

  /** Joining names with ", " and parsing the text again gives back the same
      names in the same order, when the names are comma-free and trimmed;
      the only list this loses is the single empty name. */
  lemma {:induction false} CategoriesRoundTrip(names: seq<string>, clock: nat -> nat)
    requires forall k :: 0 <= k < |names| ==> ',' !in names[k] && Trimmed(names[k])
    requires names != [""]
    ensures NamesOf(FormatCategories(Join(names, ", "), clock)) == names
  {
    if names != [] {
      var s := Join(names, ", ");
      JoinNonEmpty(names);
      SplitJoinComma(names);
      var pieces := Split(s, ',');
      var r := FormatCategories(s, clock);
      assert |pieces| == |names|;
      forall k | 0 <= k < |names| ensures r[k].name == names[k] {
        if k == 0 {
          TrimOfTrimmed(names[0]);
        } else {
          assert pieces[k] == " " + names[k];
          TrimSpacePrefix(names[k]);
        }
      }
      assert NamesOf(r) == names;
    }
  }

  /** Joined names are empty only for no names or the single empty name. */
  lemma JoinNonEmpty(names: seq<string>)
    requires names != [] && names != [""]
    ensures Join(names, ", ") != []
  {
    if |names| == 1 {
      assert names == [names[0]];
    } else {
      assert |Join(names, ", ")| >= 2;
    }
  }

  /** The single empty name is saved back as no category at all. */
  lemma SingleEmptyNameIsLost(clock: nat -> nat)
    ensures FormatCategories(Join([""], ", "), clock) == []
  {
  }

  /** Loading a post whose categories are records with the given names and
      saving it unchanged sends the same names in the same order. */
  lemma SaveAfterLoad(data: Json, names: seq<string>, clock: nat -> nat)
    requires LoadForm(data).Ok?
    requires Member(data, "categories").Arr?
    requires var items := Member(data, "categories").items;
             && |items| == |names|
             && forall k :: 0 <= k < |items| ==> !Nullish(items[k]) && Member(items[k], "name") == Str(names[k])
    requires forall k :: 0 <= k < |names| ==> ',' !in names[k] && Trimmed(names[k])
    requires names != [""]
    ensures NamesOf(MakePayload(LoadForm(data).value, clock).categories) == names
  {
    var items := Member(data, "categories").items;
    NamesFacts(items);
    var values := Names(items).value;
    assert values == seq(|names|, i requires 0 <= i < |names| => Str(names[i]));
    JoinStrings(names, ", ");
    assert LoadForm(data).value.categories == Join(names, ", ");
    CategoriesRoundTrip(names, clock);
  }

  // ---------------------------------------------------------------------
  // The page
  // ---------------------------------------------------------------------

  /** How the fetch of the post ends: its JSON body, an error status with
      this body, or a rejection with this message. */
  datatype Fetch = Found(data: Json) | NotFound(body: Json) | Unreachable(message: string)

  /** `err.message || "Post not found"`; reading `.message` of a null body
      throws a TypeError. */
  function NotFoundMessage(body: Json, typeErrorMessage: string): (m: string)
    ensures !Nullish(body) && !Truthy(Member(body, "message")) ==> m == NotFoundText
    ensures Member(body, "message").Str? && Member(body, "message").s != "" ==> m == Member(body, "message").s
  {
    if Nullish(body) then typeErrorMessage else ToStr(Or(Member(body, "message"), Str(NotFoundText)))
  }

  class EditPostPage {
    var post: Form
    var loading: bool
    var saving: bool
    var error: string

    constructor ()
      ensures post == Blank && loading && !saving && error == ""
    {
      post, loading, saving, error := Blank, true, false, "";
    }

    /** The page renders the form only once loaded and while no error is
        set; otherwise it shows the loading line or the error alone. */
    predicate FormShown()
      reads this
    {
      !loading && error == ""
    }

    /** The fetch handler. */
    method Load(response: Fetch, typeErrorMessage: string)
      modifies this`post, this`error, this`loading
      ensures !loading
      ensures response.Found? && LoadForm(response.data).Ok? ==>
                post == LoadForm(response.data).value && error == old(error)
      ensures response.Found? && LoadForm(response.data).Fail? ==>
                post == old(post) && error == "Failed to fetch post: " + typeErrorMessage
      ensures response.NotFound? ==>
                post == old(post) && error == "Failed to fetch post: " + NotFoundMessage(response.body, typeErrorMessage)
      ensures response.Unreachable? ==>
                post == old(post) && error == "Failed to fetch post: " + response.message
      ensures !response.Found? ==> !FormShown()
    {
      match response {
        case Found(data) =>
          var form := LoadForm(data);
          if form.Ok? {
            post := form.value;
          } else {
            error := "Failed to fetch post: " + typeErrorMessage;
          }
        case NotFound(body) =>
          error := "Failed to fetch post: " + NotFoundMessage(body, typeErrorMessage);
        case Unreachable(m) =>
          error := "Failed to fetch post: " + m;
      }
      loading := false;
    }

    /** `handleChange` for the input called `name`. */
    method HandleChange(name: Field, value: string)
      modifies this`post
      ensures post == Changed(old(post), name, value)
    {
      post := Changed(post, name, value);
    }

    /** `handleUpdate`, run to completion, with the same parameters as the
        add page's submit handler. Any validation error or failed save
        leaves an error set, so the page then shows that error in place of
        the form. */
    method HandleUpdate(clock: nat -> nat, outcome: Outcome, typeErrorMessage: string)
      returns (sent: Option<Payload>, navigateTo: Option<string>)
      modifies this`error, this`saving
      ensures post == old(post)
      ensures Validate(post).Fail? ==>
                sent == None && navigateTo == None && error == "" && saving == old(saving)
      ensures Validate(post).Ok? && Validate(post).value.Some? ==>
                sent == None && navigateTo == None
                && error == Validate(post).value.value && saving == old(saving)
      ensures Validate(post) == Ok(None) ==> sent == Some(MakePayload(post, clock)) && !saving
      ensures Validate(post) == Ok(None) && outcome.Saved? ==> navigateTo == Some(ListPath) && error == ""
      ensures Validate(post) == Ok(None) && !outcome.Saved? ==>
                navigateTo == None
                && error == "EditPost Error: " + ErrorMessage(outcome, FailedToUpdate, typeErrorMessage)
      ensures Validate(post).Ok? && (sent == None || !outcome.Saved?) ==> !FormShown()
    {
      error := "";
      var checked := Validate(post);
      if checked.Fail? {
        return None, None;
      }
      if checked.value.Some? {
        ValidateSpec(post);
        error := checked.value.value;
        return None, None;
      }
      saving := true;
      sent := Some(MakePayload(post, clock));
      if outcome.Saved? {
        navigateTo := Some(ListPath);
      } else {
        navigateTo := None;
        error := "EditPost Error: " + ErrorMessage(outcome, FailedToUpdate, typeErrorMessage);
      }
      saving := false;
    }
  }
}
