/** The form logic that the add page (blog-frontend/src/pages/AddPost.js) and
    the edit page (blog-frontend/src/pages/EditPost.js) share word for word:
    the form record and its change handler, the comma-separated category
    parser, the required-field checks, the request payload and the message
    of a failed save. */
module PostForm {
  import opened Js

  // ---------------------------------------------------------------------
  // The form record
  // ---------------------------------------------------------------------

  /** The `post` state of both pages. The add page only ever holds strings
      (and `{ en: <string> }` as the title); the edit page fills the record
      from the fetched post with `||` defaults, so its fields may hold any
      value the server sent. `categories` and `publishDate` are strings on
      both pages. */
  datatype Form = Form(
    title: Json,
    excerpt: Json,
    content: Json,
    categories: string,
    imageUrl: Json,
    publishDate: string,
    videoUrl: Json)

  /** The initial state of both pages. */
  const Blank := Form(Obj([("en", Str(""))]), Str(""), Str(""), "", Str(""), "", Str(""))

  /** The `name` attributes of the form's inputs; there is no input for
      `videoUrl`. */
  datatype Field = TitleEn | Excerpt | Content | Categories | ImageUrl | PublishDate

  /** What the input called `name` displays. */
  function Shown(p: Form, name: Field): Json {
    match name
    case TitleEn => Member(p.title, "en")
    case Excerpt => p.excerpt
    case Content => p.content
    case Categories => Str(p.categories)
    case ImageUrl => p.imageUrl
    case PublishDate => Str(p.publishDate)
  }

  /** The state updater of `handleChange`: "titleEn" replaces the whole
      title by `{ en: value }`; any other name sets that one field. The
      edited input shows the typed value, every other input shows what it
      showed before, and `videoUrl` is never touched. */
  function Changed(p: Form, name: Field, value: string): (r: Form)
    ensures Shown(r, name) == Str(value)
    ensures forall other :: other != name ==> Shown(r, other) == Shown(p, other)
    ensures r.videoUrl == p.videoUrl
    ensures name == TitleEn ==> r.title == Obj([("en", Str(value))])
    ensures name != TitleEn ==> r.title == p.title
  {
    match name
    case TitleEn => p.(title := Obj([("en", Str(value))]))
    case Excerpt => p.(excerpt := Str(value))
    case Content => p.(content := Str(value))
    case Categories => p.(categories := value)
    case ImageUrl => p.(imageUrl := Str(value))
    case PublishDate => p.(publishDate := value)
  }

  /** Editing the English title drops every other language the title had,
      such as a Spanish `es` loaded by the edit page. */
  lemma TitleEditDropsOtherLanguages(p: Form, value: string, lang: string)
    requires lang != "en"
    ensures Member(Changed(p, TitleEn, value).title, lang) == Undefined
    ensures Values(Changed(p, TitleEn, value).title) == [Str(value)]
  {
    var props := Changed(p, TitleEn, value).title.props;
    assert props[0].0 == "en" && props[1..] == [];
    assert Lookup(props, lang) == Lookup(props[1..], lang) == Undefined;
  }

  /** The shape the add page's state always has: every field a string and
      the title exactly `{ en: <string> }`. */
  predicate StringForm(p: Form) {
    && p.title.Obj? && |p.title.props| == 1 && p.title.props[0].0 == "en" && p.title.props[0].1.Str?
    && p.excerpt.Str? && p.content.Str? && p.imageUrl.Str? && p.videoUrl.Str?
  }

  /** Every edit keeps a string form a string form. */
  lemma ChangedKeepsStringForm(p: Form, name: Field, value: string)
    requires StringForm(p)
    ensures StringForm(Changed(p, name, value))
  {
  }

  // ---------------------------------------------------------------------
  // The category parser
  // ---------------------------------------------------------------------

  /** A category record of the payload. */
  datatype Category = Category(id: string, name: string)

  /** The synthesised id `cat${Date.now()}${index}`. */
  function CategoryId(stamp: nat, index: nat): string {
    "cat" + NatToString(stamp) + NatToString(index)
  }

  /** `formatCategories`: the empty string gives no categories; otherwise one
      record per comma-separated segment, named by the trimmed segment.
      `Date.now()` is read once per segment: `clock(i)` is the reading taken
      for segment `i`. */
  function FormatCategories(s: string, clock: nat -> nat): seq<Category> {
    if s == [] then []
    else
      var pieces := Split(s, ',');
      seq(|pieces|, i requires 0 <= i < |pieces| => Category(CategoryId(clock(i), i), Trim(pieces[i])))
  }

  /** Names of a list of records. */
  function NamesOf(cs: seq<Category>): (r: seq<string>)
    ensures |r| == |cs|
    ensures forall i :: 0 <= i < |cs| ==> r[i] == cs[i].name
  {
    seq(|cs|, i requires 0 <= i < |cs| => cs[i].name)
  }

  /** "" parses to no categories. A non-empty string parses to one record
      per segment, in order: there is one more record than there are
      commas, the segments put back together with ',' are the input, and
      each record's name is its segment trimmed (an empty or blank segment
      gives the name ""). */
  lemma {:induction false} FormatCategoriesSpec(s: string, clock: nat -> nat)
    ensures s == [] ==> FormatCategories(s, clock) == []
    ensures s != [] ==>
              var pieces := Split(s, ',');
              var r := FormatCategories(s, clock);
              && |r| == Count(s, ',') + 1 == |pieces|
              && Join(pieces, ",") == s
              && forall i :: 0 <= i < |r| ==>
                   && r[i].name == Trim(pieces[i])
                   && Trimmed(r[i].name)
                   && ',' !in r[i].name
                   && r[i].id == CategoryId(clock(i), i)
  {
    if s != [] {
      SplitFacts(s, ',');
      var pieces := Split(s, ',');
      forall i | 0 <= i < |pieces|
        ensures Trimmed(Trim(pieces[i])) && ',' !in Trim(pieces[i])
      {
        TrimIsTrimmed(pieces[i]);
      }
    }
  }

  /** Each name with its own white space before and after it. */
  function Padded(lead: seq<string>, names: seq<string>, trail: seq<string>): (r: seq<string>)
    requires |lead| == |names| == |trail|
    ensures |r| == |names|
  {
    seq(|names|, k requires 0 <= k < |names| => lead[k] + names[k] + trail[k])
  }
  /** Names with any white space around them, joined with ",", parse back
      to the bare names in order. */
  lemma PaddedNames(lead: seq<string>, names: seq<string>, trail: seq<string>, clock: nat -> nat)
    requires |lead| == |names| == |trail| && names != [] && names != [""]
    requires forall k :: 0 <= k < |names| ==> AllSpace(lead[k]) && AllSpace(trail[k])
    requires forall k :: 0 <= k < |names| ==> Trimmed(names[k]) && ',' !in names[k]
    ensures NamesOf(FormatCategories(Join(Padded(lead, names, trail), ","), clock)) == names
  {
    var pieces := Padded(lead, names, trail);
    forall k | 0 <= k < |pieces| ensures ',' !in pieces[k] && Trim(pieces[k]) == names[k] {
      TrimPadded(lead[k], names[k], trail[k]);
      assert !IsSpace(',');
    }
    SplitJoin(pieces, ',');
    var s := Join(pieces, ",");
    if |names| == 1 {
      assert s == pieces[0];
      assert |pieces[0]| >= |names[0]| > 0;
    } else {
      assert |s| > 0;
    }
    assert NamesOf(FormatCategories(s, clock)) == names;
  }
  /** "A, B,  C " gives the names "A", "B" and "C". */
  lemma SpacedListExample(s: string, clock: nat -> nat)
    requires s == "A, B,  C "
    ensures NamesOf(FormatCategories(s, clock)) == ["A", "B", "C"]
  {
    var lead, names, trail := ["", " ", "  "], ["A", "B", "C"], ["", "", " "];
    var pieces := Padded(lead, names, trail);
    assert pieces[0] == "A" && pieces[1] == " B" && pieces[2] == "  C ";
    assert pieces == ["A", " B", "  C "];
    assert Join(["A", " B", "  C "], ",") == s;
    PaddedNames(lead, names, trail, clock);
  }

  /** An empty segment is kept: "a,,b" gives the names "a", "" and "b". */
  lemma EmptySegmentKept(a: string, b: string, clock: nat -> nat)
    requires ',' !in a && ',' !in b && Trimmed(a) && Trimmed(b)
    ensures NamesOf(FormatCategories(a + ",," + b, clock)) == [a, "", b]
  {
    var s := a + ",," + b;
    assert s == a + [','] + ("" + [','] + b);
    SplitCons(a, ',', "" + [','] + b);
    SplitCons("", ',', b);
    assert "" + [','] + b == [','] + b;
    var pieces := Split(s, ',');
    assert pieces == [a, "", b];
    var r := FormatCategories(s, clock);
    TrimOfTrimmed(a);
    TrimOfTrimmed(b);
    assert NamesOf(r) == [Trim(a), Trim(""), Trim(b)];
  }

  /** Two synthesised ids whose timestamps have the same number of digits
      are equal only for the same index and timestamp. */
  lemma CategoryIdInjective(a: nat, b: nat, i: nat, j: nat)
    requires |NatToString(a)| == |NatToString(b)|
    requires CategoryId(a, i) == CategoryId(b, j)
    ensures i == j && a == b
  {
    var x, y := "cat" + NatToString(a), "cat" + NatToString(b);
    assert NatToString(i) == (x + NatToString(i))[|x|..];
    assert NatToString(j) == (y + NatToString(j))[|y|..];
    NatToStringInjective(i, j);
    assert NatToString(a) == x[3..] && NatToString(b) == y[3..];
    NatToStringInjective(a, b);
  }

  /** Within one call the ids are pairwise distinct, as long as the clock
      readings taken during the call all have the same number of digits. */
  lemma FormatCategoriesIdsDistinct(s: string, clock: nat -> nat)
    requires forall i, j :: 0 <= i < j <= Count(s, ',') ==> |NatToString(clock(i))| == |NatToString(clock(j))|
    ensures var r := FormatCategories(s, clock);
            forall i, j :: 0 <= i < j < |r| ==> r[i].id != r[j].id
  {
    FormatCategoriesSpec(s, clock);
    var r := FormatCategories(s, clock);
    forall i, j | 0 <= i < j < |r| ensures r[i].id != r[j].id {
      if r[i].id == r[j].id {
        CategoryIdInjective(clock(i), clock(j), i, j);
      }
    }
  }

  /** A clock reading that gains a digit during the call can make two ids
      collide: 99 with index 10 and 991 with index 0 both give "cat9910". */
  lemma IdsCanCollideAcrossADigit()
    ensures CategoryId(99, 10) == CategoryId(991, 0)
  {
    assert NatToString(99) == "99" by {
      assert NatToString(9) == "9";
    }
    assert NatToString(10) == "10" by {
      assert NatToString(1) == "1" && NatToString(0) == "0";
    }
    assert NatToString(991) == "991" by {
      assert NatToString(99) == "99" by { assert NatToString(9) == "9"; }
    }
  }

  // ---------------------------------------------------------------------
  // Validation
  // ---------------------------------------------------------------------

  const TitleContentRequired := "English title and content are required."
  const DateRequired := "Publish date is required."

  /** The checks at the start of the submit handler: `Ok(Some(m))` is the
      validation error, `Ok(None)` lets the request go out. Calling `trim`
      on a title `en` or a content that is not a string throws, and the
      content is only read when the title is not blank. */
  function Validate(p: Form): Result<Option<string>> {
    var en := Member(p.title, "en");
    if !en.Str? then Fail(TypeError)
    else if Trim(en.s) == "" then Ok(Some(TitleContentRequired))
    else if !p.content.Str? then Fail(TypeError)
    else if Trim(p.content.s) == "" then Ok(Some(TitleContentRequired))
    else if p.publishDate == "" then Ok(Some(DateRequired))
    else Ok(None)
  }

  /** Validation passes exactly when the English title and the content are
      strings that are not all whitespace and a publish date is set. A blank
      title or content is reported before a missing date, whatever the
      date; validation throws only on a title `en` or content that is not a
      string. */
  lemma ValidateSpec(p: Form)
    ensures var en := Member(p.title, "en");
            && (Validate(p).Fail? <==> !en.Str? || (!AllSpace(en.s) && !p.content.Str?))
            && (Validate(p) == Ok(Some(TitleContentRequired)) <==>
                  en.Str? && (AllSpace(en.s) || (p.content.Str? && AllSpace(p.content.s))))
            && (Validate(p) == Ok(Some(DateRequired)) <==>
                  en.Str? && !AllSpace(en.s) && p.content.Str? && !AllSpace(p.content.s) && p.publishDate == "")
            && (Validate(p) == Ok(None) <==>
                  en.Str? && !AllSpace(en.s) && p.content.Str? && !AllSpace(p.content.s) && p.publishDate != "")
  {
    var en := Member(p.title, "en");
    if en.Str? { TrimEmptyIff(en.s); }
    if p.content.Str? { TrimEmptyIff(p.content.s); }
  }

  /** On the add page's string form validation never throws. */
  lemma StringFormValidates(p: Form)
    requires StringForm(p)
    ensures Validate(p).Ok?
  {
    assert Member(p.title, "en") == p.title.props[0].1;
  }

  // ---------------------------------------------------------------------
  // The request
  // ---------------------------------------------------------------------

  /** The JSON body of the save request. */
  datatype Payload = Payload(
    title: Json,
    excerpt: Json,
    content: Json,
    categories: seq<Category>,
    imageUrl: Json,
    publishDate: string,
    videoUrl: Json)

  /** `{ ...post, categories: formatCategories(post.categories), videoUrl:
      post.videoUrl || "" }` */
  function MakePayload(p: Form, clock: nat -> nat): Payload {
    Payload(p.title, p.excerpt, p.content, FormatCategories(p.categories, clock),
            p.imageUrl, p.publishDate, Or(p.videoUrl, Str("")))
  }

  /** The payload carries the form's title, excerpt, content, image and date
      as they are (the title and content are not trimmed), the parsed
      categories, and a video URL that is the form's when truthy and ""
      otherwise; every input's text is reproduced except the categories. */
  lemma PayloadSpec(p: Form, clock: nat -> nat)
    ensures var q := MakePayload(p, clock);
            && q.title == p.title && q.content == p.content
            && q.excerpt == p.excerpt && q.imageUrl == p.imageUrl && q.publishDate == p.publishDate
            && q.categories == FormatCategories(p.categories, clock)
            && (Truthy(p.videoUrl) ==> q.videoUrl == p.videoUrl)
            && (!Truthy(p.videoUrl) ==> q.videoUrl == Str(""))
            && Truthy(q.videoUrl) == Truthy(p.videoUrl)
  {
  }

  /** How the save request ends: accepted, answered with an error status and
      this JSON body, or rejected (network failure, or a body that is not
      JSON) with this message. */
  datatype Outcome = Saved | Refused(body: Json) | Failed(message: string)

  /** The message of the error the `catch` block receives: `new
      Error(err.error || fallback)` for a refusal, where reading `.error` of
      a null body throws a TypeError; the rejection message otherwise. */
  function ErrorMessage(o: Outcome, fallback: string, typeErrorMessage: string): (m: string)
    requires !o.Saved?
    ensures o.Refused? && !Nullish(o.body) && !Truthy(Member(o.body, "error")) ==> m == fallback
    ensures o.Refused? && Member(o.body, "error").Str? && Member(o.body, "error").s != "" ==> m == Member(o.body, "error").s
  {
    match o
    case Refused(body) =>
      if Nullish(body) then typeErrorMessage else ToStr(Or(Member(body, "error"), Str(fallback)))
    case Failed(message) => message
  }
}
