/** The server's post schema (server/models/post.js): the stored post as a
    datatype, the candidate document a create request builds, and the
    `required` checks that decide whether it can be saved. */
module PostModel {
  import opened Js
  import PostForm

  /** A stored date (`Date` at millisecond precision). */
  datatype Date = Date(epochMillis: int)

  /** `title: { en: String (required), es: String }` */
  datatype Title = Title(en: string, es: Option<string>)

  /** `author: { id, name, email }`, each an optional string. */
  datatype Author = Author(id: Option<string>, name: Option<string>, email: Option<string>)

  const NoAuthor := Author(None, None, None)

  /** An entry of `categories: [{ id, name }]`. */
  datatype CategoryRef = CategoryRef(id: Option<string>, name: Option<string>)

  /** A saved post; `createdAt` and `updatedAt` come from `timestamps`. */
  datatype Post = Post(
    title: Title,
    excerpt: Option<string>,
    content: string,
    author: Author,
    publishDate: Date,
    categories: seq<CategoryRef>,
    imageUrl: string,
    videoUrl: Option<string>,
    createdAt: Date,
    updatedAt: Date)

  /** The document before validation: every path may be missing. */
  datatype Candidate = Candidate(
    titleEn: Option<string>,
    titleEs: Option<string>,
    excerpt: Option<string>,
    content: Option<string>,
    author: Author,
    publishDate: Option<Date>,
    categories: seq<CategoryRef>,
    imageUrl: Option<string>,
    videoUrl: Option<string>)

  /** A required string passes when it is present and not empty. */
  predicate Present(v: Option<string>) {
    v.Some? && v.value != ""
  }

  /** The four required paths: `title.en`, `content`, `publishDate` and
      `imageUrl`. */
  predicate Persistable(c: Candidate) {
    Present(c.titleEn) && Present(c.content) && c.publishDate.Some? && Present(c.imageUrl)
  }

  /** The paths whose `required` check fails, in schema order. */
  function MissingPaths(c: Candidate): seq<string> {
    (if Present(c.titleEn) then [] else ["title.en"])
    + (if Present(c.content) then [] else ["content"])
    + (if c.publishDate.Some? then [] else ["publishDate"])
    + (if Present(c.imageUrl) then [] else ["imageUrl"])
  }

  /** A candidate can be saved exactly when no required path fails; each
      failing path is reported once, and the optional paths (`title.es`,
      `excerpt`, `author`, `categories`, `videoUrl`) never block a save. */
  lemma MissingPathsSpec(c: Candidate)
    ensures Persistable(c) <==> MissingPaths(c) == []
    ensures "title.en" in MissingPaths(c) <==> !Present(c.titleEn)
    ensures "content" in MissingPaths(c) <==> !Present(c.content)
    ensures "publishDate" in MissingPaths(c) <==> c.publishDate.None?
    ensures "imageUrl" in MissingPaths(c) <==> !Present(c.imageUrl)
    ensures |MissingPaths(c)| <= 4
    ensures forall es, ex, a, cs, v ::
              MissingPaths(c.(titleEs := es, excerpt := ex, author := a, categories := cs, videoUrl := v)) == MissingPaths(c)
  {
  }

  /** `Post.create`: a persistable candidate becomes a post stamped with
      `now`; anything else is refused. */
  function Create(c: Candidate, now: Date): Option<Post> {
    if Persistable(c) then
      Some(Post(Title(c.titleEn.value, c.titleEs), c.excerpt, c.content.value, c.author,
                c.publishDate.value, c.categories, c.imageUrl.value, c.videoUrl, now, now))
    else None
  }

  /** A stored post has its required strings non-empty. */
  predicate WellFormed(p: Post) {
    p.title.en != "" && p.content != "" && p.imageUrl != ""
  }

  /** A post read back as a candidate. */
  function AsCandidate(p: Post): Candidate {
    Candidate(Some(p.title.en), p.title.es, p.excerpt, Some(p.content), p.author,
              Some(p.publishDate), p.categories, Some(p.imageUrl), p.videoUrl)
  }

  /** Creating succeeds exactly for persistable candidates; the post it
      makes is well formed, reads back as the same candidate, and has both
      timestamps equal to `now`. Every well-formed post is persistable
      again as it stands. */
  lemma CreateSpec(c: Candidate, now: Date, p: Post)
    ensures Create(c, now).Some? <==> Persistable(c)
    ensures Create(c, now).Some? ==>
              && WellFormed(Create(c, now).value)
              && AsCandidate(Create(c, now).value) == c
              && Create(c, now).value.createdAt == now == Create(c, now).value.updatedAt
    ensures WellFormed(p) ==> Persistable(AsCandidate(p)) && Create(AsCandidate(p), now) == Some(p.(createdAt := now, updatedAt := now))
  {
  }

  // ---------------------------------------------------------------------
  // The client's payload as a candidate
  // ---------------------------------------------------------------------

  /** A string value; any other value is taken as missing. */
  function StrOf(v: Json): Option<string> {
    if v.Str? then Some(v.s) else None
  }

  /** The candidate built from the add and edit pages' request body;
      `parseDate` is the date cast, `None` for text that is no date. */
  function FromPayload(q: PostForm.Payload, parseDate: string -> Option<Date>): Candidate {
    Candidate(StrOf(Member(q.title, "en")), StrOf(Member(q.title, "es")),
              StrOf(q.excerpt), StrOf(q.content), NoAuthor,
              if q.publishDate == "" then None else parseDate(q.publishDate),
              seq(|q.categories|, i requires 0 <= i < |q.categories| =>
                    CategoryRef(Some(q.categories[i].id), Some(q.categories[i].name))),
              StrOf(q.imageUrl), StrOf(q.videoUrl))
  }

  /** The pages' own checks cover the title, the content and the date but
      not the image: once a form passes them and its date parses, the only
      path the server can still refuse is `imageUrl`. */
  lemma ValidatedFormMissesOnlyImage(f: PostForm.Form, clock: nat -> nat, parseDate: string -> Option<Date>)
    requires PostForm.Validate(f) == Ok(None)
    requires parseDate(f.publishDate).Some?
    ensures var c := FromPayload(PostForm.MakePayload(f, clock), parseDate);
            MissingPaths(c) == (if Present(StrOf(f.imageUrl)) then [] else ["imageUrl"])
  {
    PostForm.ValidateSpec(f);
  }

  /** A valid-looking form with no image passes the page's checks and is
      still refused by the server. */
  lemma NoImageRefused(clock: nat -> nat, parseDate: string -> Option<Date>)
    requires parseDate("2024-05-01").Some?
    ensures var f := PostForm.Blank.(title := Obj([("en", Str("Hello"))]), content := Str("Body"),
                                      publishDate := "2024-05-01");
            && PostForm.Validate(f) == Ok(None)
            && MissingPaths(FromPayload(PostForm.MakePayload(f, clock), parseDate)) == ["imageUrl"]
  {
    var f := PostForm.Blank.(title := Obj([("en", Str("Hello"))]), content := Str("Body"),
                             publishDate := "2024-05-01");
    assert !IsSpace('H') && !IsSpace('B');
    assert Trim("Hello") == "Hello" by { TrimOfTrimmed("Hello"); }
    assert Trim("Body") == "Body" by { TrimOfTrimmed("Body"); }
    ValidatedFormMissesOnlyImage(f, clock, parseDate);
  }
}
