# myblog_app: the client's rules and the post schema in Dafny

myblog_app is a small blog. A React client lists, filters, pages and shows
posts, and has an admin area to add, edit and delete them. An Express and
Mongoose server stores the posts. This project models the logic in the
client's pages and components and the server's post schema. It then proves
what that logic does to the loosely typed JSON it receives and to the page
state it keeps.

The modules follow the source files:

| module | file | the code's own form |
|---|---|---|
| `Js` | (shared) | JavaScript values and the built-ins the pages use: truthiness, `\|\|`, `??`, `?.`, `String()`, `trim`, `split`, `join`, `slice`, `includes`, `toLowerCase` |
| `Home` | pages/Home.js | functions for the card normaliser, the category set, the filter and the pages; class `HomePage` for the page cursor and its handlers |
| `AdminDashboard` | pages/AdminDashboard.js | functions for the admin normaliser; class `Dashboard` for loading and for the optimistic delete with rollback |
| `PostForm` | pages/AddPost.js, pages/EditPost.js | the form logic both pages share: `handleChange`'s updater, `formatCategories`, the required-field checks, the payload, the error message |
| `AddPost` | pages/AddPost.js | class `AddPostPage` with `handleChange` and `handleSubmit` |
| `EditPost` | pages/EditPost.js | the fetched-post-to-form mapping and its round trip; class `EditPostPage` |
| `BlogDetails` | pages/BlogDetails.js | the detail normaliser and share links; classes `DetailsPage` and `CommentsSection` |
| `Newsletter` | components/NewsletterSignup.jsx | the e-mail pattern as a string predicate; class `SignupForm` |
| `Storage` | (browser) | class `LocalStorage`, a map from string to string |
| `Session` | pages/Login.js, components/Navbar.js | the admin flag; classes `LoginPage` and `NavbarState` |
| `PostModel` | server/models/post.js | the schema as datatypes and the `required` check as a predicate |

Each raw payload is a `Js.Json` value: undefined, null, a boolean, a number,
a string, an array, or an object as an ordered list of key/value pairs. When
an expression in the source would throw a TypeError, the model returns
`Fail(TypeError)`. For example, `p.categories.map` throws on a post without
categories. Everything outside the program becomes a parameter:
- the clock readings (`Date.now()`);
- locale date formatting;
- `encodeURIComponent`;
- `JSON.parse` and `JSON.stringify`;
- the engine's TypeError text;
- how each request ends.

Each method models one handler run to completion. The model follows the
code where it departs from the app's stated design:
- The three normalisers read ids and titles differently (`IdRulesDiffer`).
  The list page takes `_id` only. The admin list takes `id ?? _id` and drops
  a post whose result is falsy. The detail page takes `id || _id`.
- On the list page and the detail page, a title without `en` is the title
  value itself. It is not the title's first language. So on the list page
  an object title makes the search filter throw (`FilterSpec`).
- `formatCategories` keeps empty segments as categories named ""
  (`EmptySegmentKept`).
- Within one call its ids are guaranteed distinct only while the clock
  readings have the same number of digits. Across a digit change two ids
  can collide (`IdsCanCollideAcrossADigit`).
- The add and edit pages do not check `imageUrl`, which the schema requires.
  So a form can pass the pages' checks and still be refused by the server
  (`NoImageRefused`).

## Model

| member | source | states |
|---|---|---|
| Js.SetProp | blog-frontend/src/pages/AdminDashboard.js:34-40 | an object spread with one key overwritten: that key reads the new value and every other key reads as before |
| Js.NatToStringInjective | blog-frontend/src/pages/AddPost.js:30 | distinct numbers print as distinct decimal strings |
| Js.TrimEmptyIff | blog-frontend/src/pages/AddPost.js:38 | `!s.trim()` holds exactly when `s` is all white space |
| Js.TrimIsTrimmed | blog-frontend/src/pages/AddPost.js:30 | `trim` leaves no white space at either end and adds no character |
| Js.TrimOfTrimmed | blog-frontend/src/pages/AddPost.js:30 | `trim` does nothing to a string that neither starts nor ends with white space |
| Js.TrimPadded | blog-frontend/src/pages/AddPost.js:30 | white space on both sides of a trimmed string is exactly what `trim` removes |
| Js.TrimSpacePrefix | blog-frontend/src/pages/EditPost.js:59 | the space that `", "` leaves before a trimmed name is removed by `trim` |
| Js.Lower | blog-frontend/src/pages/Home.js:76 | `toLowerCase` keeps the length, leaves no capital letter, and keeps every character that is not a capital |
| Js.LowerIdempotent | blog-frontend/src/pages/Home.js:76 | lower-casing an already lower-cased term changes nothing |
| Js.IncludesIff | blog-frontend/src/pages/Home.js:76 | `includes(t)` holds exactly when `t` occurs at some position |
| Js.IncludesEmpty | blog-frontend/src/pages/Home.js:76 | every string includes the empty search term |
| Js.SplitFacts | blog-frontend/src/pages/AddPost.js:30 | `split(",")` gives one more piece than there are commas, no piece holds a comma, and joining the pieces gives back the input |
| Js.SplitJoin | blog-frontend/src/pages/AddPost.js:30 | comma-free pieces joined with "," split back into the same pieces |
| Js.SplitJoinComma | blog-frontend/src/pages/EditPost.js:36 | names joined with ", " split into the first name and every later name with one leading space |
| Js.BeforeFacts | blog-frontend/src/pages/EditPost.js:38 | `split("T")[0]` is the prefix before the first "T", or the whole string when there is none |
| Js.CountZeroIff | blog-frontend/src/components/NewsletterSignup.jsx:13 | a character counted zero times does not occur |
| Js.NamesFacts | blog-frontend/src/pages/Home.js:42 | `items.map(c => c.name)` throws exactly when an entry is null or undefined; otherwise it keeps the length and gives each entry's `name` |
| Home.LooseTitle | blog-frontend/src/pages/Home.js:39 | the card title is `title.en` when truthy, else the raw title when truthy, else "Untitled", and is always truthy |
| Home.NormalizeSpec | blog-frontend/src/pages/Home.js:37-43 | a card takes its id from `_id` only; excerpt and image are the post's when truthy and "" otherwise; missing categories give [] and an array gives its entries' names; it throws exactly for a null post, non-array non-null categories, or a null category entry |
| Home.NormalizeAllFacts | blog-frontend/src/pages/Home.js:37 | the card list fails exactly when some post fails; otherwise it has one card per post in order |
| Home.FirstOccurrencesMembers | blog-frontend/src/pages/Home.js:48-50 | the first-occurrence list holds exactly the values of its input |
| Home.SetInsertAllIsFirstOccurrences | blog-frontend/src/pages/Home.js:48-50 | inserting values into a `Set` built from a prefix gives the `Set` of the whole list |
| Home.FirstOccurrencesDistinct | blog-frontend/src/pages/Home.js:48-50 | no primitive value appears twice in the first-occurrence list |
| Home.FirstOccurrencesSubseq | blog-frontend/src/pages/Home.js:48-50 | the first-occurrence list is an order-preserving subsequence of its input |
| Home.CategoryNamesFacts | blog-frontend/src/pages/Home.js:49 | collecting the names throws exactly when some post is null, has no `categories` array, or has a null entry in it; otherwise it gives every post's category names, post after post, in order |
| Home.UniqueSpec | blog-frontend/src/pages/Home.js:48-50 | `[...new Set(names)]` holds exactly the category names of the posts, in first-occurrence order, with no string or other primitive twice |
| Home.FilterSpec | blog-frontend/src/pages/Home.js:74-81 | filtering throws exactly when some title is not a string; otherwise it is an order-preserving subsequence that keeps a card exactly when its lowercased title includes the lowercased term and the selection is "All" or among its categories, and it keeps every copy of a kept card and no copy of a dropped one |
| Home.FilterKeepsAll | blog-frontend/src/pages/Home.js:74-81 | an empty search with "All" keeps every card |
| Home.NoMatchNoPages | blog-frontend/src/pages/Home.js:74-83 | a term no title contains leaves no card, and the filtered list then has no page |
| Home.TotalPages | blog-frontend/src/pages/Home.js:83 | the page count is the ceiling of the length over 6, and 0 exactly for no cards |
| Home.PageSpec | blog-frontend/src/pages/Home.js:85-88 | page p holds at most 6 cards, the run from (p-1)*6, and is empty beyond the last page |
| Home.PagesPrefix | blog-frontend/src/pages/Home.js:85-88 | pages 1 to k put together are the first 6k cards |
| Home.PagesCoverAll | blog-frontend/src/pages/Home.js:85-88 | pages 1 to `totalPages` put together are exactly the filtered list |
| Home.NextQuote | blog-frontend/src/pages/Home.js:64 | the quote step stays within the quotes and wraps from the last to the first |
| Home.HomePage.constructor | blog-frontend/src/pages/Home.js:9-18 | the page starts loading, on page 1, with no posts and no error |
| Home.HomePage.CursorInRange | blog-frontend/src/pages/Home.js:148-171 | while the pagination shows, the cursor is a real page from 1 to `totalPages` and that page is not empty |
| Home.HomePage.Load | blog-frontend/src/pages/Home.js:29-58 | the fetch sets the cards and category names or an error, stops loading, and leaves the cursor on page 1 |
| Home.HomePage.SetSearchTerm | blog-frontend/src/pages/Home.js:110-113 | a new search term resets the cursor to 1 |
| Home.HomePage.SetSelectedCategory | blog-frontend/src/pages/Home.js:119-122 | a new category resets the cursor to 1 |
| Home.HomePage.ClickPrev | blog-frontend/src/pages/Home.js:150-155 | Prev moves back one page and does nothing on page 1, where it is disabled |
| Home.HomePage.ClickNext | blog-frontend/src/pages/Home.js:167-172 | Next moves on one page and does nothing on the last page, where it is disabled |
| Home.HomePage.ClickPage | blog-frontend/src/pages/Home.js:157-165 | a numbered button moves to its page, and the cursor stays in range |
| Home.HomePage.TickQuote | blog-frontend/src/pages/Home.js:63-65 | the timer advances the quote index by the quote step |
| AdminDashboard.WithIdSubseq | blog-frontend/src/pages/AdminDashboard.js:42 | the posts with a usable id are an order-preserving subsequence of the input |
| AdminDashboard.HasIdIsObject | blog-frontend/src/pages/AdminDashboard.js:23-24 | only an object can have a truthy `id ?? _id` |
| AdminDashboard.FormatPostsFails | blog-frontend/src/pages/AdminDashboard.js:21-42 | normalising throws exactly when some post is null or undefined |
| AdminDashboard.FormatPostsSpec | blog-frontend/src/pages/AdminDashboard.js:21-42 | the admin list is the posts with a usable id, in order, each turned into its record, and is no longer than the input |
| AdminDashboard.RecordSpec | blog-frontend/src/pages/AdminDashboard.js:34-40 | a record's id is `String(id ?? _id)`; its title, author and date are resolved, a falsy date becomes null, and every other field is the post's own |
| AdminDashboard.FalsyIdDropsPost | blog-frontend/src/pages/AdminDashboard.js:23-24 | a present but falsy `id` does not fall back to `_id`, and the post is dropped |
| AdminDashboard.RecordIdNonEmpty | blog-frontend/src/pages/AdminDashboard.js:36 | a truthy raw id that is not an array prints as a non-empty string |
| AdminDashboard.EmptyArrayIdGivesEmptyId | blog-frontend/src/pages/AdminDashboard.js:23-36 | the raw id `[]` is kept as truthy but prints as the empty id |
| AdminDashboard.AdminTitleSpec | blog-frontend/src/pages/AdminDashboard.js:27-32 | an object title is `en` when truthy, else its first value when truthy, else "Untitled"; any other title is `String(title \|\| "Untitled")` |
| AdminDashboard.TitleExamples | blog-frontend/src/pages/AdminDashboard.js:27-32 | `{en:"Hello", es:"Hola"}` shows "Hello", `{es:"Hola"}` shows "Hola", and no title shows "Untitled" |
| AdminDashboard.AdminAuthorSpec | blog-frontend/src/pages/AdminDashboard.js:38 | the author is `author.name` when truthy, else the author value when truthy, else "Unknown" |
| AdminDashboard.Published | blog-frontend/src/pages/AdminDashboard.js:79 | the Published cell is '-' exactly when the record's date is falsy, and otherwise formats that date |
| AdminDashboard.PublishedDashIffNoDate | blog-frontend/src/pages/AdminDashboard.js:39 | a record shows '-' exactly when the post's own date is falsy |
| AdminDashboard.WithoutIdSpec | blog-frontend/src/pages/AdminDashboard.js:60 | the optimistic list drops every row with that id and keeps all other rows in order, each as many times as it occurs |
| AdminDashboard.Dashboard.constructor | blog-frontend/src/pages/AdminDashboard.js:8-9 | the page starts loading with no posts and no error |
| AdminDashboard.Dashboard.Load | blog-frontend/src/pages/AdminDashboard.js:13-50 | the fetch sets the normalised list or an error message, and stops loading |
| AdminDashboard.Dashboard.BeginDelete | blog-frontend/src/pages/AdminDashboard.js:57-60 | a declined confirmation changes nothing; a confirmed one keeps the old list as the snapshot and removes the id |
| AdminDashboard.Dashboard.SettleDelete | blog-frontend/src/pages/AdminDashboard.js:62-70 | success keeps the reduced list; failure restores the snapshot exactly and sets the error message |
| AdminDashboard.Dashboard.HandleDelete | blog-frontend/src/pages/AdminDashboard.js:56-71 | declined: nothing changes; deleted: the rows with that id are gone; failed: the list is the pre-delete list, same members in the same order, and an error is set |
| PostForm.Changed | blog-frontend/src/pages/AddPost.js:21-25 | the edited input shows the new value, every other input and the video URL are unchanged, and "titleEn" replaces the whole title with `{en: value}` |
| PostForm.TitleEditDropsOtherLanguages | blog-frontend/src/pages/EditPost.js:53 | after a title edit every other language, such as `es`, is gone |
| PostForm.ChangedKeepsStringForm | blog-frontend/src/pages/AddPost.js:7-25 | edits keep the add page's all-string form |
| PostForm.FormatCategoriesSpec | blog-frontend/src/pages/AddPost.js:28-31 | "" gives no categories; a non-empty string gives one record per comma-separated segment in order, commas + 1 of them, each named by its trimmed segment and given `cat${clock}${index}` |
| PostForm.PaddedNames | blog-frontend/src/pages/AddPost.js:30 | names with any white space around them, joined with ",", parse back to the bare names in order |
| PostForm.SpacedListExample | blog-frontend/src/pages/AddPost.js:30 | "A, B,  C " parses to the names "A", "B" and "C" |
| PostForm.EmptySegmentKept | blog-frontend/src/pages/AddPost.js:30 | an empty segment between two commas becomes a category named "" |
| PostForm.CategoryIdInjective | blog-frontend/src/pages/AddPost.js:30 | two ids from timestamps of the same digit count are equal only for the same timestamp and index |
| PostForm.FormatCategoriesIdsDistinct | blog-frontend/src/pages/AddPost.js:30 | the ids of one call are pairwise distinct while the clock readings keep their digit count |
| PostForm.IdsCanCollideAcrossADigit | blog-frontend/src/pages/AddPost.js:30 | timestamp 99 with index 10 and timestamp 991 with index 0 both give "cat9910" |
| PostForm.ValidateSpec | blog-frontend/src/pages/AddPost.js:38-45 | the checks throw exactly for a non-string English title or content; a blank title or content gives the title/content message before the date is looked at; an empty date gives the date message; otherwise the form passes |
| PostForm.StringFormValidates | blog-frontend/src/pages/AddPost.js:38 | on the add page's all-string form the checks never throw |
| PostForm.PayloadSpec | blog-frontend/src/pages/AddPost.js:49-53 | the payload is the form with the categories parsed and a falsy video URL sent as ""; title and content are sent untrimmed |
| PostForm.ErrorMessage | blog-frontend/src/pages/AddPost.js:62-65 | a refused save reports the body's `error` when it is a non-empty string and the fallback when it is falsy |
| AddPost.AddPostPage.constructor | blog-frontend/src/pages/AddPost.js:7-18 | the blank form, not loading, no error |
| AddPost.AddPostPage.HandleChange | blog-frontend/src/pages/AddPost.js:21-25 | the form becomes the updater's result and keeps its all-string shape |
| AddPost.AddPostPage.HandleSubmit | blog-frontend/src/pages/AddPost.js:34-73 | a failed check sets its message and sends nothing; a passing form sends its payload and then either moves to "/admin" or shows "AddPost Error: " with the message; no request is made exactly when a check message is shown |
| EditPost.LoadFormFails | blog-frontend/src/pages/EditPost.js:32-40 | loading throws exactly on a null body, truthy non-array categories or a null category entry, and a truthy non-string date |
| EditPost.LoadFormSpec | blog-frontend/src/pages/EditPost.js:32-40 | the form keeps a truthy title and otherwise uses `{en:""}`; the other texts are the post's when truthy and "" otherwise; falsy categories give "" and an array gives its entries' names joined with ", "; the date is cut before its first "T" |
| EditPost.JoinStrings | blog-frontend/src/pages/EditPost.js:36 | joining string values joins the strings |
| EditPost.IsoDateCut | blog-frontend/src/pages/EditPost.js:38 | an ISO timestamp loads as its calendar day |
| EditPost.CategoriesRoundTrip | blog-frontend/src/pages/EditPost.js:57-60 | comma-free trimmed names joined with ", " parse back to the same names in order, and no names give none |
| EditPost.JoinNonEmpty | blog-frontend/src/pages/EditPost.js:36 | the joined text is empty only for no names or the single empty name |
| EditPost.SingleEmptyNameIsLost | blog-frontend/src/pages/EditPost.js:57-60 | the one list the round trip loses is the single empty name, which saves back as no category |
| EditPost.SaveAfterLoad | blog-frontend/src/pages/EditPost.js:77-81 | loading a post and saving it unchanged sends the same category names in the same order |
| EditPost.NotFoundMessage | blog-frontend/src/pages/EditPost.js:26-28 | an error status reports the body's `message` when it is a non-empty string and "Post not found" when it is falsy |
| EditPost.EditPostPage.constructor | blog-frontend/src/pages/EditPost.js:8-20 | the blank form, loading, not saving, no error |
| EditPost.EditPostPage.Load | blog-frontend/src/pages/EditPost.js:22-46 | the fetch fills the form or sets "Failed to fetch post: " with the reason, stops loading, and hides the form on failure |
| EditPost.EditPostPage.HandleChange | blog-frontend/src/pages/EditPost.js:51-55 | the form becomes the updater's result |
| EditPost.EditPostPage.HandleUpdate | blog-frontend/src/pages/EditPost.js:62-101 | as the add page's submit with "EditPost Error: "; any check message or failed save leaves the page showing the error in place of the form |
| BlogDetails.CategoryLabelsSpec | blog-frontend/src/pages/BlogDetails.js:144-146 | the labels throw exactly on a null entry; otherwise they keep length and order, with string entries as they are and others as their `name` |
| BlogDetails.NormalizeSpec | blog-frontend/src/pages/BlogDetails.js:140-152 | the id is `id \|\| _id`; the title is the list page's `title?.en \|\| title \|\| "Untitled"`; content and image default to ""; an array of categories gives its labels and anything else gives []; the author is `author.name` when truthy, else "Unknown"; a missing date shows as "" |
| BlogDetails.NormalizeFails | blog-frontend/src/pages/BlogDetails.js:140-152 | normalising throws exactly on a null body or a category array with a null entry |
| BlogDetails.StringAuthorIsUnknown | blog-frontend/src/pages/BlogDetails.js:151 | a plain-string author shows as "Unknown" |
| BlogDetails.IdRulesDiffer | blog-frontend/src/pages/BlogDetails.js:141 | the post `{id:"", _id:"42"}` is "42" on the detail page, "42" on the list page, and dropped from the admin list |
| BlogDetails.DetailsPage.constructor | blog-frontend/src/pages/BlogDetails.js:115-117 | no post, loading, no error |
| BlogDetails.DetailsPage.Start | blog-frontend/src/pages/BlogDetails.js:120-125 | a missing or empty route id sets "Invalid post ID", stops loading and fetches nothing; any other id is fetched |
| BlogDetails.DetailsPage.Settle | blog-frontend/src/pages/BlogDetails.js:129-157 | the response sets the normalised post or the error message, an aborted fetch sets no error, and loading stops |
| BlogDetails.ShareLinksSpec | blog-frontend/src/pages/BlogDetails.js:165-176 | no post gives no links; a post gives exactly Facebook, Twitter, WhatsApp and LinkedIn, each ending with the encoded page URL |
| BlogDetails.CommentKeySpec | blog-frontend/src/pages/BlogDetails.js:37 | different string ids have different comment keys, and no comment key is the admin flag's key |
| BlogDetails.IdlessPostsShareKey | blog-frontend/src/pages/BlogDetails.js:249 | every post without an id stores its comments under "comments_undefined" |
| BlogDetails.CommentsSection.constructor | blog-frontend/src/pages/BlogDetails.js:31-34 | no comments, empty name and text |
| BlogDetails.CommentsSection.SetName | blog-frontend/src/pages/BlogDetails.js:71 | the name input holds the new value |
| BlogDetails.CommentsSection.SetText | blog-frontend/src/pages/BlogDetails.js:78 | the text input holds the new value |
| BlogDetails.CommentsSection.Restore | blog-frontend/src/pages/BlogDetails.js:36-39 | a truthy saved string under the post's key replaces the list with its parse; otherwise the list is kept |
| BlogDetails.CommentsSection.Persist | blog-frontend/src/pages/BlogDetails.js:41-43 | the list is written under the post's key, which leaves the admin flag as it was |
| BlogDetails.CommentsSection.AddComment | blog-frontend/src/pages/BlogDetails.js:45-59 | a blank name or text changes nothing; otherwise the untrimmed comment is put in front of the old list and both inputs are cleared |
| Newsletter.MatchIsValid | blog-frontend/src/components/NewsletterSignup.jsx:13 | a match of the pattern passes the direct check |
| Newsletter.ValidIsMatch | blog-frontend/src/components/NewsletterSignup.jsx:13 | a passing direct check gives a match of the pattern |
| Newsletter.ValidIffRegex | blog-frontend/src/components/NewsletterSignup.jsx:13 | the pattern matches exactly the strings with no white space, one '@' after a non-empty local part, and a '.' in the domain that is neither its first nor its last character |
| Newsletter.WhiteSpaceRejected | blog-frontend/src/components/NewsletterSignup.jsx:13 | an address with any white space is rejected |
| Newsletter.AtCountRejected | blog-frontend/src/components/NewsletterSignup.jsx:13 | an address with no '@' or several is rejected |
| Newsletter.Examples | blog-frontend/src/components/NewsletterSignup.jsx:13 | "a@b.c" and "first.last@mail.example.org" match; "a@.c", "a@b." and "@b.c" do not |
| Newsletter.SignupForm.constructor | blog-frontend/src/components/NewsletterSignup.jsx:6-7 | empty address and status |
| Newsletter.SignupForm.SetEmail | blog-frontend/src/components/NewsletterSignup.jsx:36 | the input holds the new value and the status is kept |
| Newsletter.SignupForm.HandleSubmit | blog-frontend/src/components/NewsletterSignup.jsx:9-25 | a rejected address sets "Please enter a valid email address." and is kept; an accepted one sets "Thank you for subscribing!" and is cleared |
| Storage.LocalStorage.GetItem | blog-frontend/src/components/Navbar.js:13 | `getItem` gives the stored string, or null exactly for a missing key |
| Storage.LocalStorage.SetItem | blog-frontend/src/pages/Login.js:12 | `setItem` maps the key to the value and changes nothing else |
| Storage.LocalStorage.RemoveItem | blog-frontend/src/components/Navbar.js:40 | `removeItem` drops the key and changes nothing else |
| Session.LoginSpec | blog-frontend/src/pages/Login.js:11-15 | "admin123" makes the user an admin; any other password leaves the storage as it was; other keys never change |
| Session.LoginIdempotent | blog-frontend/src/pages/Login.js:12 | logging in twice leaves the storage as logging in once |
| Session.NearMissesRejected | blog-frontend/src/pages/Login.js:11 | a case variant or a padded password is refused |
| Session.LogoutSpec | blog-frontend/src/components/Navbar.js:39-42 | after a logout the user is not an admin, the flag's key is gone, and other keys are unchanged |
| Session.LogoutUndoesLogin | blog-frontend/src/components/Navbar.js:40 | a logout after a login leaves the storage as a logout alone, and logging out twice equals once |
| Session.OnlyExactTrueIsAdmin | blog-frontend/src/components/Navbar.js:13 | only the stored string "true" counts as admin: "True" and "1" do not |
| Session.LoginPage.constructor | blog-frontend/src/pages/Login.js:6 | the password starts empty |
| Session.LoginPage.SetPassword | blog-frontend/src/pages/Login.js:29 | the input holds the new value |
| Session.LoginPage.HandleLogin | blog-frontend/src/pages/Login.js:8-17 | the right password stores the flag and moves to "/admin"; any other alerts "Incorrect password" and leaves the storage unchanged |
| Session.NavbarState.constructor | blog-frontend/src/components/Navbar.js:16 | the dropdown starts closed |
| Session.NavbarState.Toggle | blog-frontend/src/components/Navbar.js:45-47 | the icon flips the dropdown |
| Session.NavbarState.OnDocumentClick | blog-frontend/src/components/Navbar.js:26-29 | a click outside the mounted profile element closes the dropdown; any other click leaves it |
| Session.NavbarState.HandleLogout | blog-frontend/src/components/Navbar.js:39-42 | the flag is removed, the user is no admin, the Logout item (shown only to an admin, Navbar.js:141) is no longer offered, and the page moves to "/" |
| Session.ToggleTwice | blog-frontend/src/components/Navbar.js:45-47 | toggling twice gives back the state before |
| PostModel.MissingPathsSpec | server/models/post.js:5-33 | a candidate can be saved exactly when `title.en`, `content`, `publishDate` and `imageUrl` are all present; each missing path is reported once and the optional paths never block a save |
| PostModel.CreateSpec | server/models/post.js:3-35 | creating succeeds exactly for a persistable candidate; the post keeps every field, has non-empty required strings and both timestamps set to now |
| PostModel.ValidatedFormMissesOnlyImage | server/models/post.js:32 | a form that passes the pages' checks and has a parseable date can only be refused for `imageUrl` |
| PostModel.NoImageRefused | server/models/post.js:32 | a form with title, content and date but no image passes the pages' checks and is refused by the schema |

## Left out

- Network and async: every `fetch`, `res.json()`, the `AbortController` and the React effect scheduling. Each request's end is a datatype parameter, and each handler runs to completion with no other update in between.
- Concurrent deletes: `HandleDelete` assumes no other change to the list while the request is pending. `BeginDelete` and `SettleDelete` model the two halves separately. Interleavings with other handlers are not modelled.
- `JSON.parse` and `JSON.stringify` of the stored comments are parameters. Their round trip is not modelled. The `parse` parameter of `CommentsSection.Restore` always gives a list of comments. So the model does not capture that `JSON.parse` throws on a corrupt stored string, or that it can give a value that is not an array.
- `Date.now()` is a parameter. `toLocaleString`, `toLocaleDateString` and the admin table's `dayjs` format are uninterpreted: a `Json -> string` parameter, or a "formatted" cell that only records its source date.
- `encodeURIComponent` is a parameter of the share links.
- Js.Lower: lower-cases ASCII letters only. Unicode case mapping is not modelled.
- Js.ToStr: numbers are integers only, so floating point, `NaN` and number formatting are left out. Objects print as "[object Object]"; a custom `toString` is not modelled.
- AdminDashboard.RecordIdNonEmpty: stated for truthy ids that are not arrays, because an array id such as `[]` is kept and prints as "" (`EmptyArrayIdGivesEmptyId`).
- PostForm.FormatCategoriesIdsDistinct: requires the clock readings of one call to share their digit count, because otherwise ids can collide (`IdsCanCollideAcrossADigit`).
- PostModel.FromPayload: a non-string value in a string path counts as missing. Mongoose casting and the `Date` cast are not modelled; the cast is a parameter.
- Rendering: JSX, `dangerouslySetInnerHTML`, lazy loading, and which element shows. The exceptions are the few predicates the handlers rely on: the list page's pagination and button states, the edit page's form guard, the detail page's view, and the Navbar's Logout item.
- The quote carousel's and the detail page's timers are left out. Only the quote step is kept.
- The browser's own form checks (`required`, `type="email"`) are left out. The handlers are modelled as if every submit reaches them.
- PostCard.js, Footer.js, About.js, NotFound.js and Contact.js are markup, or a console log with a timer, and are not part of this model.
- App.js routing belongs to react-router, and services/api.js is an axios wrapper; neither is part of this model.
- server/routers/posts.js delegates every branch to Mongoose. server/app.js and server/index.js are wiring, and server/models/blog.js is unused. None of them is part of this model.
- The hard-coded password is modelled as an exact equality check. It is not a security property.
