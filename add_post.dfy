/** The add page (blog-frontend/src/pages/AddPost.js): the form state, its
    change handler and the submit handler, which validates, sends the
    payload and either navigates to the admin list or shows an error. */
module AddPost {
  import opened Js
  import opened PostForm

  const ListPath := "/admin"
  const FailedToAdd := "Failed to add post"

  class AddPostPage {
    var post: Form
    var loading: bool
    var error: string

    /** The page's state always has the string shape of its inputs. */
    ghost predicate Valid()
      reads this
    {
      StringForm(post)
    }

    constructor ()
      ensures post == Blank && !loading && error == ""
      ensures Valid()
    {
      post, loading, error := Blank, false, "";
    }

    /** `handleChange` for the input called `name`. */
    method HandleChange(name: Field, value: string)
      modifies this`post
      ensures post == Changed(old(post), name, value)
      ensures old(Valid()) ==> Valid()
    {
      if Valid() {
        ChangedKeepsStringForm(post, name, value);
      }
      post := Changed(post, name, value);
    }

    /** `handleSubmit`, run to completion. `clock` gives the `Date.now()`
        readings of the category parser, `outcome` how the request ends, and
        `typeErrorMessage` the engine's text for a TypeError. `sent` is the
        request body, `None` when no request is made; `navigateTo` is the
        route the page moves to. */
    method HandleSubmit(clock: nat -> nat, outcome: Outcome, typeErrorMessage: string)
      returns (sent: Option<Payload>, navigateTo: Option<string>)
      modifies this`error, this`loading
      ensures post == old(post)
      ensures Validate(post).Fail? ==>
                sent == None && navigateTo == None && error == "" && loading == old(loading)
      ensures Validate(post).Ok? && Validate(post).value.Some? ==>
                sent == None && navigateTo == None
                && error == Validate(post).value.value && loading == old(loading)
      ensures Validate(post) == Ok(None) ==> sent == Some(MakePayload(post, clock)) && !loading
      ensures Validate(post) == Ok(None) && outcome.Saved? ==> navigateTo == Some(ListPath) && error == ""
      ensures Validate(post) == Ok(None) && !outcome.Saved? ==>
                navigateTo == None
                && error == "AddPost Error: " + ErrorMessage(outcome, FailedToAdd, typeErrorMessage)
      ensures old(Valid()) ==> (sent == None <==> error in {TitleContentRequired, DateRequired})
    {
      if Valid() {
        StringFormValidates(post);
      }
      error := "";
      var checked := Validate(post);
      if checked.Fail? {
        return None, None;
      }
      if checked.value.Some? {
        error := checked.value.value;
        return None, None;
      }
      loading := true;
      var payload := MakePayload(post, clock);
      sent := Some(payload);
      if outcome.Saved? {
        navigateTo := Some(ListPath);
      } else {
        navigateTo := None;
        error := "AddPost Error: " + ErrorMessage(outcome, FailedToAdd, typeErrorMessage);
        assert error[0] == 'A' != TitleContentRequired[0] && DateRequired[0] != 'A';
      }
      loading := false;
    }
  }
}
