/** The newsletter form (blog-frontend/src/components/NewsletterSignup.jsx):
    an address is checked against `^[^\s@]+@[^\s@]+\.[^\s@]+$` and the form
    either thanks the reader and clears the input or reports the address as
    invalid. */
module Newsletter {
  import opened Js

  const InvalidAddress := "Please enter a valid email address."
  const Subscribed := "Thank you for subscribing!"

  /** The class `[^\s@]`; `\s` is the same set of white space as `trim`
      removes. */
  predicate Plain(c: char) {
    !IsSpace(c) && c != '@'
  }

  predicate AllPlain(s: string) {
    forall k :: 0 <= k < |s| ==> Plain(s[k])
  }

  /** The pattern matches `s` with its '@' at `i` and its '.' at `j`: one or
      more plain characters, '@', one or more plain characters, '.', one or
      more plain characters, and nothing else. */
  predicate MatchAt(s: string, i: int, j: int) {
    && 0 < i && i + 1 < j && j + 1 < |s|
    && s[i] == '@' && s[j] == '.'
    && AllPlain(s[..i]) && AllPlain(s[i + 1..j]) && AllPlain(s[j + 1..])
  }

  /** `emailRegex.test(s)` */
  ghost predicate RegexTest(s: string) {
    exists i, j :: MatchAt(s, i, j)
  }

  /** The same test as a direct check: no white space, exactly one '@' with
      something before it, and a '.' in the domain that is neither its first
      nor its last character. */
  function IsValidEmail(s: string): bool {
    && (forall k :: 0 <= k < |s| ==> !IsSpace(s[k]))
    && '@' in s && Count(s, '@') == 1
    && var i := IndexOf(s, '@');
       var domain := s[i + 1..];
       i > 0 && |domain| >= 3 && '.' in domain[1..|domain| - 1]
  }

  /** Splitting a string around position `i` splits the count. */
  lemma CountAround(s: string, i: nat, c: char)
    requires i < |s|
    ensures Count(s, c) == Count(s[..i], c) + (if s[i] == c then 1 else 0) + Count(s[i + 1..], c)
  {
    assert s == s[..i] + [s[i]] + s[i + 1..];
    CountAppend(s[..i] + [s[i]], s[i + 1..], c);
    CountAppend(s[..i], [s[i]], c);
    assert [s[i]][1..] == [];
  }

  /** A match at (i, j) is the direct check passing. */
  lemma MatchIsValid(s: string, i: int, j: int)
    requires MatchAt(s, i, j)
    ensures IsValidEmail(s)
  {
    forall k | 0 <= k < |s| ensures !IsSpace(s[k]) {
      if k < i { assert s[..i][k] == s[k]; }
      else if i < k < j { assert s[i + 1..j][k - i - 1] == s[k]; }
      else if j < k { assert s[j + 1..][k - j - 1] == s[k]; }
    }
    assert '@' !in s[..i] by {
      forall k | 0 <= k < i ensures s[..i][k] != '@' { assert Plain(s[..i][k]); }
    }
    var tail := s[i + 1..];
    assert tail == s[i + 1..j] + [s[j]] + s[j + 1..];
    assert '@' !in tail by {
      forall k | 0 <= k < |tail| ensures tail[k] != '@' {
        if k < j - i - 1 { assert tail[k] == s[i + 1..j][k]; assert Plain(s[i + 1..j][k]); }
        else if k > j - i - 1 { assert tail[k] == s[j + 1..][k - (j - i)]; assert Plain(s[j + 1..][k - (j - i)]); }
      }
    }
    CountAround(s, i, '@');
    CountZeroIff(s[..i], '@');
    CountZeroIff(tail, '@');
    var at := IndexOf(s, '@');
    assert at == i;
    var domain := s[i + 1..];
    assert domain[1..|domain| - 1][j - i - 2] == s[j];
  }

  /** A passing direct check gives a match of the pattern. */
  lemma ValidIsMatch(s: string)
    requires IsValidEmail(s)
    ensures RegexTest(s)
  {
    var i := IndexOf(s, '@');
    var domain := s[i + 1..];
    var middle := domain[1..|domain| - 1];
    var m :| 0 <= m < |middle| && middle[m] == '.';
    var j := i + 2 + m;
    assert s[j] == '.';
    CountAround(s, i, '@');
    CountZeroIff(s[..i], '@');
    CountZeroIff(domain, '@');
    assert AllPlain(s[..i]);
    var host, top := s[i + 1..j], s[j + 1..];
    forall k | 0 <= k < |host| ensures Plain(host[k]) {
      assert host[k] == domain[k] == s[i + 1 + k];
    }
    forall k | 0 <= k < |top| ensures Plain(top[k]) {
      assert top[k] == domain[j - i + k] == s[j + 1 + k];
    }
    assert MatchAt(s, i, j);
  }

  /** The direct check is exactly the pattern. */
  lemma ValidIffRegex(s: string)
    ensures IsValidEmail(s) <==> RegexTest(s)
  {
    if RegexTest(s) {
      var i, j :| MatchAt(s, i, j);
      MatchIsValid(s, i, j);
    }
    if IsValidEmail(s) {
      ValidIsMatch(s);
    }
  }

  /** An address holding any white space is rejected. */
  lemma WhiteSpaceRejected(s: string, k: nat)
    requires k < |s| && IsSpace(s[k])
    ensures !RegexTest(s)
  {
    ValidIffRegex(s);
  }

  /** An address with no '@' or with two or more is rejected. */
  lemma AtCountRejected(s: string)
    requires Count(s, '@') != 1
    ensures !RegexTest(s)
  {
    ValidIffRegex(s);
  }

  /** A few addresses by hand. */
  lemma Examples()
    ensures RegexTest("a@b.c")
    ensures RegexTest("first.last@mail.example.org")
    ensures !RegexTest("a@.c")
    ensures !RegexTest("a@b.")
    ensures !RegexTest("@b.c")
  {
    assert MatchAt("a@b.c", 1, 3);
    assert MatchAt("first.last@mail.example.org", 10, 15);
    ValidIffRegex("a@.c");
    ValidIffRegex("a@b.");
    ValidIffRegex("@b.c");
    assert IndexOf("a@.c", '@') == 1;
    assert IndexOf("a@b.", '@') == 1;
  }

  class SignupForm {
    var email: string
    var status: string

    constructor ()
      ensures email == "" && status == ""
    {
      email, status := "", "";
    }

    /** The input's `onChange`. */
    method SetEmail(value: string)
      modifies this
      ensures email == value && status == old(status)
    {
      email := value;
    }

    /** `handleSubmit`: a matching address is thanked for and cleared; any
        other is reported and kept for correction. */
    method HandleSubmit()
      modifies this
      ensures RegexTest(old(email)) ==> status == Subscribed && email == ""
      ensures !RegexTest(old(email)) ==> status == InvalidAddress && email == old(email)
    {
      ValidIffRegex(email);
      if !IsValidEmail(email) {
        status := InvalidAddress;
        return;
      }
      status := Subscribed;
      email := "";
    }
  }
}
