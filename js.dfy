/** The fragment of JavaScript value semantics that the blog client relies on:
    JSON-shaped values as `res.json()` produces them, truthiness, `||`, `??`,
    property access, `String(v)`, and the string operations `trim`, `split`,
    `join`, `slice`, `includes` and `toLowerCase`. */
module Js {

  /** A value parsed from a JSON body. An object lists its properties in
      enumeration order, each key once. Numbers are integer-valued. */
  datatype Json =
    | Undefined
    | Null
    | Bool(b: bool)
    | Num(n: int)
    | Str(s: string)
    | Arr(items: seq<Json>)
    | Obj(props: seq<(string, Json)>)

  /** An exception thrown by a JavaScript expression. A `TypeError` is raised
      by the engine itself (reading a property of `null`, calling a method a
      value does not have); its message text belongs to the engine. */
  datatype Thrown = TypeError | Error(message: string)

  /** The value of an expression that may throw. */
  datatype Result<+T> = Ok(value: T) | Fail(thrown: Thrown) {
    predicate IsFailure() { Fail? }
    function PropagateFailure<U>(): Result<U> requires Fail? { Fail(thrown) }
    function Extract(): T requires Ok? { value }
  }

  datatype Option<+T> = None | Some(value: T)

  // ---------------------------------------------------------------------
  // Truthiness and the logical operators
  // ---------------------------------------------------------------------

  /** `v === null || v === undefined` */
  predicate Nullish(v: Json) { v.Undefined? || v.Null? }

  /** `Boolean(v)`: "", 0, false, null and undefined are falsy. */
  predicate Truthy(v: Json) {
    match v
    case Undefined => false
    case Null => false
    case Bool(b) => b
    case Num(n) => n != 0
    case Str(s) => s != ""
    case Arr(_) => true
    case Obj(_) => true
  }

  /** `a || b` */
  function Or(a: Json, b: Json): Json {
    if Truthy(a) then a else b
  }

  /** `a ?? b`: falls through on null and undefined only. */
  function Coalesce(a: Json, b: Json): Json {
    if Nullish(a) then b else a
  }

  /** `typeof v === "object" && v !== null` */
  predicate IsObjectLike(v: Json) { v.Arr? || v.Obj? }

  // ---------------------------------------------------------------------
  // Property access
  // ---------------------------------------------------------------------

  function Lookup(props: seq<(string, Json)>, key: string): Json {
    if props == [] then Undefined
    else if props[0].0 == key then props[0].1
    else Lookup(props[1..], key)
  }

  /** `v.key` for a non-nullish `v` (where `v.key` would throw on a nullish
      `v`, the caller models the throw), and `v?.key` for any `v`. None of the
      keys the client reads is a built-in property of strings or arrays, so
      a non-object receiver yields undefined. */
  function Member(v: Json, key: string): Json {
    if v.Obj? then Lookup(v.props, key) else Undefined
  }

  /** `Object.values(v)` for an object-like `v`. */
  function Values(v: Json): seq<Json> {
    match v
    case Obj(props) => seq(|props|, i requires 0 <= i < |props| => props[i].1)
    case Arr(items) => items
    case _ => []
  }

  /** `{...o, key: value}`: an existing key keeps its position, a new key is
      appended. */
  function SetProp(props: seq<(string, Json)>, key: string, value: Json): (r: seq<(string, Json)>)
    ensures Lookup(r, key) == value
    ensures forall k :: k != key ==> Lookup(r, k) == Lookup(props, k)
  {
    if props == [] then [(key, value)]
    else if props[0].0 == key then [(key, value)] + props[1..]
    else [props[0]] + SetProp(props[1..], key, value)
  }

  // ---------------------------------------------------------------------
  // String conversion
  // ---------------------------------------------------------------------

  function Digit(d: nat): char
    requires d < 10
  {
    "0123456789"[d]
  }

  /** The decimal numeral of `n`, as `String(n)` writes it. */
  function NatToString(n: nat): (r: string)
    ensures r != []
    ensures forall i :: 0 <= i < |r| ==> '0' <= r[i] <= '9'
    ensures n < 10 <==> |r| == 1
  {
    if n < 10 then [Digit(n)] else NatToString(n / 10) + [Digit(n % 10)]
  }

  /** The decimal numeral of an integer, with a leading "-" when negative. */
  function IntToString(n: int): string {
    if n < 0 then "-" + NatToString(-n) else NatToString(n)
  }

  /** Equal numerals denote equal numbers. */
  lemma {:induction false} NatToStringInjective(a: nat, b: nat)
    requires NatToString(a) == NatToString(b)
    ensures a == b
  {
    if a >= 10 && b >= 10 {
      var sa, sb := NatToString(a / 10), NatToString(b / 10);
      assert sa + [Digit(a % 10)] == sb + [Digit(b % 10)];
      assert |sa| == |sb|;
      assert sa == (sa + [Digit(a % 10)])[..|sa|];
      assert sb == (sb + [Digit(b % 10)])[..|sb|];
      NatToStringInjective(a / 10, b / 10);
      assert Digit(a % 10) == (sa + [Digit(a % 10)])[|sa|];
      assert "0123456789"[a % 10] == "0123456789"[b % 10];
    } else if a < 10 && b < 10 {
      assert "0123456789"[a] == "0123456789"[b];
    }
  }

  /** The remainder operator `a % n` of JavaScript, which truncates toward
      zero (the result takes the sign of `a`). */
  function JsRem(a: int, n: int): int
    requires n > 0
  {
    if a >= 0 then a % n else -((-a) % n)
  }

  /** `String(v)`; an array is the "," join of its elements, where null and
      undefined elements contribute "". */
  function ToStr(v: Json): string
    decreases v
  {
    match v
    case Undefined => "undefined"
    case Null => "null"
    case Bool(b) => if b then "true" else "false"
    case Num(n) => IntToString(n)
    case Str(s) => s
    case Arr(items) =>
      Join(seq(|items|, i requires 0 <= i < |items| =>
                 if Nullish(items[i]) then "" else ToStr(items[i])), ",")
    case Obj(_) => "[object Object]"
  }

  /** `items.join(sep)` on an array of JSON values. */
  function JoinValues(items: seq<Json>, sep: string): string {
    Join(seq(|items|, i requires 0 <= i < |items| =>
               if Nullish(items[i]) then "" else ToStr(items[i])), sep)
  }

  // ---------------------------------------------------------------------
  // Strings
  // ---------------------------------------------------------------------

  /** The characters that `String.prototype.trim` strips and that the
      regular-expression class `\s` matches: WhiteSpace and LineTerminator of
      the ECMAScript grammar. */
  predicate IsSpace(c: char) {
    c == '\t' || c == '\n' || c == '\U{000B}' || c == '\U{000C}' || c == '\r' || c == ' '
    || c == '\U{00A0}' || c == '\U{1680}' || ('\U{2000}' <= c <= '\U{200A}')
    || c == '\U{2028}' || c == '\U{2029}' || c == '\U{202F}' || c == '\U{205F}'
    || c == '\U{3000}' || c == '\U{FEFF}'
  }

  predicate AllSpace(s: string) {
    forall i :: 0 <= i < |s| ==> IsSpace(s[i])
  }

  function TrimStart(s: string): string {
    if s != [] && IsSpace(s[0]) then TrimStart(s[1..]) else s
  }

  function TrimEnd(s: string): string {
    if s != [] && IsSpace(s[|s| - 1]) then TrimEnd(s[..|s| - 1]) else s
  }

  /** `s.trim()` */
  function Trim(s: string): string {
    TrimEnd(TrimStart(s))
  }

  /** A string is trimmed when it neither starts nor ends with white space. */
  predicate Trimmed(s: string) {
    s == [] || (!IsSpace(s[0]) && !IsSpace(s[|s| - 1]))
  }

  lemma {:induction false} TrimStartFacts(s: string)
    ensures |TrimStart(s)| <= |s| && TrimStart(s) == s[|s| - |TrimStart(s)|..]
    ensures AllSpace(s[..|s| - |TrimStart(s)|])
    ensures TrimStart(s) != [] ==> !IsSpace(TrimStart(s)[0])
  {
    if s != [] && IsSpace(s[0]) {
      var t := s[1..];
      TrimStartFacts(t);
      var k := |t| - |TrimStart(t)|;
      assert t[k..] == s[k + 1..];
      var p := s[..k + 1];
      forall i | 0 <= i < |p| ensures IsSpace(p[i]) {
        if i > 0 { assert p[i] == t[..k][i - 1]; }
      }
    } else {
      assert s[0..] == s;
    }
  }

  lemma {:induction false} TrimEndFacts(s: string)
    ensures |TrimEnd(s)| <= |s| && TrimEnd(s) == s[..|TrimEnd(s)|]
    ensures AllSpace(s[|TrimEnd(s)|..])
    ensures TrimEnd(s) != [] ==> !IsSpace(TrimEnd(s)[|TrimEnd(s)| - 1])
  {
    if s != [] && IsSpace(s[|s| - 1]) {
      var t := s[..|s| - 1];
      TrimEndFacts(t);
      var k := |TrimEnd(t)|;
      assert t[..k] == s[..k];
      forall i | 0 <= i < |s| - k ensures IsSpace(s[k..][i]) {
        if k + i < |s| - 1 { assert s[k..][i] == t[k..][i]; }
      }
    } else {
      assert s[..|s|] == s;
    }
  }

  /** `!s.trim()` holds exactly for the strings made of white space only. */
  lemma TrimEmptyIff(s: string)
    ensures Trim(s) == [] <==> AllSpace(s)
  {
    TrimStartFacts(s);
    var u := TrimStart(s);
    var k := |s| - |u|;
    TrimEndFacts(u);
    if Trim(s) == [] {
      assert AllSpace(u) by { assert u[0..] == u; }
      assert s[..k] == s;
    }
  }

  /** Trimming leaves a trimmed string and does nothing to one. */
  lemma {:induction false} TrimOfTrimmed(s: string)
    requires Trimmed(s)
    ensures Trim(s) == s
  {
    assert TrimStart(s) == s;
    assert TrimEnd(s) == s;
  }

  /** `trim` gives a trimmed string, made of characters of its input. */
  lemma TrimIsTrimmed(s: string)
    ensures Trimmed(Trim(s))
    ensures forall c :: c in Trim(s) ==> c in s
  {
    TrimStartFacts(s);
    var u := TrimStart(s);
    TrimEndFacts(u);
    var t := TrimEnd(u);
    if t != [] {
      assert t[0] == u[0];
    }
    forall c | c in t ensures c in s {
      var i :| 0 <= i < |t| && t[i] == c;
      assert u[i] == c;
      assert s[|s| - |u| + i] == c;
    }
  }

  /** A leading space before a trimmed name is removed by `trim`. */
  lemma TrimSpacePrefix(s: string)
    requires Trimmed(s)
    ensures Trim(" " + s) == s
  {
    assert (" " + s)[1..] == s;
    assert TrimStart(" " + s) == TrimStart(s);
    TrimOfTrimmed(s);
  }

  /** `trim` removes white space before a string that does not start with it. */
  lemma {:induction false} TrimStartPadded(lead: string, x: string)
    requires AllSpace(lead) && (x == [] || !IsSpace(x[0]))
    ensures TrimStart(lead + x) == x
  {
    if lead != [] {
      assert (lead + x)[1..] == lead[1..] + x;
      TrimStartPadded(lead[1..], x);
    } else {
      assert lead + x == x;
    }
  }
  /** `trim` removes white space after a string that does not end with it. */
  lemma {:induction false} TrimEndPadded(x: string, trail: string)
    requires AllSpace(trail) && (x == [] || !IsSpace(x[|x| - 1]))
    ensures TrimEnd(x + trail) == x
  {
    if trail != [] {
      var t := trail[..|trail| - 1];
      assert (x + trail)[..|x + trail| - 1] == x + t;
      TrimEndPadded(x, t);
    } else {
      assert x + trail == x;
    }
  }
  /** Padding of white space on both sides of a trimmed string is exactly
      what `trim` removes. */
  lemma TrimPadded(lead: string, x: string, trail: string)
    requires AllSpace(lead) && AllSpace(trail) && Trimmed(x)
    ensures Trim(lead + x + trail) == x
  {
    if x == [] {
      assert lead + x + trail == lead + trail;
      assert AllSpace(lead + trail);
      TrimStartPadded(lead + trail, "");
      assert lead + trail + "" == lead + trail;
    } else {
      TrimStartPadded(lead, x + trail);
      assert lead + x + trail == lead + (x + trail);
      TrimEndPadded(x, trail);
    }
  }
  /** `s.toLowerCase()` on the ASCII letters; other characters are kept. */
  function Lower(s: string): (r: string)
    ensures |r| == |s|
    ensures forall i :: 0 <= i < |r| ==> !('A' <= r[i] <= 'Z')
    ensures forall i :: 0 <= i < |s| && !('A' <= s[i] <= 'Z') ==> r[i] == s[i]
  {
    seq(|s|, i requires 0 <= i < |s| =>
          if 'A' <= s[i] <= 'Z' then (s[i] as int + 32) as char else s[i])
  }

  /** Lower-casing twice is lower-casing once. */
  lemma LowerIdempotent(s: string)
    ensures Lower(Lower(s)) == Lower(s)
  {
  }

  predicate IsPrefix(t: string, s: string) {
    |t| <= |s| && s[..|t|] == t
  }

  /** `s.includes(t)` */
  function Includes(s: string, t: string): bool
    decreases |s|
  {
    if IsPrefix(t, s) then true
    else if s == [] then false
    else Includes(s[1..], t)
  }

  /** `t` occurs in `s` at offset `i`. */
  predicate OccursAt(s: string, t: string, i: int) {
    0 <= i <= |s| - |t| && s[i..i + |t|] == t
  }

  /** `includes` holds exactly when `t` occurs at some offset of `s`. */
  lemma {:induction false} IncludesIff(s: string, t: string)
    ensures Includes(s, t) <==> exists i :: OccursAt(s, t, i)
    decreases |s|
  {
    if IsPrefix(t, s) {
      assert OccursAt(s, t, 0);
    } else if s == [] {
    } else {
      IncludesIff(s[1..], t);
      if Includes(s[1..], t) {
        var i :| OccursAt(s[1..], t, i);
        assert s[1..][i..i + |t|] == s[i + 1..i + 1 + |t|];
        assert OccursAt(s, t, i + 1);
      }
      if exists i :: OccursAt(s, t, i) {
        var i :| OccursAt(s, t, i);
        assert i != 0;
        assert s[1..][i - 1..i - 1 + |t|] == s[i..i + |t|];
        assert OccursAt(s[1..], t, i - 1);
      }
    }
  }

  /** Every string includes the empty string. */
  lemma IncludesEmpty(s: string)
    ensures Includes(s, "")
  {
    assert IsPrefix("", s);
  }

  /** `s.slice(begin, end)`: negative bounds count from the end, and both are
      clamped to the string. */
  function Clamp(k: int, len: nat): (r: nat)
    ensures r <= len
  {
    if k < 0 then (if len + k < 0 then 0 else len + k) else if k > len then len else k
  }

  function Slice<T>(s: seq<T>, begin: int, end: int): seq<T> {
    var b := Clamp(begin, |s|);
    var e := Clamp(end, |s|);
    if b < e then s[b..e] else []
  }

  // ---------------------------------------------------------------------
  // split and join
  // ---------------------------------------------------------------------

  function Count(s: string, c: char): nat {
    if s == [] then 0 else (if s[0] == c then 1 else 0) + Count(s[1..], c)
  }

  function IndexOf(s: string, c: char): (i: nat)
    requires c in s
    ensures i < |s| && s[i] == c && c !in s[..i]
  {
    if s[0] == c then 0 else 1 + IndexOf(s[1..], c)
  }

  /** `s.split(c)` for a one-character separator: the pieces between the
      occurrences of `c`, empty pieces included. */
  function Split(s: string, c: char): seq<string>
    decreases |s|
  {
    if c !in s then [s]
    else
      var i := IndexOf(s, c);
      [s[..i]] + Split(s[i + 1..], c)
  }

  /** `parts.join(sep)` */
  function Join(parts: seq<string>, sep: string): string {
    if parts == [] then ""
    else if |parts| == 1 then parts[0]
    else parts[0] + sep + Join(parts[1..], sep)
  }

  lemma {:induction false} CountAppend(a: string, b: string, c: char)
    ensures Count(a + b, c) == Count(a, c) + Count(b, c)
  {
    if a == [] {
      assert a + b == b;
    } else {
      assert (a + b)[1..] == a[1..] + b;
      CountAppend(a[1..], b, c);
    }
  }

  lemma {:induction false} CountAbsent(s: string, c: char)
    requires c !in s
    ensures Count(s, c) == 0
  {
    if s != [] {
      assert c !in s[1..];
      CountAbsent(s[1..], c);
    }
  }

  /** A character occurs nowhere exactly when it is counted zero times. */
  lemma {:induction false} CountZeroIff(s: string, c: char)
    ensures Count(s, c) == 0 <==> c !in s
  {
    if c !in s {
      CountAbsent(s, c);
    } else {
      var i := IndexOf(s, c);
      assert s == s[..i] + [c] + s[i + 1..];
      CountAppend(s[..i] + [c], s[i + 1..], c);
      CountAppend(s[..i], [c], c);
      assert [c][1..] == [];
    }
  }

  /** `split` makes one piece more than there are separators, no piece holds
      the separator, and joining the pieces back gives the input. */
  lemma {:induction false} SplitFacts(s: string, c: char)
    ensures |Split(s, c)| == Count(s, c) + 1
    ensures forall k :: 0 <= k < |Split(s, c)| ==> c !in Split(s, c)[k]
    ensures Join(Split(s, c), [c]) == s
    decreases |s|
  {
    if c !in s {
      CountAbsent(s, c);
    } else {
      var i := IndexOf(s, c);
      var rest := s[i + 1..];
      SplitFacts(rest, c);
      assert s == s[..i] + [c] + rest;
      CountAppend(s[..i] + [c], rest, c);
      CountAppend(s[..i], [c], c);
      CountAbsent(s[..i], c);
      assert Count([c], c) == 1 by { assert [c][1..] == []; }
      var parts := Split(s, c);
      assert parts == [s[..i]] + Split(rest, c);
      assert parts[1..] == Split(rest, c);
      forall k | 0 <= k < |parts| ensures c !in parts[k] {
        if k > 0 { assert parts[k] == Split(rest, c)[k - 1]; }
      }
    }
  }

  /** Splitting "a" + c + "rest" when `a` has no `c`. */
  lemma SplitCons(a: string, c: char, rest: string)
    requires c !in a
    ensures Split(a + [c] + rest, c) == [a] + Split(rest, c)
  {
    var s := a + [c] + rest;
    IndexOfAfter(a, c, rest);
    assert s[..|a|] == a;
    assert s[|a| + 1..] == rest;
  }

  lemma {:induction false} IndexOfAfter(a: string, c: char, rest: string)
    requires c !in a
    ensures IndexOf(a + [c] + rest, c) == |a|
  {
    if a != [] {
      assert (a + [c] + rest)[1..] == a[1..] + [c] + rest;
      assert c !in a[1..];
      IndexOfAfter(a[1..], c, rest);
    }
  }

  /** Each part with one leading space. */
  function SpaceEach(parts: seq<string>): (r: seq<string>)
    ensures |r| == |parts|
    ensures forall k :: 0 <= k < |parts| ==> r[k] == " " + parts[k]
  {
    seq(|parts|, k requires 0 <= k < |parts| => " " + parts[k])
  }

  lemma {:induction false} SplitPrefixedJoin(pre: string, parts: seq<string>)
    requires parts != []
    requires ',' !in pre
    requires forall k :: 0 <= k < |parts| ==> ',' !in parts[k]
    ensures Split(pre + Join(parts, ", "), ',') == [pre + parts[0]] + SpaceEach(parts[1..])
    decreases |parts|
  {
    if |parts| == 1 {
      assert ',' !in pre + parts[0];
    } else {
      var tail := parts[1..];
      assert pre + Join(parts, ", ") == (pre + parts[0]) + [','] + (" " + Join(tail, ", "));
      assert ',' !in pre + parts[0];
      SplitCons(pre + parts[0], ',', " " + Join(tail, ", "));
      SplitPrefixedJoin(" ", tail);
      assert [" " + tail[0]] + SpaceEach(tail[1..]) == SpaceEach(tail);
    }
  }

  /** Split after join: parts free of the separator, joined with it, split
      back into the same parts. */
  lemma {:induction false} SplitJoin(parts: seq<string>, c: char)
    requires parts != []
    requires forall k :: 0 <= k < |parts| ==> c !in parts[k]
    ensures Split(Join(parts, [c]), c) == parts
  {
    if |parts| > 1 {
      SplitJoin(parts[1..], c);
      SplitCons(parts[0], c, Join(parts[1..], [c]));
    }
  }
  /** Split after join: with separator ", " and comma-free parts, splitting on
      "," gives the first part and every later part with a leading space. */
  lemma SplitJoinComma(parts: seq<string>)
    requires parts != []
    requires forall k :: 0 <= k < |parts| ==> ',' !in parts[k]
    ensures Split(Join(parts, ", "), ',') == [parts[0]] + SpaceEach(parts[1..])
  {
    SplitPrefixedJoin("", parts);
    assert "" + Join(parts, ", ") == Join(parts, ", ");
    assert "" + parts[0] == parts[0];
  }

  /** The text before the first occurrence of `c` (all of `s` if none):
      `s.split(c)[0]`. */
  function Before(s: string, c: char): string {
    Split(s, c)[0]
  }

  lemma BeforeFacts(s: string, c: char)
    ensures IsPrefix(Before(s, c), s)
    ensures c !in Before(s, c)
    ensures c !in s ==> Before(s, c) == s
    ensures c in s ==> |Before(s, c)| < |s| && s[|Before(s, c)|] == c
  {
  }
  // ---------------------------------------------------------------------
  // Subsequences
  // ---------------------------------------------------------------------

  /** `a` is `b` with some elements left out, the rest in their order. */
  predicate IsSubseq<T(==)>(a: seq<T>, b: seq<T>)
    decreases |b|
  {
    if a == [] then true
    else if b == [] then false
    else (a[0] == b[0] && IsSubseq(a[1..], b[1..])) || IsSubseq(a, b[1..])
  }

  lemma {:induction false} IsSubseqLength<T>(a: seq<T>, b: seq<T>)
    requires IsSubseq(a, b)
    ensures |a| <= |b|
    decreases |b|
  {
    if a != [] {
      if a[0] == b[0] && IsSubseq(a[1..], b[1..]) {
        IsSubseqLength(a[1..], b[1..]);
      } else {
        IsSubseqLength(a, b[1..]);
      }
    }
  }
  lemma SubseqCons<T>(x: T, a: seq<T>, b: seq<T>)
    requires IsSubseq(a, b)
    ensures IsSubseq([x] + a, [x] + b)
  {
    assert ([x] + a)[1..] == a && ([x] + b)[1..] == b;
  }

  lemma SubseqSkip<T>(x: T, a: seq<T>, b: seq<T>)
    requires IsSubseq(a, b)
    ensures IsSubseq(a, [x] + b)
  {
    assert ([x] + b)[1..] == b;
  }

  /** `items.map((c) => c.name)`, which throws on a null or undefined entry. */
  function Names(items: seq<Json>): Result<seq<Json>> {
    if items == [] then Ok([])
    else if Nullish(items[0]) then Fail(TypeError)
    else
      var rest :- Names(items[1..]);
      Ok([Member(items[0], "name")] + rest)
  }

  /** Mapping `.name` throws exactly on a null or undefined entry and
      otherwise reads each entry's `name` in order. */
  lemma {:induction false} NamesFacts(items: seq<Json>)
    ensures Names(items).Fail? <==> exists i :: 0 <= i < |items| && Nullish(items[i])
    ensures Names(items).Ok? ==> |Names(items).value| == |items|
    ensures Names(items).Ok? ==> forall i :: 0 <= i < |items| ==> Names(items).value[i] == Member(items[i], "name")
  {
    if items != [] && !Nullish(items[0]) {
      NamesFacts(items[1..]);
      if exists i :: 0 <= i < |items| && Nullish(items[i]) {
        var i :| 0 <= i < |items| && Nullish(items[i]);
        assert items[1..][i - 1] == items[i];
      }
      if Names(items[1..]).Ok? {
        var rest := Names(items[1..]).value;
        forall i | 0 <= i < |items| ensures ([Member(items[0], "name")] + rest)[i] == Member(items[i], "name") {
          if i > 0 { assert items[1..][i - 1] == items[i]; }
        }
      } else {
        var i :| 0 <= i < |items[1..]| && Nullish(items[1..][i]);
        assert Nullish(items[i + 1]);
      }
    }
  }
}
