/**
 * Shared vocabulary for the whole model: optional values, results with an
 * error message, and the handful of JavaScript and Java string operations
 * that the application's decision logic is built from.
 *
 * Strings are `seq<char>`; case folding is ASCII-only (see README).
 */
module Common {

  datatype Option<T> = None | Some(value: T)

  /** A Java exception or a rejected JavaScript promise becomes `Err`. */
  datatype Result<T> = Ok(value: T) | Err(error: string)

  // ---------------------------------------------------------------------
  // Truthiness and defaulting

  /** JavaScript `a || b` on strings: the empty string (like null and
   *  undefined) is falsy. */
  function OrElse(a: string, b: string): (r: string)
    ensures r == a || r == b
    ensures a != "" ==> r == a
    ensures r == "" <==> a == "" && b == ""
  {
    if a != "" then a else b
  }

  // ---------------------------------------------------------------------
  // Prefixes, suffixes, containment

  predicate StartsWith(s: string, p: string) { |p| <= |s| && s[..|p|] == p }

  predicate EndsWith(s: string, p: string) { |p| <= |s| && s[|s| - |p|..] == p }

  /** `s.contains(t)` / `s.includes(t)`. */
  predicate Contains(s: string, t: string)
    decreases |s|
  {
    StartsWith(s, t) || (|s| > 0 && Contains(s[1..], t))
  }

  lemma {:induction false} ContainsAt(s: string, t: string, i: nat)
    requires i + |t| <= |s| && s[i..i + |t|] == t
    ensures Contains(s, t)
    decreases i
  {
    if i > 0 {
      assert s[1..][i - 1..i - 1 + |t|] == s[i..i + |t|];
      ContainsAt(s[1..], t, i - 1);
    }
  }

  lemma {:induction false} ContainsPrefix(s: string, t: string, k: nat)
    requires k <= |s| && Contains(s[..k], t)
    ensures Contains(s, t)
    decreases k
  {
    if StartsWith(s[..k], t) {
      assert s[..|t|] == s[..k][..|t|];
    } else {
      assert s[..k][1..] == s[1..][..k - 1];
      ContainsPrefix(s[1..], t, k - 1);
    }
  }

  lemma {:induction false} ContainsChar(s: string, c: char)
    ensures Contains(s, [c]) <==> c in s
    decreases |s|
  {
    if |s| > 0 {
      ContainsChar(s[1..], c);
      assert s == [s[0]] + s[1..];
    }
  }

  // ---------------------------------------------------------------------
  // The signed-in user as the pages read it

  /** A signed-in user's record on the client; `roles` is `None` when the
   *  record has no `roles` field. */
  datatype ClientUser = ClientUser(roles: Option<seq<string>>)

  /** The TypeError `user.roles.includes(..)` throws when `roles` is
   *  undefined. */
  const ROLES_UNDEFINED := "Cannot read properties of undefined (reading 'includes')"

  /** `user.roles.includes(role)`. */
  function RolesInclude(user: ClientUser, role: string): (b: Result<bool>)
    ensures b.Err? <==> user.roles.None?
    ensures b.Err? ==> b.error == ROLES_UNDEFINED
    ensures b.Ok? ==> (b.value <==> role in user.roles.value)
  {
    if user.roles.None? then Err(ROLES_UNDEFINED) else Ok(role in user.roles.value)
  }

  // ---------------------------------------------------------------------
  // Bearer credentials (section 2.1 of RFC 6750)

  const BEARER_PREFIX := "Bearer "

  /** How the server reads an Authorization header: absent or not starting
   *  with "Bearer " gives nothing, otherwise the text after the first seven
   *  characters (`header.substring(7)`). */
  function BearerToken(header: Option<string>): (token: Option<string>)
    ensures token.Some? <==> header.Some? && StartsWith(header.value, BEARER_PREFIX)
    ensures token.Some? ==> header.value == BEARER_PREFIX + token.value
  {
    if header.Some? && StartsWith(header.value, BEARER_PREFIX) then Some(header.value[|BEARER_PREFIX|..])
    else None
  }

  /** The server recovers exactly the credential the client put after the
   *  prefix. */
  lemma BearerRoundTrip(credential: string)
    ensures BearerToken(Some(BEARER_PREFIX + credential)) == Some(credential)
  {
    var h := BEARER_PREFIX + credential;
    assert h[..|BEARER_PREFIX|] == BEARER_PREFIX;
    assert h[|BEARER_PREFIX|..] == credential;
  }

  /** The message of the 500 the catch-all exception handler sends for an
   *  exception a controller lets escape. */
  const UNEXPECTED_ERROR := "An unexpected error occurred"

  // ---------------------------------------------------------------------
  // Characters

  predicate IsDigit(c: char) { '0' <= c <= '9' }

  predicate AllDigits(s: string) { forall i :: 0 <= i < |s| ==> IsDigit(s[i]) }

  /** JavaScript `s.replace(/\D/g, '')`, Java `s.replaceAll("[^0-9]", "")`. */
  function DigitsOnly(s: string): (r: string)
    ensures AllDigits(r)
    ensures |r| <= |s|
    ensures AllDigits(s) ==> r == s
    decreases |s|
  {
    if s == [] then []
    else if IsDigit(s[0]) then [s[0]] + DigitsOnly(s[1..])
    else DigitsOnly(s[1..])
  }

  lemma {:induction false} DigitsOnlyConcat(a: string, b: string)
    ensures DigitsOnly(a + b) == DigitsOnly(a) + DigitsOnly(b)
    decreases |a|
  {
    if a == [] {
      assert a + b == b;
    } else {
      assert (a + b)[0] == a[0] && (a + b)[1..] == a[1..] + b;
      DigitsOnlyConcat(a[1..], b);
    }
  }

  /** Spaces, dashes or any other non-digit typed into a code are ignored. */
  lemma NonDigitIgnored(a: string, c: char, b: string)
    requires !IsDigit(c)
    ensures DigitsOnly(a + [c] + b) == DigitsOnly(a + b)
  {
    DigitsOnlyConcat(a + [c], b);
    DigitsOnlyConcat(a, [c]);
    DigitsOnlyConcat(a, b);
  }

  function DigitValue(c: char): (d: nat)
    requires IsDigit(c)
    ensures d < 10
  {
    c as nat - '0' as nat
  }

  function DigitChar(d: nat): (c: char)
    requires d < 10
    ensures IsDigit(c) && DigitValue(c) == d
  {
    ('0' as nat + d) as char
  }

  /** Decimal text of a natural number, as JavaScript `String(n)` and
   *  Java string concatenation print it. */
  function NatToString(n: nat): (s: string)
    ensures |s| >= 1 && AllDigits(s)
    decreases n
  {
    if n < 10 then [DigitChar(n)] else NatToString(n / 10) + [DigitChar(n % 10)]
  }

  function IntToString(i: int): (s: string)
    ensures |s| >= 1
    ensures s[0] == '-' <==> i < 0
  {
    if i < 0 then "-" + NatToString(-i) else NatToString(i)
  }

  /** Value of a run of decimal digits. */
  function DigitsValue(s: string): nat
    requires AllDigits(s)
    decreases |s|
  {
    if s == [] then 0 else DigitsValue(s[..|s| - 1]) * 10 + DigitValue(s[|s| - 1])
  }

  lemma {:induction false} DigitsValueOfNatToString(n: nat)
    ensures DigitsValue(NatToString(n)) == n
    decreases n
  {
    if n >= 10 {
      var s := NatToString(n);
      var p := NatToString(n / 10);
      assert s[..|s| - 1] == p;
      DigitsValueOfNatToString(n / 10);
    }
  }

  /** The longest prefix of `s` made of decimal digits. */
  function LeadingDigits(s: string): (r: string)
    ensures AllDigits(r) && |r| <= |s| && r == s[..|r|]
    ensures |r| < |s| ==> !IsDigit(s[|r|])
    decreases |s|
  {
    if s != [] && IsDigit(s[0]) then [s[0]] + LeadingDigits(s[1..]) else []
  }

  /** JavaScript `parseInt(s, 10)`: leading white space is skipped, one
   *  sign is allowed, and the longest run of digits that follows is read;
   *  `None` is `NaN`. The value is the exact integer, which the
   *  double JavaScript returns equals only up to 2^53 in magnitude. */
  function ParseInt(s: string): (r: Option<int>)
    ensures r.None? <==> LeadingDigits(Unsigned(s[LeadingSpaces(s, JsSpace)..])) == []
  {
    var t := s[LeadingSpaces(s, JsSpace)..];
    var d := LeadingDigits(Unsigned(t));
    if d == [] then None
    else if t[0] == '-' then Some(0 - DigitsValue(d) as int)
    else Some(DigitsValue(d))
  }

  function Unsigned(t: string): (u: string)
    ensures |u| <= |t|
  {
    if t != [] && (t[0] == '-' || t[0] == '+') then t[1..] else t
  }

  /** Reading back the decimal text of any integer gives the integer. */
  lemma ParseIntRoundTrip(i: int)
    ensures ParseInt(IntToString(i)) == Some(i)
  {
    var s := IntToString(i);
    var n: nat := if i < 0 then -i else i;
    var digits := NatToString(n);
    assert !IsSpace(JsSpace, s[0]);
    assert LeadingSpaces(s, JsSpace) == 0;
    assert Unsigned(s) == digits;
    assert LeadingDigits(digits) == digits by { LeadingDigitsOfDigits(digits); }
    DigitsValueOfNatToString(n);
  }

  lemma {:induction false} LeadingDigitsOfDigits(s: string)
    requires AllDigits(s)
    ensures LeadingDigits(s) == s
    decreases |s|
  {
    if s != [] {
      LeadingDigitsOfDigits(s[1..]);
    }
  }

  /** The two notions of white space the application trims by: Java's
   *  `String.trim` removes every char up to U+0020; JavaScript's
   *  `String.prototype.trim` removes its white-space and line-terminator
   *  set: the ASCII controls, the space separators of Unicode category Zs,
   *  the line and paragraph separators and the byte-order mark. */
  datatype Whitespace = JavaSpace | JsSpace

  predicate IsSpace(w: Whitespace, c: char)
  {
    match w
    case JavaSpace => c <= ' '
    case JsSpace =>
      c == ' ' || c == '\t' || c == '\n' || c == '\r' || c == '\U{000B}' || c == '\U{000C}'
      || c == '\U{00A0}' || c == '\U{1680}' || ('\U{2000}' <= c <= '\U{200A}') || c == '\U{202F}'
      || c == '\U{205F}' || c == '\U{3000}' || c == '\U{FEFF}' || c == '\U{2028}' || c == '\U{2029}'
  }

  /** Number of white-space chars at the start of `s`. */
  function LeadingSpaces(s: string, w: Whitespace): (n: nat)
    ensures n <= |s|
    ensures forall i :: 0 <= i < n ==> IsSpace(w, s[i])
    ensures n < |s| ==> !IsSpace(w, s[n])
    decreases |s|
  {
    if s != [] && IsSpace(w, s[0]) then 1 + LeadingSpaces(s[1..], w) else 0
  }

  /** Number of white-space chars at the end of `s`. */
  function TrailingSpaces(s: string, w: Whitespace): (n: nat)
    ensures n <= |s|
    ensures forall i :: |s| - n <= i < |s| ==> IsSpace(w, s[i])
    ensures n < |s| ==> !IsSpace(w, s[|s| - n - 1])
    decreases |s|
  {
    if s != [] && IsSpace(w, s[|s| - 1]) then 1 + TrailingSpaces(s[..|s| - 1], w) else 0
  }

  function Trim(s: string, w: Whitespace): (r: string)
  {
    var t := s[LeadingSpaces(s, w)..];
    t[..|t| - TrailingSpaces(t, w)]
  }

  function JavaTrim(s: string): string { Trim(s, JavaSpace) }

  function JsTrim(s: string): string { Trim(s, JsSpace) }

  /** JavaScript `s.trim() === ''`. */
  predicate JsBlank(s: string) { JsTrim(s) == "" }

  /** A string is blank (trims to nothing) exactly when every char is
   *  white space. */
  lemma TrimEmptyIff(s: string, w: Whitespace)
    ensures Trim(s, w) == [] <==> forall i :: 0 <= i < |s| ==> IsSpace(w, s[i])
  {
    var k := LeadingSpaces(s, w);
    var t := s[k..];
    var m := TrailingSpaces(t, w);
    if Trim(s, w) == [] {
      assert |t| == m;
      assert k == |s|;
    } else {
      assert k < |s|;
    }
  }

  /** Trimming keeps a contiguous middle part of the input, and that part
   *  neither starts nor ends with white space. */
  lemma TrimIsSlice(s: string, w: Whitespace)
    ensures exists i, j :: 0 <= i <= j <= |s| && Trim(s, w) == s[i..j]
    ensures var r := Trim(s, w); r == [] || (!IsSpace(w, r[0]) && !IsSpace(w, r[|r| - 1]))
  {
    var k := LeadingSpaces(s, w);
    var t := s[k..];
    var m := TrailingSpaces(t, w);
    var r := Trim(s, w);
    assert r == s[k..k + |t| - m];
    if r != [] {
      assert r[0] == t[0] == s[k];
      assert r[|r| - 1] == t[|t| - m - 1];
    }
  }

  /** Trimming a trimmed string changes nothing. */
  lemma TrimIdempotent(s: string, w: Whitespace)
    ensures Trim(Trim(s, w), w) == Trim(s, w)
  {
    var r := Trim(s, w);
    TrimIsSlice(s, w);
    if r != [] {
      assert LeadingSpaces(r, w) == 0;
      assert TrailingSpaces(r, w) == 0;
      assert r[0..][..|r| - 0] == r;
    }
  }

  // ---------------------------------------------------------------------
  // ASCII case mapping (Java `toLowerCase`/`toUpperCase`/`equalsIgnoreCase`,
  // JavaScript `toLowerCase`/`toUpperCase`)

  function LowerChar(c: char): char { if 'A' <= c <= 'Z' then (c as int + 32) as char else c }

  function UpperChar(c: char): char { if 'a' <= c <= 'z' then (c as int - 32) as char else c }

  function Lower(s: string): (r: string)
    ensures |r| == |s| && forall i :: 0 <= i < |s| ==> r[i] == LowerChar(s[i])
  {
    seq(|s|, i requires 0 <= i < |s| => LowerChar(s[i]))
  }

  function Upper(s: string): (r: string)
    ensures |r| == |s| && forall i :: 0 <= i < |s| ==> r[i] == UpperChar(s[i])
  {
    seq(|s|, i requires 0 <= i < |s| => UpperChar(s[i]))
  }

  predicate EqualsIgnoreCase(a: string, b: string) { Lower(a) == Lower(b) }

  /** Upper-casing forgets the case the string had. */
  lemma UpperForgetsCase(s: string)
    ensures Upper(Upper(s)) == Upper(s) && Upper(Lower(s)) == Upper(s)
  {
  }

  // ---------------------------------------------------------------------
  // Building and splitting

  /** `c.repeat(n)`. */
  function Repeat(c: char, n: nat): (r: string)
    ensures |r| == n && forall i :: 0 <= i < n ==> r[i] == c
  {
    seq(n, _ => c)
  }

  /** Index of the first occurrence of `c`, or `|s|` when there is none. */
  function IndexOf(s: string, c: char): (i: nat)
    ensures i <= |s|
    ensures i < |s| ==> s[i] == c
    ensures c !in s[..i]
    ensures i == |s| <==> c !in s
    decreases |s|
  {
    if s == [] then 0 else if s[0] == c then 0 else 1 + IndexOf(s[1..], c)
  }

  /** JavaScript `s.split(c)` for a one-char separator: every piece is kept. */
  function Split(s: string, c: char): (parts: seq<string>)
    ensures |parts| >= 1
    ensures forall k :: 0 <= k < |parts| ==> c !in parts[k]
    decreases |s|
  {
    var i := IndexOf(s, c);
    if i == |s| then [s] else [s[..i]] + Split(s[i + 1..], c)
  }

  /** `parts.join(c)`. */
  function Join(parts: seq<string>, c: char): string
  {
    if parts == [] then "" else if |parts| == 1 then parts[0] else parts[0] + [c] + Join(parts[1..], c)
  }

  /** Splitting and joining on the same char gives the input back. */
  lemma {:induction false} JoinSplit(s: string, c: char)
    ensures Join(Split(s, c), c) == s
    decreases |s|
  {
    var i := IndexOf(s, c);
    if i < |s| {
      var rest := s[i + 1..];
      var tail := Split(rest, c);
      var parts := Split(s, c);
      assert parts == [s[..i]] + tail;
      assert parts[0] == s[..i] && parts[1..] == tail;
      JoinSplit(rest, c);
      assert Join(parts, c) == s[..i] + [c] + rest;
      assert s == s[..i] + [c] + rest;
    }
  }

  /** Splitting the join of separator-free pieces gives the pieces back. */
  lemma {:induction false} SplitJoin(parts: seq<string>, c: char)
    requires |parts| >= 1
    requires forall k :: 0 <= k < |parts| ==> c !in parts[k]
    ensures Split(Join(parts, c), c) == parts
    decreases |parts|
  {
    if |parts| > 1 {
      var s := Join(parts, c);
      var rest := Join(parts[1..], c);
      assert s == parts[0] + [c] + rest;
      assert s[..|parts[0]|] == parts[0];
      assert s[|parts[0]|] == c;
      assert IndexOf(s, c) == |parts[0]| by {
        IndexOfPrefix(parts[0], c, [c] + rest);
      }
      assert s[|parts[0]| + 1..] == rest;
      SplitJoin(parts[1..], c);
    } else {
      assert IndexOf(parts[0], c) == |parts[0]|;
    }
  }

  lemma {:induction false} IndexOfPrefix(a: string, c: char, b: string)
    requires c !in a && b != [] && b[0] == c
    ensures IndexOf(a + b, c) == |a|
    decreases |a|
  {
    if a == [] {
      assert a + b == b;
    } else {
      assert (a + b)[1..] == a[1..] + b;
      IndexOfPrefix(a[1..], c, b);
    }
  }

  /** Splitting at the first separator peels off the piece before it. */
  lemma SplitFirst(a: string, c: char, b: string)
    requires c !in a
    ensures Split(a + [c] + b, c) == [a] + Split(b, c)
  {
    var s := a + [c] + b;
    IndexOfPrefix(a, c, [c] + b);
    assert s == a + ([c] + b);
    assert s[..|a|] == a && s[|a| + 1..] == b;
  }

  /** Removes the empty strings at the end of a split result. */
  function DropTrailingEmpty(parts: seq<string>): (r: seq<string>)
    ensures |r| <= |parts| && r == parts[..|r|]
    ensures r == [] || r[|r| - 1] != ""
    ensures forall k :: |r| <= k < |parts| ==> parts[k] == ""
    decreases |parts|
  {
    if parts != [] && parts[|parts| - 1] == "" then DropTrailingEmpty(parts[..|parts| - 1]) else parts
  }

  /** Java `s.split(",")` for a one-char separator: with no separator in the
   *  input the result is the input alone (so `""` gives `[""]`); otherwise
   *  the pieces with the trailing empty ones removed (so `","` gives `[]`). */
  function JavaSplit(s: string, c: char): (parts: seq<string>)
    ensures c !in s ==> parts == [s]
    ensures c in s ==> parts == DropTrailingEmpty(Split(s, c))
  {
    if c !in s then [s] else DropTrailingEmpty(Split(s, c))
  }

  /** Every occurrence of `c` replaced by `t` (JavaScript `replace(/c/g, t)`,
   *  Java `replace(c, t)`). */
  function ReplaceChar(s: string, c: char, t: string): (r: string)
    ensures c !in s ==> r == s
    decreases |s|
  {
    if s == [] then [] else (if s[0] == c then t else [s[0]]) + ReplaceChar(s[1..], c, t)
  }

  /** Every occurrence of `c` removed. */
  function RemoveChar(s: string, c: char): (r: string)
    ensures c !in r
    ensures |r| <= |s|
    decreases |s|
  {
    if s == [] then [] else (if s[0] == c then [] else [s[0]]) + RemoveChar(s[1..], c)
  }

  /** Number of elements of `s` satisfying `p`. */
  function CountIf<T>(s: seq<T>, p: T -> bool): (n: nat)
    ensures n <= |s|
    decreases |s|
  {
    if s == [] then 0 else (if p(s[0]) then 1 else 0) + CountIf(s[1..], p)
  }

  /** Elements of `s` satisfying `p`, in order (JavaScript `filter`). */
  function Filter<T>(s: seq<T>, p: T -> bool): (r: seq<T>)
    ensures |r| == CountIf(s, p)
    ensures forall x :: x in r ==> x in s && p(x)
    ensures forall x :: x in s && p(x) ==> x in r
    decreases |s|
  {
    if s == [] then [] else (if p(s[0]) then [s[0]] else []) + Filter(s[1..], p)
  }

  lemma {:induction false} FilterConcat<T>(a: seq<T>, b: seq<T>, p: T -> bool)
    ensures Filter(a + b, p) == Filter(a, p) + Filter(b, p)
    decreases |a|
  {
    if a == [] {
      assert a + b == b;
    } else {
      assert (a + b)[0] == a[0] && (a + b)[1..] == a[1..] + b;
      FilterConcat(a[1..], b, p);
    }
  }

  /** A filter that every element passes returns its input. */
  lemma {:induction false} FilterKeepsAll<T>(s: seq<T>, p: T -> bool)
    requires forall k :: 0 <= k < |s| ==> p(s[k])
    ensures Filter(s, p) == s
    decreases |s|
  {
    if s != [] {
      FilterKeepsAll(s[1..], p);
    }
  }

  /** Filters with tests that agree on every element give the same result. */
  lemma {:induction false} FilterPointwise<T>(s: seq<T>, p: T -> bool, q: T -> bool)
    requires forall k :: 0 <= k < |s| ==> p(s[k]) == q(s[k])
    ensures Filter(s, p) == Filter(s, q)
    decreases |s|
  {
    if s != [] {
      FilterPointwise(s[1..], p, q);
    }
  }

  /** A sequence is empty exactly when nothing is in it. */
  lemma EmptyIffNoMember<T>(s: seq<T>)
    ensures s == [] <==> forall t :: t !in s
  {
    if s != [] {
      assert s[0] in s;
    }
  }

  /** Every element passes exactly one of `p` and its negation `q`. */
  lemma {:induction false} CountIfSplit<T>(s: seq<T>, p: T -> bool, q: T -> bool)
    requires forall x :: q(x) == !p(x)
    ensures CountIf(s, p) + CountIf(s, q) == |s|
    decreases |s|
  {
    if s != [] {
      CountIfSplit(s[1..], p, q);
    }
  }
}
