/**
 * The masking helpers of the front end (`formatUtils.js`): `maskEmail`
 * hides all of the local part of an address but its first char, and
 * `obfuscateText` hides the middle of a string.
 */
module FormatUtils {
  import opened Common

  const MASKED_EMAIL := "***@***"

  function Max(a: int, b: int): int { if a >= b then a else b }

  /** `maskEmail(email)`, with "" for an absent address. The local part is
   *  what precedes the first '@' and the domain what lies between the first
   *  and the second. */
  function MaskEmail(email: string): (m: string)
    ensures email == "" ==> m == ""
    ensures email != "" ==> |m| >= 3 && '@' in m
  {
    if email == "" then "" else MaskParts(Split(email, '@'))
  }

  /** The masking of `const [username, domain] = email.split('@')`. */
  function MaskParts(parts: seq<string>): (m: string)
    requires |parts| >= 1
    ensures |m| >= 3 && '@' in m
  {
    if parts[0] == "" || |parts| < 2 || parts[1] == "" then MASKED_EMAIL
    else
      var local := parts[0];
      [local[0]] + Repeat('*', Max(2, |local| - 1)) + "@" + parts[1]
  }

  /** For an address `local@domain` the first char and the domain survive
   *  and the rest of the local part becomes at least two stars. */
  lemma MaskEmailShape(local: string, domain: string)
    requires local != "" && domain != "" && '@' !in local && '@' !in domain
    ensures MaskEmail(local + ['@'] + domain) == [local[0]] + Repeat('*', Max(2, |local| - 1)) + ['@'] + domain
  {
    SplitFirst(local, '@', domain);
    assert Split(domain, '@') == [domain];
  }

  /** Only the text between the first and the second '@' is kept. */
  lemma MaskEmailIgnoresSecondAt(local: string, domain: string, rest: string)
    requires '@' !in local && '@' !in domain
    ensures MaskEmail(local + ['@'] + domain + ['@'] + rest) == MaskEmail(local + ['@'] + domain)
  {
    var p1 := SplitTwoAts(local, domain, rest);
    var p2 := SplitOneAt(local, domain);
    MaskPartsFirstTwo(p1, p2);
  }

  lemma SplitTwoAts(local: string, domain: string, rest: string) returns (parts: seq<string>)
    requires '@' !in local && '@' !in domain
    ensures parts == Split(local + ['@'] + domain + ['@'] + rest, '@')
    ensures |parts| >= 2 && parts[0] == local && parts[1] == domain
  {
    var tail := domain + ['@'] + rest;
    assert local + ['@'] + domain + ['@'] + rest == local + ['@'] + tail;
    SplitFirst(local, '@', tail);
    SplitFirst(domain, '@', rest);
    parts := Split(local + ['@'] + tail, '@');
  }

  lemma SplitOneAt(local: string, domain: string) returns (parts: seq<string>)
    requires '@' !in local && '@' !in domain
    ensures parts == Split(local + ['@'] + domain, '@')
    ensures |parts| >= 2 && parts[0] == local && parts[1] == domain
  {
    SplitFirst(local, '@', domain);
    assert Split(domain, '@') == [domain];
    parts := Split(local + ['@'] + domain, '@');
  }

  lemma MaskPartsFirstTwo(p1: seq<string>, p2: seq<string>)
    requires |p1| >= 2 && |p2| >= 2 && p1[0] == p2[0] && p1[1] == p2[1]
    ensures MaskParts(p1) == MaskParts(p2)
  {
  }

  /** An address without '@' is masked entirely. */
  lemma MaskEmailWithoutAt(email: string)
    requires email != "" && '@' !in email
    ensures MaskEmail(email) == MASKED_EMAIL
  {
  }

  /** `obfuscateText(text, visibleStart, visibleEnd)`. */
  function ObfuscateText(text: string, visibleStart: nat, visibleEnd: nat): (r: string)
    ensures text == "" ==> r == ""
    ensures |text| <= visibleStart + visibleEnd ==> r == Repeat('*', |text|)
    ensures |text| > visibleStart + visibleEnd ==>
      && |r| == visibleStart + visibleEnd + Max(2, |text| - visibleStart - visibleEnd)
      && r[..visibleStart] == text[..visibleStart]
      && r[|r| - visibleEnd..] == text[|text| - visibleEnd..]
      && (forall i :: visibleStart <= i < |r| - visibleEnd ==> r[i] == '*')
  {
    if text == "" then ""
    else if |text| <= visibleStart + visibleEnd then Repeat('*', |text|)
    else
      text[..visibleStart] + Repeat('*', Max(2, |text| - visibleStart - visibleEnd)) + text[|text| - visibleEnd..]
  }

  /** The output has the input's length except when exactly one char is
   *  hidden: then two stars stand for it and the output is one longer. */
  lemma ObfuscateLength(text: string, visibleStart: nat, visibleEnd: nat)
    ensures |ObfuscateText(text, visibleStart, visibleEnd)| ==
      if |text| == visibleStart + visibleEnd + 1 then |text| + 1 else |text|
  {
  }
}
