/**
 * String helpers the source relies on: JavaScript's `String.prototype.trim`,
 * the case folding used by the account-name and account-type comparisons, and
 * Python's `", ".join`.
 */
module Text {

  /** The characters JavaScript's `trim` removes: WhiteSpace and LineTerminator. */
  predicate IsWhitespace(c: char) {
    || c == '\U{0009}' || c == '\U{000A}' || c == '\U{000B}' || c == '\U{000C}'
    || c == '\U{000D}' || c == '\U{0020}' || c == '\U{00A0}' || c == '\U{1680}'
    || ('\U{2000}' <= c <= '\U{200A}')
    || c == '\U{2028}' || c == '\U{2029}' || c == '\U{202F}' || c == '\U{205F}'
    || c == '\U{3000}' || c == '\U{FEFF}'
  }

  predicate AllWhitespace(s: string) {
    forall i :: 0 <= i < |s| ==> IsWhitespace(s[i])
  }

  /** Drops leading whitespace. */
  function TrimStart(s: string): (r: string)
    ensures |r| <= |s| && r == s[|s| - |r|..]
    ensures forall j :: 0 <= j < |s| - |r| ==> IsWhitespace(s[j])
    ensures r == [] || !IsWhitespace(r[0])
  {
    if |s| > 0 && IsWhitespace(s[0]) then TrimStart(s[1..]) else s
  }

  /** Drops trailing whitespace. */
  function TrimEnd(s: string): (r: string)
    ensures |r| <= |s| && r == s[..|r|]
    ensures forall j :: |r| <= j < |s| ==> IsWhitespace(s[j])
    ensures r == [] || !IsWhitespace(r[|r| - 1])
  {
    if |s| > 0 && IsWhitespace(s[|s| - 1]) then TrimEnd(s[..|s| - 1]) else s
  }

  /**
   * JavaScript's `s.trim()`: what is left after dropping the whitespace at both
   * ends neither starts nor ends with whitespace, and keeps every
   * non-whitespace character (see TrimEmptyIff).
   */
  function Trim(s: string): (r: string)
    ensures |r| <= |s|
    ensures r == [] || (!IsWhitespace(r[0]) && !IsWhitespace(r[|r| - 1]))
    ensures exists i :: StripsTo(s, i, r)
  {
    TrimStrips(s);
    TrimEnd(TrimStart(s))
  }

  /** `r` is `s` with the whitespace before index `i` and after `r` removed. */
  predicate StripsTo(s: string, i: int, r: string) {
    && 0 <= i && i + |r| <= |s| && r == s[i..i + |r|]
    && (forall k :: 0 <= k < i ==> IsWhitespace(s[k]))
    && (forall k :: i + |r| <= k < |s| ==> IsWhitespace(s[k]))
  }

  /** Trimming removes only whitespace, and only at the two ends. */
  lemma TrimStrips(s: string)
    ensures StripsTo(s, |s| - |TrimStart(s)|, TrimEnd(TrimStart(s)))
  {
    var t := TrimStart(s);
    TrimEndIsPrefix(s[|s| - |t|..], TrimEnd(t));
    TrimEndTail(s, |s| - |t|, t, TrimEnd(t));
  }

  /** Restates a kept prefix as a slice from 0, the form TrimEndTail's conclusion is matched against. */
  lemma TrimEndIsPrefix(t: string, r: string)
    requires |r| <= |t| && r == t[..|r|]
    ensures r == t[0..|r|]
  {
  }

  /** Whitespace after the kept part of a suffix of `s` is whitespace of `s`. */
  lemma TrimEndTail(s: string, i: int, t: string, r: string)
    requires 0 <= i <= |s| && t == s[i..] && |r| <= |t| && r == t[..|r|]
    requires forall j :: |r| <= j < |t| ==> IsWhitespace(t[j])
    ensures r == s[i..i + |r|]
    ensures forall k :: i + |r| <= k < |s| ==> IsWhitespace(s[k])
  {
    forall k | i + |r| <= k < |s|
      ensures IsWhitespace(s[k])
    {
      assert s[k] == t[k - i];
    }
  }

  lemma {:induction false} TrimStartOfWhitespace(s: string)
    requires AllWhitespace(s)
    ensures TrimStart(s) == []
  {
    if |s| > 0 {
      TrimStartOfWhitespace(s[1..]);
    }
  }

  /** A non-whitespace character is never dropped from the front. */
  lemma {:induction false} TrimStartKeeps(s: string, k: int)
    requires 0 <= k < |s| && !IsWhitespace(s[k])
    ensures |s| - |TrimStart(s)| <= k
  {
    if IsWhitespace(s[0]) {
      TrimStartKeeps(s[1..], k - 1);
    }
  }

  /** A non-whitespace character is never dropped from the back. */
  lemma {:induction false} TrimEndKeeps(s: string, k: int)
    requires 0 <= k < |s| && !IsWhitespace(s[k])
    ensures k < |TrimEnd(s)|
  {
    if IsWhitespace(s[|s| - 1]) {
      TrimEndKeeps(s[..|s| - 1], k);
    }
  }

  /** JavaScript truthiness of `s.trim()`: the trimmed text is empty exactly when `s` is all whitespace. */
  lemma {:induction false} TrimEmptyIff(s: string)
    ensures Trim(s) == [] <==> AllWhitespace(s)
  {
    if AllWhitespace(s) {
      TrimStartOfWhitespace(s);
    } else {
      var k :| 0 <= k < |s| && !IsWhitespace(s[k]);
      TrimKeepsNonWhitespace(s, k);
    }
  }

  /** One non-whitespace character is enough for the trimmed text to be non-empty. */
  lemma {:induction false} TrimKeepsNonWhitespace(s: string, k: int)
    requires 0 <= k < |s| && !IsWhitespace(s[k])
    ensures Trim(s) != []
  {
    TrimStartKeeps(s, k);
    var t := TrimStart(s);
    var j := k - (|s| - |t|);
    assert t[j] == s[k];
    TrimEndKeeps(t, j);
  }

  /** Text with no whitespace at either end is left as it is. */
  lemma {:induction false} TrimOfTrimmed(s: string)
    requires s == [] || (!IsWhitespace(s[0]) && !IsWhitespace(s[|s| - 1]))
    ensures Trim(s) == s
  {
    TrimStartAt(s);
    TrimEndAt(s);
  }

  lemma TrimStartAt(s: string)
    requires s == [] || !IsWhitespace(s[0])
    ensures TrimStart(s) == s
  {
  }

  lemma TrimEndAt(s: string)
    requires s == [] || !IsWhitespace(s[|s| - 1])
    ensures TrimEnd(s) == s
  {
  }

  /** Trimming twice is trimming once. */
  lemma {:induction false} TrimIdempotent(s: string)
    ensures Trim(Trim(s)) == Trim(s)
  {
    TrimOfTrimmed(Trim(s));
  }

  /** The distance between an ASCII capital and its small letter. */
  const CaseOffset: int := 'a' as int - 'A' as int

  /** ASCII lower-casing of one character: a capital becomes its own small letter; every other character is unchanged. */
  function LowerChar(c: char): (r: char)
    ensures 'A' <= c <= 'Z' ==> 'a' <= r <= 'z' && r as int == c as int + CaseOffset
    ensures !('A' <= c <= 'Z') ==> r == c
  {
    if 'A' <= c <= 'Z' then (c as int + 32) as char else c
  }

  /** ASCII upper-casing of one character: a small letter becomes its own capital; every other character is unchanged. */
  function UpperChar(c: char): (r: char)
    ensures 'a' <= c <= 'z' ==> 'A' <= r <= 'Z' && r as int == c as int - CaseOffset
    ensures !('a' <= c <= 'z') ==> r == c
  {
    if 'a' <= c <= 'z' then (c as int - 32) as char else c
  }

  /** Upper- and lower-casing undo each other on ASCII letters. */
  lemma CaseRoundTrip(c: char)
    ensures 'a' <= c <= 'z' ==> LowerChar(UpperChar(c)) == c
    ensures 'A' <= c <= 'Z' ==> UpperChar(LowerChar(c)) == c
  {
  }

  function Lower(s: string): (r: string)
    ensures |r| == |s|
    ensures forall i :: 0 <= i < |s| ==> r[i] == LowerChar(s[i])
  {
    seq(|s|, i requires 0 <= i < |s| => LowerChar(s[i]))
  }

  function Upper(s: string): (r: string)
    ensures |r| == |s|
    ensures forall i :: 0 <= i < |s| ==> r[i] == UpperChar(s[i])
  {
    seq(|s|, i requires 0 <= i < |s| => UpperChar(s[i]))
  }

  /** Equality after ASCII lower-casing, the comparison `func.lower(a) == func.lower(b)` makes. */
  predicate EqualsIgnoringCase(a: string, b: string) {
    Lower(a) == Lower(b)
  }

  /**
   * Two texts are equal ignoring case exactly when they have the same length
   * and agree character by character once capitals are folded.
   */
  lemma {:induction false} EqualsIgnoringCaseIff(a: string, b: string)
    ensures EqualsIgnoringCase(a, b) <==> |a| == |b| && forall i :: 0 <= i < |a| ==> LowerChar(a[i]) == LowerChar(b[i])
  {
    if |a| == |b| && forall i :: 0 <= i < |a| ==> LowerChar(a[i]) == LowerChar(b[i]) {
      assert forall i :: 0 <= i < |a| ==> Lower(a)[i] == Lower(b)[i];
    }
    if EqualsIgnoringCase(a, b) {
      assert |a| == |Lower(a)| == |Lower(b)| == |b|;
      forall i | 0 <= i < |a|
        ensures LowerChar(a[i]) == LowerChar(b[i])
      {
        assert Lower(a)[i] == Lower(b)[i];
      }
    }
  }

  /** Text differing only in the case of ASCII letters is equal ignoring case; other characters must match exactly. */
  lemma {:induction false} CaseVariantsMatch(a: string)
    ensures EqualsIgnoringCase(a, Upper(a)) && EqualsIgnoringCase(Lower(a), a)
  {
    forall i | 0 <= i < |a|
      ensures LowerChar(a[i]) == LowerChar(Upper(a)[i]) && LowerChar(Lower(a)[i]) == LowerChar(a[i])
    {
      CaseRoundTrip(a[i]);
    }
    EqualsIgnoringCaseIff(a, Upper(a));
    EqualsIgnoringCaseIff(Lower(a), a);
  }

  /** Python's `sep.join(xs)`: the items in order, with `sep` between each two. */
  function Join(xs: seq<string>, sep: string): string
  {
    if |xs| == 0 then ""
    else if |xs| == 1 then xs[0]
    else Join(xs[..|xs| - 1], sep) + sep + xs[|xs| - 1]
  }

  /** Appending an item to a non-empty list appends the separator and the item to the joined text. */
  lemma JoinSnoc(xs: seq<string>, x: string, sep: string)
    ensures |xs| > 0 ==> Join(xs + [x], sep) == Join(xs, sep) + sep + x
    ensures Join([x], sep) == x
  {
    if |xs| > 0 {
      assert (xs + [x])[..|xs + [x]| - 1] == xs;
    }
  }
}
