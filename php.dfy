/** PHP and SQL string semantics that the auto-apply pipeline relies on:
    `strtolower`/`LOWER`, `LIKE '%needle%'`, `str_replace`, `implode`,
    `empty()` on a string, and integer interpolation into a string. */
module Php {

  datatype Option<+T> = None | Some(value: T)

  /** A value, or the message of the exception that replaced it. */
  datatype Result<+T> = Ok(value: T) | Err(message: string)

  /** PHP's `empty()` (and falsiness in an `if` or `array_filter`) on a string:
      only "" and "0" are falsy. */
  predicate Falsy(s: string) {
    s == "" || s == "0"
  }

  /** ASCII lower-casing of one character, as `strtolower` and SQL `LOWER` do it here. */
  function LowerChar(c: char): char {
    if 'A' <= c <= 'Z' then (c as int + 32) as char else c
  }

  function Lower(s: string): (r: string)
    ensures |r| == |s|
  {
    seq(|s|, i requires 0 <= i < |s| => LowerChar(s[i]))
  }

  /** Lower-casing twice is lower-casing once: matching on lower-cased text is
      insensitive to the case the keyword was stored in. */
  lemma LowerIdempotent(s: string)
    ensures Lower(Lower(s)) == Lower(s)
  {
    assert forall i :: 0 <= i < |s| ==> LowerChar(LowerChar(s[i])) == LowerChar(s[i]);
  }

  /** `needle` occurs in `hay` at position `i`. */
  predicate OccursAt(hay: string, needle: string, i: int) {
    0 <= i && i + |needle| <= |hay| && hay[i..i + |needle|] == needle
  }

  /** `str_contains`, and SQL `hay LIKE '%needle%'` when the needle holds no wildcard. */
  predicate Contains(hay: string, needle: string) {
    exists i | 0 <= i <= |hay| - |needle| :: OccursAt(hay, needle, i)
  }

  /** Whatever surrounds a piece of text, the result still contains it: the
      fact behind every "the prompt mentions X" property. */
  lemma ContainsInfix(pre: string, mid: string, post: string)
    ensures Contains(pre + mid + post, mid)
  {
    var s := pre + mid + post;
    assert s[|pre|..|pre| + |mid|] == mid;
    assert OccursAt(s, mid, |pre|);
  }

  lemma ContainedIsNoLonger(hay: string, needle: string)
    requires Contains(hay, needle)
    ensures |needle| <= |hay|
  {
  }

  /** A text without the first character of a needle cannot contain it. */
  lemma MissingFirstCharNotContained(hay: string, needle: string)
    requires |needle| > 0 && needle[0] !in hay
    ensures !Contains(hay, needle)
  {
    forall i | 0 <= i <= |hay| - |needle| ensures !OccursAt(hay, needle, i) {
      assert hay[i..i + |needle|][0] == hay[i];
    }
  }

  /** A string without an occurrence has none in its tail either. */
  lemma AbsentFromTail(s: string, needle: string)
    requires |s| > 0 && !Contains(s, needle)
    ensures !Contains(s[1..], needle)
  {
    forall i | 0 <= i <= |s[1..]| - |needle| ensures !OccursAt(s[1..], needle, i) {
      assert !OccursAt(s, needle, i + 1);
      assert s[1..][i..i + |needle|] == s[i + 1..i + 1 + |needle|];
    }
  }

  /** PHP `str_replace(pat, rep, s)` for a non-empty search string: scan left to
      right and replace every non-overlapping occurrence; replaced text is not
      scanned again. */
  function Replace(s: string, pat: string, rep: string): string
    requires |pat| > 0
    decreases |s|
  {
    if |s| < |pat| then s
    else if s[..|pat|] == pat then rep + Replace(s[|pat|..], pat, rep)
    else [s[0]] + Replace(s[1..], pat, rep)
  }

  /** A subject that does not contain the search string comes back unchanged. */
  lemma {:induction false} ReplaceAbsent(s: string, pat: string, rep: string)
    requires |pat| > 0
    requires !Contains(s, pat)
    ensures Replace(s, pat, rep) == s
    decreases |s|
  {
    if |s| >= |pat| {
      assert !OccursAt(s, pat, 0);
      assert s[0..|pat|] == s[..|pat|];
      AbsentFromTail(s, pat);
      ReplaceAbsent(s[1..], pat, rep);
      assert s == [s[0]] + s[1..];
    }
  }

  /** A subject that is exactly the search string becomes the replacement. */
  lemma ReplaceWhole(pat: string, rep: string)
    requires |pat| > 0
    ensures Replace(pat, pat, rep) == rep
  {
    assert pat[..|pat|] == pat;
    assert pat[|pat|..] == [];
    assert rep + [] == rep;
  }

  /** PHP `implode(sep, parts)`. */
  function Implode(sep: string, parts: seq<string>): string
    decreases |parts|
  {
    if |parts| == 0 then ""
    else if |parts| == 1 then parts[0]
    else parts[0] + sep + Implode(sep, parts[1..])
  }

  /** Text put in front of a string keeps every occurrence in it. */
  lemma ContainsAfterPrefix(pre: string, s: string, needle: string)
    requires Contains(s, needle)
    ensures Contains(pre + s, needle)
  {
    var i :| 0 <= i <= |s| - |needle| && OccursAt(s, needle, i);
    assert (pre + s)[|pre| + i..|pre| + i + |needle|] == s[i..i + |needle|];
    assert OccursAt(pre + s, needle, |pre| + i);
  }

  /** Every part appears in the joined text. */
  lemma {:induction false} ImplodeContainsPart(sep: string, parts: seq<string>, k: nat)
    requires k < |parts|
    ensures Contains(Implode(sep, parts), parts[k])
    decreases |parts|
  {
    if |parts| == 1 {
      ContainsInfix("", parts[0], "");
      assert "" + parts[0] + "" == parts[0];
    } else if k == 0 {
      var rest := sep + Implode(sep, parts[1..]);
      ContainsInfix("", parts[0], rest);
      assert "" + parts[0] + rest == Implode(sep, parts);
    } else {
      ImplodeContainsPart(sep, parts[1..], k - 1);
      ContainsAfterPrefix(parts[0] + sep, Implode(sep, parts[1..]), parts[k]);
    }
  }

  /** String interpolation and `.`-concatenation of a list of pieces. */
  function Concat(pieces: seq<string>): string {
    Implode("", pieces)
  }

  /** Each interpolated piece appears in the assembled text. */
  lemma ConcatContainsPiece(pieces: seq<string>, k: nat)
    requires k < |pieces|
    ensures Contains(Concat(pieces), pieces[k])
  {
    ImplodeContainsPart("", pieces, k);
  }

  /** Decimal rendering of a count, as PHP's string interpolation of an int. */
  function NatToString(n: nat): (r: string)
    ensures |r| > 0
    ensures forall i :: 0 <= i < |r| ==> '0' <= r[i] <= '9'
    decreases n
  {
    if n < 10 then [Digit(n)] else NatToString(n / 10) + [Digit(n % 10)]
  }

  function Digit(d: nat): (c: char)
    requires d < 10
    ensures '0' <= c <= '9'
  {
    ('0' as int + d) as char
  }

  /** Value of a string of decimal digits. */
  function DigitsValue(s: string): nat
    requires forall i :: 0 <= i < |s| ==> '0' <= s[i] <= '9'
    decreases |s|
  {
    if s == [] then 0
    else 10 * DigitsValue(s[..|s| - 1]) + (s[|s| - 1] as int - '0' as int)
  }

  /** Reading the rendered count back gives the count: the summary reason
      states the number of successful applications exactly. */
  lemma {:induction false} NatToStringRoundTrip(n: nat)
    ensures DigitsValue(NatToString(n)) == n
    decreases n
  {
    var r := NatToString(n);
    if n >= 10 {
      NatToStringRoundTrip(n / 10);
      assert r[..|r| - 1] == NatToString(n / 10);
    } else {
      assert r[..|r| - 1] == [];
    }
  }

  lemma FirstIsMember<T>(r: seq<T>)
    requires r != []
    ensures r[0] in r
  {
  }

  /** A sequence with no member is empty. */
  lemma NoMemberMeansEmpty<T>(r: seq<T>)
    requires forall x :: x !in r
    ensures r == []
  {
    if r != [] {
      FirstIsMember(r);
      assert false;
    }
  }

  lemma AppendAssociative<T>(a: seq<T>, b: seq<T>, c: seq<T>)
    ensures a + (b + c) == (a + b) + c
  {
  }

  /** `xs` is `ys` with some elements left out, order kept. */
  predicate IsSubsequence<T(==)>(xs: seq<T>, ys: seq<T>)
    decreases |ys|
  {
    || xs == []
    || (&& ys != []
        && (|| (xs[|xs| - 1] == ys[|ys| - 1] && IsSubsequence(xs[..|xs| - 1], ys[..|ys| - 1]))
            || IsSubsequence(xs, ys[..|ys| - 1])))
  }

  lemma SubsequenceKeepLast<T>(xs: seq<T>, ys: seq<T>, y: T)
    requires IsSubsequence(xs, ys)
    ensures IsSubsequence(xs + [y], ys + [y])
  {
    assert (xs + [y])[..|xs|] == xs;
    assert (ys + [y])[..|ys|] == ys;
  }

  lemma SubsequenceSkipLast<T>(xs: seq<T>, ys: seq<T>, y: T)
    requires IsSubsequence(xs, ys)
    ensures IsSubsequence(xs, ys + [y])
  {
    assert (ys + [y])[..|ys|] == ys;
  }
}
