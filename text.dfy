/**
 * Character classes and string helpers shared by the bot's text checks.
 * Case mapping and the word-character class are ASCII only; whitespace is
 * the full set that Python's `str.strip()` and the regex class `\s` treat as
 * whitespace.
 */
module Text {

  datatype Option<+T> = None | Some(value: T)

  predicate IsUpper(c: char) { 'A' <= c <= 'Z' }
  predicate IsLower(c: char) { 'a' <= c <= 'z' }
  /** The regex class `[a-zA-Z]`. */
  predicate IsLetter(c: char) { IsUpper(c) || IsLower(c) }
  predicate IsDigit(c: char) { '0' <= c <= '9' }
  /** The regex class `\w`, restricted to ASCII. */
  predicate IsWordChar(c: char) { IsLetter(c) || IsDigit(c) || c == '_' }

  /** Python's whitespace: what `str.strip()` removes and what `\s` matches. */
  predicate IsSpace(c: char) {
    || ('\t' <= c <= '\r')
    || ('\U{1C}' <= c <= ' ')
    || c == '\U{85}' || c == '\U{A0}' || c == '\U{1680}'
    || ('\U{2000}' <= c <= '\U{200A}')
    || c == '\U{2028}' || c == '\U{2029}' || c == '\U{202F}' || c == '\U{205F}'
    || c == '\U{3000}'
  }

  function LowerChar(c: char): char {
    if IsUpper(c) then (c as int - 'A' as int + 'a' as int) as char else c
  }

  function UpperChar(c: char): char {
    if IsLower(c) then (c as int - 'a' as int + 'A' as int) as char else c
  }

  /** `str.lower()` on the ASCII range; other characters are kept. */
  function Lower(s: string): string {
    seq(|s|, i requires 0 <= i < |s| => LowerChar(s[i]))
  }

  /** `str.upper()` on the ASCII range; other characters are kept. */
  function Upper(s: string): string {
    seq(|s|, i requires 0 <= i < |s| => UpperChar(s[i]))
  }

  /** What `lower()` does: same length, no upper-case letter left, each upper-case letter
      replaced by its lower-case partner, every other character kept; lowering twice is lowering once. */
  lemma LowerMeaning(s: string)
    ensures |Lower(s)| == |s|
    ensures forall i :: 0 <= i < |s| ==> !IsUpper(Lower(s)[i])
    ensures forall i :: 0 <= i < |s| && IsUpper(s[i]) ==> IsLower(Lower(s)[i]) && UpperChar(Lower(s)[i]) == s[i]
    ensures forall i :: 0 <= i < |s| && !IsUpper(s[i]) ==> Lower(s)[i] == s[i]
    ensures Lower(Lower(s)) == Lower(s)
  {
  }

  /** `str.capitalize()`: first character upper case, the rest lower case. */
  function Capitalize(s: string): string {
    if s == [] then [] else [UpperChar(s[0])] + Lower(s[1..])
  }

  predicate AllSpace(s: string) {
    forall k :: 0 <= k < |s| ==> IsSpace(s[k])
  }

  /** Every character of `s[i..j]` is whitespace. */
  predicate SpaceRun(s: string, i: nat, j: nat)
    requires i <= j <= |s|
  {
    forall k :: i <= k < j ==> IsSpace(s[k])
  }

  /** Every character of `s[i..j]` is an ASCII letter. */
  predicate LetterRun(s: string, i: nat, j: nat)
    requires i <= j <= |s|
  {
    forall k :: i <= k < j ==> IsLetter(s[k])
  }

  /** End of the maximal whitespace run starting at `i` (what a greedy `\s*` consumes). */
  function SpacesEnd(s: string, i: nat): (j: nat)
    requires i <= |s|
    ensures i <= j <= |s| && SpaceRun(s, i, j)
    ensures j == |s| || !IsSpace(s[j])
    decreases |s| - i
  {
    if i < |s| && IsSpace(s[i]) then SpacesEnd(s, i + 1) else i
  }

  /** End of the maximal letter run starting at `i` (what a greedy `[a-zA-Z]*` consumes). */
  function LettersEnd(s: string, i: nat): (j: nat)
    requires i <= |s|
    ensures i <= j <= |s| && LetterRun(s, i, j)
    ensures j == |s| || !IsLetter(s[j])
    decreases |s| - i
  {
    if i < |s| && IsLetter(s[i]) then LettersEnd(s, i + 1) else i
  }

  /** A whitespace run that stops before a non-whitespace character is the greedy one. */
  lemma SpaceRunIsMaximal(s: string, i: nat, j: nat)
    requires i <= j < |s| && SpaceRun(s, i, j) && !IsSpace(s[j])
    ensures j == SpacesEnd(s, i)
  {
  }

  /** A letter run that stops before a non-letter is the greedy one. */
  lemma LetterRunIsMaximal(s: string, i: nat, j: nat)
    requires i <= j <= |s| && LetterRun(s, i, j) && (j == |s| || !IsLetter(s[j]))
    ensures j == LettersEnd(s, i)
  {
  }

  function TrimStart(s: string): (r: string)
    ensures |r| <= |s| && r == s[|s| - |r|..]
    ensures SpaceRun(s, 0, |s| - |r|)
    ensures r == [] || !IsSpace(r[0])
    decreases |s|
  {
    if |s| > 0 && IsSpace(s[0]) then TrimStart(s[1..]) else s
  }

  function TrimEnd(s: string): (r: string)
    ensures |r| <= |s| && r == s[..|r|]
    ensures SpaceRun(s, |r|, |s|)
    ensures r == [] || !IsSpace(r[|r| - 1])
    decreases |s|
  {
    if |s| > 0 && IsSpace(s[|s| - 1]) then TrimEnd(s[..|s| - 1]) else s
  }

  /** `r` is `s` with some whitespace cut from its start and some from its end. */
  ghost predicate IsTrimmingOf(r: string, s: string) {
    exists i :: 0 <= i <= |s| - |r| && r == s[i..i + |r|] && SpaceRun(s, 0, i) && SpaceRun(s, i + |r|, |s|)
  }

  lemma TrimBothIsTrimming(s: string)
    ensures IsTrimmingOf(TrimEnd(TrimStart(s)), s)
  {
    var t := TrimStart(s);
    var r := TrimEnd(t);
    var i := |s| - |t|;
    PrefixOfSuffix(s, i, |r|);
    assert SpaceRun(s, i + |r|, |s|) by {
      SpaceRunOfSuffix(s, i, |r|);
    }
    assert 0 <= i <= |s| - |r| && r == s[i..i + |r|] && SpaceRun(s, 0, i) && SpaceRun(s, i + |r|, |s|);
  }

  lemma PrefixOfSuffix(s: string, i: nat, n: nat)
    requires i + n <= |s|
    ensures s[i..][..n] == s[i..i + n]
  {
  }

  lemma SpaceRunOfSuffix(s: string, i: nat, n: nat)
    requires i + n <= |s| && SpaceRun(s[i..], n, |s| - i)
    ensures SpaceRun(s, i + n, |s|)
  {
    forall k | i + n <= k < |s| ensures IsSpace(s[k]) {
      assert s[k] == s[i..][k - i];
    }
  }

  /** `str.strip()`: the text without its leading and trailing whitespace. */
  function Strip(s: string): (r: string)
    ensures |r| <= |s|
    ensures r == [] || (!IsSpace(r[0]) && !IsSpace(r[|r| - 1]))
    ensures IsTrimmingOf(r, s)
  {
    TrimBothIsTrimming(s);
    TrimEnd(TrimStart(s))
  }

  /** Strip removes exactly the whitespace padding around a text that neither starts nor ends with whitespace. */
  lemma {:induction false} StripPadded(pre: string, x: string, post: string)
    requires AllSpace(pre) && AllSpace(post)
    requires x == [] || (!IsSpace(x[0]) && !IsSpace(x[|x| - 1]))
    ensures Strip(pre + x + post) == x
  {
    if x == [] {
      assert pre + x + post == (pre + post) + [];
      TrimStartPadded(pre + post, []);
    } else {
      assert pre + x + post == pre + (x + post);
      TrimStartPadded(pre, x + post);
      TrimEndPadded(x, post);
    }
  }

  /** A text that neither starts nor ends with whitespace and is `s` with only whitespace
      around it is what `strip()` returns: the trimming is unique. */
  lemma TrimmingIsStrip(r: string, s: string)
    requires IsTrimmingOf(r, s)
    requires r == [] || (!IsSpace(r[0]) && !IsSpace(r[|r| - 1]))
    ensures Strip(s) == r
  {
    var i :| 0 <= i <= |s| - |r| && r == s[i..i + |r|] && SpaceRun(s, 0, i) && SpaceRun(s, i + |r|, |s|);
    SplitAround(s, i, i + |r|);
    SpaceRunSlice(s, 0, i);
    SpaceRunSlice(s, i + |r|, |s|);
    StripPadded(s[..i], r, s[i + |r|..]);
  }

  lemma SplitAround(s: string, i: nat, j: nat)
    requires i <= j <= |s|
    ensures s == s[..i] + s[i..j] + s[j..]
  {
  }

  lemma SpaceRunSlice(s: string, i: nat, j: nat)
    requires i <= j <= |s| && SpaceRun(s, i, j)
    ensures AllSpace(s[i..j])
  {
  }

  lemma {:induction false} TrimStartPadded(pre: string, rest: string)
    requires AllSpace(pre)
    requires rest == [] || !IsSpace(rest[0])
    ensures TrimStart(pre + rest) == rest
    decreases |pre|
  {
    if pre != [] {
      assert (pre + rest)[1..] == pre[1..] + rest;
      TrimStartPadded(pre[1..], rest);
    } else {
      assert pre + rest == rest;
    }
  }

  lemma {:induction false} TrimEndPadded(x: string, post: string)
    requires AllSpace(post)
    requires x == [] || !IsSpace(x[|x| - 1])
    ensures TrimEnd(x + post) == x
    decreases |post|
  {
    if post != [] {
      var last := |post| - 1;
      assert (x + post)[..|x + post| - 1] == x + post[..last];
      TrimEndPadded(x, post[..last]);
    } else {
      assert x + post == x;
    }
  }

  /** `w` occurs in `s` starting at index `p`. */
  predicate OccursAt(s: string, w: string, p: nat) {
    p + |w| <= |s| && s[p..p + |w|] == w
  }

  /** Left-to-right substring search from index `i`. */
  function OccursFrom(s: string, w: string, i: nat): (r: bool)
    ensures r <==> exists p :: i <= p && OccursAt(s, w, p)
    decreases |s| - i
  {
    if i + |w| > |s| then false
    else if OccursAt(s, w, i) then true
    else OccursFrom(s, w, i + 1)
  }

  /** Python's `w in s` on strings. */
  predicate Contains(s: string, w: string) {
    OccursFrom(s, w, 0)
  }

  function DigitChar(d: nat): (c: char)
    requires d < 10
    ensures IsDigit(c)
  {
    ('0' as int + d) as char
  }

  /** The decimal text Python prints for a non-negative integer. */
  function NatToString(n: nat): (r: string)
    ensures |r| > 0 && forall k :: 0 <= k < |r| ==> IsDigit(r[k])
    ensures |r| > 1 ==> r[0] != '0'
    decreases n
  {
    if n < 10 then [DigitChar(n)] else NatToString(n / 10) + [DigitChar(n % 10)]
  }

  /** Value of a string of decimal digits. */
  function DecimalValue(s: string): nat
    requires forall k :: 0 <= k < |s| ==> IsDigit(s[k])
    decreases |s|
  {
    if s == [] then 0
    else
      var last := s[|s| - 1];
      assert IsDigit(last);
      DecimalValue(s[..|s| - 1]) * 10 + (last as int - '0' as int)
  }

  /** The decimal text of `n` reads back as `n`. */
  lemma {:induction false} DecimalRoundTrip(n: nat)
    ensures DecimalValue(NatToString(n)) == n
    decreases n
  {
    var r := NatToString(n);
    if n >= 10 {
      DecimalRoundTrip(n / 10);
      assert r[..|r| - 1] == NatToString(n / 10);
    }
  }
}
