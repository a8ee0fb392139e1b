/**
 * String helpers standing in for the JavaScript built-ins used by the pages:
 * `toLowerCase`, `toUpperCase`, `includes` and `replace` with a one-character
 * string pattern. Case mapping is restricted to ASCII letters.
 */
module Text {

  predicate IsUpperLetter(c: char) { 'A' <= c <= 'Z' }

  predicate IsLowerLetter(c: char) { 'a' <= c <= 'z' }

  function LowerChar(c: char): (r: char)
    ensures !IsUpperLetter(r)
    ensures IsLowerLetter(c) || !IsUpperLetter(c) ==> r == c
  {
    if IsUpperLetter(c) then (c as int + 32) as char else c
  }

  function UpperChar(c: char): (r: char)
    ensures !IsLowerLetter(r)
    ensures IsUpperLetter(c) || !IsLowerLetter(c) ==> r == c
  {
    if IsLowerLetter(c) then (c as int - 32) as char else c
  }

  /** `s.toLowerCase()`: no upper-case letter is left, every character keeps its letter. */
  function Lower(s: string): (r: string)
    ensures |r| == |s|
    ensures forall i :: 0 <= i < |r| ==> !IsUpperLetter(r[i])
    ensures forall i :: 0 <= i < |s| ==> LowerChar(r[i]) == LowerChar(s[i])
  {
    seq(|s|, i requires 0 <= i < |s| => LowerChar(s[i]))
  }

  /** `s.toUpperCase()`: no lower-case letter is left, every character keeps its letter. */
  function Upper(s: string): (r: string)
    ensures |r| == |s|
    ensures forall i :: 0 <= i < |r| ==> !IsLowerLetter(r[i])
    ensures forall i :: 0 <= i < |s| ==> UpperChar(r[i]) == UpperChar(s[i])
  {
    seq(|s|, i requires 0 <= i < |s| => UpperChar(s[i]))
  }

  /** Lower-casing twice is lower-casing once. */
  lemma LowerIdempotent(s: string)
    ensures Lower(Lower(s)) == Lower(s)
  {
  }

  lemma LowerSlice(s: string, i: int, j: int)
    requires 0 <= i <= j <= |s|
    ensures Lower(s)[i..j] == Lower(s[i..j])
  {
  }

  lemma LowerCons(c: char, s: string)
    ensures Lower([c] + s) == [LowerChar(c)] + Lower(s)
  {
  }

  lemma LowerWithoutCapitals(s: string)
    requires forall i :: 0 <= i < |s| ==> !IsUpperLetter(s[i])
    ensures Lower(s) == s
  {
  }

  /** Two strings are equal up to letter case when they lower-case to the same string. */
  predicate EqualIgnoringCase(a: string, b: string) {
    Lower(a) == Lower(b)
  }

  lemma UpperAppend(a: string, b: string)
    ensures Upper(a + b) == Upper(a) + Upper(b)
  {
    assert forall i :: 0 <= i < |a + b| ==> Upper(a + b)[i] == (Upper(a) + Upper(b))[i];
  }

  /** `n` occurs in `h` starting at position `i`. */
  predicate OccursAt(h: string, n: string, i: int) {
    0 <= i && i + |n| <= |h| && h[i..i + |n|] == n
  }

  predicate StartsWith(h: string, n: string) {
    |n| <= |h| && h[..|n|] == n
  }

  lemma OccursAtShift(h: string, n: string)
    requires h != []
    ensures forall i :: OccursAt(h[1..], n, i) ==> OccursAt(h, n, i + 1)
    ensures forall i :: 1 <= i && OccursAt(h, n, i) ==> OccursAt(h[1..], n, i - 1)
  {
    forall i | OccursAt(h[1..], n, i) ensures OccursAt(h, n, i + 1) {
      assert h[1..][i..i + |n|] == h[i + 1..i + 1 + |n|];
    }
    forall i | 1 <= i && OccursAt(h, n, i) ensures OccursAt(h[1..], n, i - 1) {
      assert h[1..][i - 1..i - 1 + |n|] == h[i..i + |n|];
    }
  }

  /** `h.includes(n)`: true exactly when `n` occurs somewhere in `h`. */
  function Contains(h: string, n: string): (r: bool)
    ensures r <==> exists i :: OccursAt(h, n, i)
    decreases |h|
  {
    assert OccursAt(h, n, 0) <==> StartsWith(h, n);
    if StartsWith(h, n) then true
    else if h == [] then false
    else
      OccursAtShift(h, n);
      Contains(h[1..], n)
  }

  /** The empty string occurs in every string, as JavaScript's `"x".includes("")` is true. */
  lemma ContainsEmpty(h: string)
    ensures Contains(h, "")
  {
    assert OccursAt(h, "", 0);
  }

  /** A string contains itself and every one of its slices. */
  lemma ContainsSlice(h: string, i: int, j: int)
    requires 0 <= i <= j <= |h|
    ensures Contains(h, h[i..j])
  {
    assert OccursAt(h, h[i..j], i);
  }

  /** Case-insensitive `includes`, the way the activity filter compares text. */
  predicate ContainsIgnoringCase(h: string, n: string) {
    Contains(Lower(h), Lower(n))
  }

  /** Changing the letter case of either argument does not change a case-insensitive match. */
  lemma ContainsIgnoringCaseRespectsCase(h: string, h': string, n: string, n': string)
    requires EqualIgnoringCase(h, h') && EqualIgnoringCase(n, n')
    ensures ContainsIgnoringCase(h, n) == ContainsIgnoringCase(h', n')
  {
  }

  /**
   * `s.replace(from, to)` with one-character strings: only the first
   * occurrence of `from` is replaced, and no other character changes.
   */
  function ReplaceFirst(s: string, from: char, to: char): (r: string)
    ensures |r| == |s|
    ensures forall i :: 0 <= i < |s| && r[i] != s[i] ==> s[i] == from && r[i] == to
    ensures forall i, j :: 0 <= i < j < |s| && r[i] != s[i] ==> r[j] == s[j]
  {
    if s == [] then []
    else if s[0] == from then [to] + s[1..]
    else [s[0]] + ReplaceFirst(s[1..], from, to)
  }

  /** Without an occurrence of `from`, the string is returned unchanged. */
  lemma {:induction false} ReplaceFirstAbsent(s: string, from: char, to: char)
    requires from !in s
    ensures ReplaceFirst(s, from, to) == s
  {
    if s != [] {
      ReplaceFirstAbsent(s[1..], from, to);
    }
  }

  /** Only the first occurrence is replaced: everything before it has none, everything after it is kept. */
  lemma {:induction false} ReplaceFirstSplit(before: string, after: string, from: char, to: char)
    requires from !in before
    ensures ReplaceFirst(before + [from] + after, from, to) == before + [to] + after
  {
    if before == [] {
      assert before + [from] + after == [from] + after;
    } else {
      assert (before + [from] + after)[1..] == before[1..] + [from] + after;
      ReplaceFirstSplit(before[1..], after, from, to);
    }
  }
}
