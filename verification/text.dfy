/** The two string operations the keyword policy relies on: lower-casing
    and substring search (Python's `str.lower()` and `needle in hay`). */
module Text {

  /** Lower-cases one character; only the ASCII letters A-Z are folded. */
  function LowerChar(c: char): char
  {
    if 'A' <= c <= 'Z' then (c as int + 32) as char else c
  }

  /** No capital letter A-Z occurs in `s`. */
  predicate NoCapitals(s: string)
  {
    forall i :: 0 <= i < |s| ==> !('A' <= s[i] <= 'Z')
  }

  /** `s.lower()`, character by character: no capital is left. */
  function Lower(s: string): (r: string)
    ensures |r| == |s|
    ensures forall i :: 0 <= i < |s| ==> r[i] == LowerChar(s[i])
    ensures NoCapitals(r)
  {
    if s == [] then [] else [LowerChar(s[0])] + Lower(s[1..])
  }

  /** The two characters are equal, or a capital and its small letter. */
  predicate SameLetter(a: char, b: char)
  {
    || a == b
    || ('A' <= a <= 'Z' && b as int == a as int + 32)
    || ('A' <= b <= 'Z' && a as int == b as int + 32)
  }

  /** The two strings differ at most in the case of their letters. */
  predicate SameUpToCase(s: string, t: string)
  {
    |s| == |t| && forall i :: 0 <= i < |s| ==> SameLetter(s[i], t[i])
  }

  /** Lower-casing forgets the case of letters. */
  lemma LowerIgnoresCase(s: string, t: string)
    requires SameUpToCase(s, t)
    ensures Lower(s) == Lower(t)
  {
  }

  /** A string without capitals is its own lower-case form. */
  lemma LowerKeepsLower(s: string)
    requires NoCapitals(s)
    ensures Lower(s) == s
  {
  }

  /** `needle` starts at position `i` of `hay`. */
  ghost predicate OccursAt(needle: string, hay: string, i: int)
  {
    0 <= i && i + |needle| <= |hay| && hay[i..i + |needle|] == needle
  }

  /** `needle` occurs as a contiguous piece of `hay`. */
  ghost predicate Occurs(needle: string, hay: string)
  {
    exists i :: OccursAt(needle, hay, i)
  }

  /** Dropping the first character moves every later occurrence back by one. */
  lemma OccursShift(needle: string, hay: string, i: int)
    requires 1 <= i && hay != []
    ensures OccursAt(needle, hay, i) <==> OccursAt(needle, hay[1..], i - 1)
  {
    if i + |needle| <= |hay| {
      assert hay[1..][i - 1..i - 1 + |needle|] == hay[i..i + |needle|];
    }
  }

  lemma OccursStep(needle: string, hay: string)
    requires |needle| <= |hay| && hay[..|needle|] != needle
    ensures Occurs(needle, hay) <==> Occurs(needle, hay[1..])
  {
    assert hay != [] by { assert |needle| > 0; }
    if Occurs(needle, hay) {
      var i :| OccursAt(needle, hay, i);
      assert i != 0 by { assert hay[0..|needle|] == hay[..|needle|]; }
      OccursShift(needle, hay, i);
    }
    if Occurs(needle, hay[1..]) {
      var i :| OccursAt(needle, hay[1..], i);
      OccursShift(needle, hay, i + 1);
    }
  }

  /** Python's `needle in hay` on strings: true exactly when `needle`
      occurs somewhere in `hay` (the empty string occurs everywhere). */
  function Contains(needle: string, hay: string): (b: bool)
    ensures b <==> Occurs(needle, hay)
    decreases |hay|
  {
    if |hay| < |needle| then false
    else if hay[..|needle|] == needle then
      assert hay[0..|needle|] == hay[..|needle|];
      assert OccursAt(needle, hay, 0);
      true
    else
      OccursStep(needle, hay);
      Contains(needle, hay[1..])
  }
}
