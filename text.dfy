/**
 * The two string operations the response interpreter relies on: Python's
 * `str.lower()` and the substring test `needle in haystack`.
 *
 * Lower-casing is modelled on ASCII letters only. Every comparison made
 * with it here (against "yes" and against the fallback marker) involves
 * only the letters a, c, d, e, o, r, s, t, u, y and punctuation; the only
 * non-ASCII characters whose Unicode lower case contains an ASCII letter
 * are KELVIN SIGN (to 'k') and LATIN CAPITAL LETTER I WITH DOT ABOVE
 * (to 'i' plus a combining dot), and neither 'k' nor 'i' appears in those
 * strings, so the decisions come out the same.
 */
module Text {

  /** Lower case of one character: A-Z map to a-z, all else is unchanged. */
  function LowerChar(c: char): (r: char)
  {
    if 'A' <= c <= 'Z' then (c as int - 'A' as int + 'a' as int) as char else c
  }

  /** `s.lower()`: same length, no capital letter left, and every character
      either kept or replaced by the lower-case form of its capital. */
  function Lower(s: string): (r: string)
    ensures |r| == |s|
    ensures forall i :: 0 <= i < |r| ==> !('A' <= r[i] <= 'Z')
    ensures forall i :: 0 <= i < |s| ==>
      if 'A' <= s[i] <= 'Z' then r[i] as int == s[i] as int - 'A' as int + 'a' as int
      else r[i] == s[i]
  {
    seq(|s|, i requires 0 <= i < |s| => LowerChar(s[i]))
  }

  /** Lower-casing a slice is slicing the lower-cased string. */
  lemma LowerSlice(s: string, i: int, j: int)
    requires 0 <= i <= j <= |s|
    ensures Lower(s[i..j]) == Lower(s)[i..j]
  {
  }

  /** For the ASCII `Lower` of this model, `Lower(s) == w` for a lower-case
      word `w` iff each character of `s` is the letter of `w` or its capital.
      (For Python's Unicode `lower` this also holds whenever `w` has no 'k'
      and no 'i', in particular for "yes".) */
  lemma LowerEqualsIff(s: string, w: string)
    requires forall k :: 0 <= k < |w| ==> 'a' <= w[k] <= 'z'
    ensures Lower(s) == w <==>
      |s| == |w| &&
      forall k :: 0 <= k < |s| ==>
        s[k] == w[k] || s[k] as int == w[k] as int - 'a' as int + 'A' as int
  {
  }

  /** `hay` begins with `prefix`. */
  predicate StartsWith(hay: string, prefix: string)
  {
    |prefix| <= |hay| && hay[..|prefix|] == prefix
  }

  /** Reference meaning of a substring test: `needle` occurs at index `i`. */
  ghost predicate OccursAt(hay: string, needle: string, i: int)
  {
    0 <= i && i + |needle| <= |hay| && hay[i..i + |needle|] == needle
  }

  /** An occurrence in `hay` that is not at its start is an occurrence in
      `hay[1..]`, one index earlier, and conversely. */
  lemma OccursInTail(hay: string, needle: string)
    requires hay != [] && !StartsWith(hay, needle)
    ensures (exists i :: OccursAt(hay, needle, i)) <==> (exists j :: OccursAt(hay[1..], needle, j))
  {
    if exists j :: OccursAt(hay[1..], needle, j) {
      var j :| OccursAt(hay[1..], needle, j);
      assert hay[1..][j..j + |needle|] == hay[j + 1..j + 1 + |needle|];
      assert OccursAt(hay, needle, j + 1);
    }
    if exists i :: OccursAt(hay, needle, i) {
      var i :| OccursAt(hay, needle, i);
      assert i != 0;
      assert hay[1..][i - 1..i - 1 + |needle|] == hay[i..i + |needle|];
      assert OccursAt(hay[1..], needle, i - 1);
    }
  }

  /** `needle in hay`, searched from the left one position at a time: it
      succeeds iff the needle occurs at some index. */
  function Contains(hay: string, needle: string): (r: bool)
    ensures r <==> exists i :: OccursAt(hay, needle, i)
    decreases |hay|
  {
    if StartsWith(hay, needle) then
      assert OccursAt(hay, needle, 0);
      true
    else if hay == [] then
      false
    else
      OccursInTail(hay, needle);
      Contains(hay[1..], needle)
  }
}
