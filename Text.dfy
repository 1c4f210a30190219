/**
 * Character and string operations of the .NET base library that the helpers use.
 *
 * Case mapping (`ToLowerInvariant`, `ToUpperInvariant`, `ToLower`) is modelled on
 * ASCII letters only. For the culture-sensitive `ToLower` this assumes a current culture
 * that maps ASCII letters as the invariant culture does. `Char.IsWhiteSpace` is modelled
 * with its full list of code points. Strings are sequences of characters, so lengths
 * count characters rather than UTF-16 code units.
 */
module Text {
  predicate IsAsciiUpper(c: char) { 'A' <= c <= 'Z' }

  predicate IsAsciiLower(c: char) { 'a' <= c <= 'z' }

  function LowerChar(c: char): (r: char)
    ensures IsAsciiUpper(c) ==> IsAsciiLower(r) && r as int == c as int + 32
    ensures !IsAsciiUpper(c) ==> r == c
  {
    if IsAsciiUpper(c) then (c as int + 32) as char else c
  }

  function UpperChar(c: char): (r: char)
    ensures IsAsciiLower(c) ==> IsAsciiUpper(r) && r as int == c as int - 32
    ensures !IsAsciiLower(c) ==> r == c
  {
    if IsAsciiLower(c) then (c as int - 32) as char else c
  }

  /** `ToLowerInvariant` on ASCII letters. */
  function Lower(s: string): (r: string)
    ensures |r| == |s| && forall i :: 0 <= i < |s| ==> r[i] == LowerChar(s[i])
  {
    seq(|s|, i requires 0 <= i < |s| => LowerChar(s[i]))
  }

  /** `ToUpperInvariant` on ASCII letters. */
  function Upper(s: string): (r: string)
    ensures |r| == |s| && forall i :: 0 <= i < |s| ==> r[i] == UpperChar(s[i])
  {
    seq(|s|, i requires 0 <= i < |s| => UpperChar(s[i]))
  }

  lemma LowerIdempotent(s: string)
    ensures Lower(Lower(s)) == Lower(s)
  {
  }

  lemma UpperIdempotent(s: string)
    ensures Upper(Upper(s)) == Upper(s)
  {
  }

  function Reverse(s: string): (r: string)
    ensures |r| == |s| && forall i :: 0 <= i < |s| ==> r[i] == s[|s| - 1 - i]
  {
    seq(|s|, i requires 0 <= i < |s| => s[|s| - 1 - i])
  }

  /** `w` occurs in `s` starting at position `i`. */
  predicate OccursAt(s: string, w: string, i: int) {
    0 <= i && i + |w| <= |s| && s[i..i + |w|] == w
  }

  /** `s.Contains(w)`: `w` occurs in `s` as a contiguous run. */
  function Contains(s: string, w: string): (r: bool)
    ensures r <==> exists i :: OccursAt(s, w, i)
    decreases |s|
  {
    if |s| < |w| then false
    else if s[..|w|] == w then assert OccursAt(s, w, 0); true
    else
      var rest := Contains(s[1..], w);
      assert forall i :: OccursAt(s, w, i) <==> (i != 0 && OccursAt(s[1..], w, i - 1)) by {
        forall i ensures OccursAt(s, w, i) <==> (i != 0 && OccursAt(s[1..], w, i - 1)) {
          if 1 <= i && i + |w| <= |s| {
            var here, there := s[i..i + |w|], s[1..][i - 1..i - 1 + |w|];
            forall k | 0 <= k < |w| ensures here[k] == there[k] {
            }
            assert here == there;
          }
        }
      }
      assert rest ==> exists i :: OccursAt(s, w, i) by {
        if rest {
          var j :| OccursAt(s[1..], w, j);
          assert OccursAt(s, w, j + 1);
        }
      }
      rest
  }

  /** `Char.IsWhiteSpace`: the Unicode space, line and paragraph separators and U+0009..U+000D, U+0085. */
  predicate IsWhiteSpace(c: char) {
    || c == ' ' || ('\t' <= c <= '\r') || c == '\U{0085}' || c == '\U{00A0}' || c == '\U{1680}'
    || ('\U{2000}' <= c <= '\U{200A}') || c == '\U{2028}' || c == '\U{2029}' || c == '\U{202F}'
    || c == '\U{205F}' || c == '\U{3000}'
  }

  /** `string.IsNullOrWhiteSpace` for a non-null string. */
  predicate IsBlank(s: string) {
    forall i :: 0 <= i < |s| ==> IsWhiteSpace(s[i])
  }
}
