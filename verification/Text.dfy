/** Substring search over strings, as JavaScript's `String.prototype.includes`. */
module Text {

  /** `pattern` occurs in `s` starting at index `i`. */
  ghost predicate OccursAt(s: string, pattern: string, i: int)
  {
    0 <= i && i + |pattern| <= |s| && s[i..i + |pattern|] == pattern
  }

  /** An occurrence in `s[1..]` is an occurrence in `s` one place further on, and back. */
  lemma OccursShift(s: string, pattern: string, i: int)
    requires |s| > 0 && i >= 0
    ensures OccursAt(s[1..], pattern, i) <==> OccursAt(s, pattern, i + 1)
  {
  }

  /** `s.includes(pattern)`: true exactly when `pattern` occurs somewhere in `s`
      (the empty pattern occurs in every string). */
  function Includes(s: string, pattern: string): (r: bool)
    ensures r <==> exists i :: OccursAt(s, pattern, i)
    decreases |s|
  {
    if |pattern| > |s| then
      false
    else if s[..|pattern|] == pattern then
      assert OccursAt(s, pattern, 0);
      true
    else
      var r := Includes(s[1..], pattern);
      assert r ==> exists i :: OccursAt(s, pattern, i) by {
        if r {
          var j :| OccursAt(s[1..], pattern, j);
          OccursShift(s, pattern, j);
        }
      }
      assert (exists i :: OccursAt(s, pattern, i)) ==> r by {
        if i :| OccursAt(s, pattern, i) {
          assert i != 0;
          OccursShift(s, pattern, i - 1);
        }
      }
      r
  }

  /** Whatever surrounds it, a string includes each of its own pieces. */
  lemma IncludesPiece(prefix: string, pattern: string, suffix: string)
    ensures Includes(prefix + pattern + suffix, pattern)
  {
    var s := prefix + pattern + suffix;
    assert s[|prefix|..|prefix| + |pattern|] == pattern;
    assert OccursAt(s, pattern, |prefix|);
  }
}
