/** Case-sensitive substring containment, as Ruby's `String#include?` and
    a metacharacter-free `String#match` decide it. */
module Text {

  /** `marker` starts at position `i` of `s`. */
  predicate OccursAt(s: string, marker: string, i: int) {
    0 <= i <= |s| - |marker| && s[i..i + |marker|] == marker
  }

  /** `marker` occurs somewhere in `s` (the empty marker occurs everywhere). */
  ghost predicate Contains(s: string, marker: string) {
    exists i :: OccursAt(s, marker, i)
  }

  /** An occurrence of `marker` in `s` is either at the front or in the tail. */
  lemma {:induction false} ContainsUnfold(s: string, marker: string)
    requires |marker| <= |s|
    ensures Contains(s, marker) <==> (s[..|marker|] == marker || Contains(s[1..], marker))
  {
    if Contains(s, marker) && s[..|marker|] != marker {
      var i :| OccursAt(s, marker, i);
      assert i != 0;
      assert s[1..][i - 1..i - 1 + |marker|] == s[i..i + |marker|];
      assert OccursAt(s[1..], marker, i - 1);
    }
    if s[..|marker|] == marker {
      assert OccursAt(s, marker, 0);
    } else if Contains(s[1..], marker) {
      var j :| OccursAt(s[1..], marker, j);
      assert s[j + 1..j + 1 + |marker|] == s[1..][j..j + |marker|];
      assert OccursAt(s, marker, j + 1);
    }
  }

  /** The executable left-to-right search: try every start position in turn. */
  function Includes(s: string, marker: string): (found: bool)
    ensures found <==> Contains(s, marker)
    decreases |s|
  {
    if |s| < |marker| then false
    else if s[..|marker|] == marker then
      ContainsUnfold(s, marker);
      true
    else
      ContainsUnfold(s, marker);
      Includes(s[1..], marker)
  }

  /** A character Ruby's `\d` accepts: an ASCII decimal digit. */
  predicate IsDigit(c: char) {
    '0' <= c <= '9'
  }

  /** No character of `s` is a path separator `/`. */
  predicate NoSlash(s: string) {
    forall k :: 0 <= k < |s| ==> s[k] != '/'
  }
}
