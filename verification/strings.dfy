/** Substring containment, the test Python's `sub in s` performs on strings. */
module Strings {

  /** `sub` occurs in `s` at position `i`. */
  ghost predicate OccursAt(s: string, sub: string, i: int) {
    0 <= i && i + |sub| <= |s| && s[i..i + |sub|] == sub
  }

  /** The reference definition: `sub` occurs somewhere in `s`. */
  ghost predicate HasSubstring(s: string, sub: string) {
    exists i :: OccursAt(s, sub, i)
  }

  /** Left-to-right search for `sub` in `s`; it agrees with the reference
      definition in both directions. */
  function Contains(s: string, sub: string): (r: bool)
    ensures r <==> HasSubstring(s, sub)
    decreases |s|
  {
    if |s| < |sub| then
      assert forall i :: !OccursAt(s, sub, i);
      false
    else if s[..|sub|] == sub then
      assert OccursAt(s, sub, 0);
      true
    else
      var rest := Contains(s[1..], sub);
      ShiftOccurrence(s, sub);
      rest
  }

  /** When `sub` is not a prefix of `s`, its occurrences in `s` are exactly
      the occurrences in `s[1..]`, shifted by one. */
  lemma ShiftOccurrence(s: string, sub: string)
    requires |sub| <= |s| && s[..|sub|] != sub
    ensures HasSubstring(s, sub) <==> HasSubstring(s[1..], sub)
  {
    if HasSubstring(s, sub) {
      var i :| OccursAt(s, sub, i);
      assert i != 0;
      assert s[1..][i - 1..i - 1 + |sub|] == s[i..i + |sub|];
      assert OccursAt(s[1..], sub, i - 1);
    }
    if HasSubstring(s[1..], sub) {
      var j :| OccursAt(s[1..], sub, j);
      assert s[j + 1..j + 1 + |sub|] == s[1..][j..j + |sub|];
      assert OccursAt(s, sub, j + 1);
    }
  }

  /** A string lacking some character of `sub` does not contain `sub`. */
  lemma MissingCharacter(s: string, sub: string, k: int)
    requires 0 <= k < |sub| && sub[k] !in s
    ensures !HasSubstring(s, sub)
  {
  }
}
