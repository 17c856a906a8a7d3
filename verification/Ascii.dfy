/** Letters without regard to ASCII case, as `LOWER`, `LIKE` and `to_ascii_lowercase` see them. */
module Ascii {

  function LowerChar(c: char): char {
    if 'A' <= c <= 'Z' then c + 32 as char else c
  }

  function Lower(s: string): (r: string)
    ensures |r| == |s| && forall i :: 0 <= i < |r| ==> r[i] == LowerChar(s[i])
  {
    seq(|s|, i requires 0 <= i < |s| => LowerChar(s[i]))
  }

  /** The letters A to Z become a to z, each its own, and no other character changes. */
  lemma LowerCharIs(c: char)
    ensures 'A' <= c <= 'Z' ==> 'a' <= LowerChar(c) <= 'z' && LowerChar(c) as int - 'a' as int == c as int - 'A' as int
    ensures !('A' <= c <= 'Z') ==> LowerChar(c) == c
    ensures !('A' <= LowerChar(c) <= 'Z')
  {
  }
}
