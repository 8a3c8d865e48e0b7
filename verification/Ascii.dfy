/** Lower case, of the letters A to Z. */
module Ascii {

  function LowerChar(c: char): char {
    if 'A' <= c <= 'Z' then (c as int + 32) as char else c
  }

  function Lower(s: string): string {
    seq(|s|, i requires 0 <= i < |s| => LowerChar(s[i]))
  }

  lemma LowerIsLower(s: string)
    ensures Lower(Lower(s)) == Lower(s)
  {
    assert forall c :: LowerChar(LowerChar(c)) == LowerChar(c);
  }
}
