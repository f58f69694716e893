/**
Turning path separators around.
*/
module Slashes {
  /** Every `a` replaced by `b`. */
  function Replaced(s: string, a: char, b: char): (r: string)
    ensures |r| == |s|
    ensures forall i | 0 <= i < |s| :: r[i] == if s[i] == a then b else s[i]
  {
    seq(|s|, i requires 0 <= i < |s| => if s[i] == a then b else s[i])
  }

  function Slashed(s: string): string {
    Replaced(s, '\\', '/')
  }

  function Backslashed(s: string): string {
    Replaced(s, '/', '\\')
  }
}
