/**
Numbers written in decimal: what a string of digits is worth, and when one is worth less
than another, told from the digits alone.
*/
module DigitStrings {
  /** Only digits, and at least one. */
  predicate IsNumeric(s: string) {
    s != "" && forall i | 0 <= i < |s| :: '0' <= s[i] <= '9'
  }

  predicate AllDigits(s: string) {
    forall i | 0 <= i < |s| :: '0' <= s[i] <= '9'
  }

  function Digit(c: char): nat
    requires '0' <= c <= '9'
  {
    c as int - '0' as int
  }

  function Number(digits: string): nat
    requires AllDigits(digits)
  {
    if digits == "" then 0 else Number(digits[..|digits| - 1]) * 10 + Digit(digits[|digits| - 1])
  }

  // ---------------------------------------------------------------------
  // The order of digit strings
  // ---------------------------------------------------------------------

  function WithoutLeadingZeros(s: string): string {
    if s != "" && s[0] == '0' then WithoutLeadingZeros(s[1..]) else s
  }

  /** At the first place where they differ, `a` has the lower digit. */
  predicate LowerAtFirst(a: string, b: string)
    requires |a| == |b|
  {
    exists k :: 0 <= k < |a| && a[k] < b[k] && a[..k] == b[..k]
  }

  /** Leading zeros aside, fewer digits are less, and as many go by the first that differs. */
  predicate LowerDigits(a: string, b: string) {
    var x, y := WithoutLeadingZeros(a), WithoutLeadingZeros(b);
    |x| < |y| || (|x| == |y| && LowerAtFirst(x, y))
  }

  predicate SameDigits(a: string, b: string) {
    WithoutLeadingZeros(a) == WithoutLeadingZeros(b)
  }

  function Pow10(n: nat): nat {
    if n == 0 then 1 else 10 * Pow10(n - 1)
  }

  lemma {:induction false} NumberBelow(s: string)
    requires AllDigits(s)
    ensures Number(s) < Pow10(|s|)
  {
    if s != "" {
      NumberBelow(s[..|s| - 1]);
    }
  }

  lemma {:induction false} NumberAtLeast(s: string)
    requires AllDigits(s) && s != "" && s[0] != '0'
    ensures Number(s) >= Pow10(|s| - 1)
  {
    if |s| == 1 {
      assert Number(s[..0]) == 0;
    } else {
      NumberAtLeast(s[..|s| - 1]);
    }
  }

  lemma {:induction false} Pow10Grows(m: nat, n: nat)
    requires m <= n
    ensures Pow10(m) <= Pow10(n)
  {
    if m < n {
      Pow10Grows(m, n - 1);
    }
  }

  lemma {:induction false} LeadingZero(s: string)
    requires AllDigits(s) && s != "" && s[0] == '0'
    ensures Number(s[1..]) == Number(s)
  {
    if |s| == 1 {
      assert s[1..] == "" && s[..0] == "";
    } else {
      var init := s[..|s| - 1];
      LeadingZero(init);
      assert s[1..][..|s| - 2] == init[1..];
    }
  }

  lemma {:induction false} StrippedNumber(s: string)
    requires AllDigits(s)
    ensures AllDigits(WithoutLeadingZeros(s)) && Number(WithoutLeadingZeros(s)) == Number(s)
    ensures WithoutLeadingZeros(s) != "" ==> WithoutLeadingZeros(s)[0] != '0'
  {
    if s != "" && s[0] == '0' {
      LeadingZero(s);
      StrippedNumber(s[1..]);
    }
  }

  lemma {:induction false} SameLengthOrder(a: string, b: string)
    requires AllDigits(a) && AllDigits(b) && |a| == |b|
    ensures Number(a) < Number(b) <==> LowerAtFirst(a, b)
    ensures Number(a) == Number(b) <==> a == b
  {
    if a != "" {
      var n := |a| - 1;
      SameLengthOrder(a[..n], b[..n]);
      LowerAtFirstExtends(a, b);
      LastDigits(a, b);
      SameButLast(a, b);
    }
  }

  lemma LastDigits(a: string, b: string)
    requires AllDigits(a) && AllDigits(b) && |a| == |b| > 0
    ensures var n := |a| - 1;
      && (Number(a) == Number(b) <==> Number(a[..n]) == Number(b[..n]) && a[n] == b[n])
      && (Number(a) < Number(b) <==>
           Number(a[..n]) < Number(b[..n]) || (Number(a[..n]) == Number(b[..n]) && a[n] < b[n]))
  {
    var n := |a| - 1;
    var x := NumberUnfolded(a);
    var y := NumberUnfolded(b);
    TensAndUnits(x, Digit(a[n]), y, Digit(b[n]));
    DigitOrder(a[n], b[n]);
  }

  lemma NumberUnfolded(s: string) returns (x: nat)
    requires AllDigits(s) && s != ""
    ensures x == Number(s[..|s| - 1]) && Number(s) == x * 10 + Digit(s[|s| - 1])
  {
    x := Number(s[..|s| - 1]);
  }

  lemma DigitOrder(c: char, d: char)
    requires '0' <= c <= '9' && '0' <= d <= '9'
    ensures Digit(c) < 10 && Digit(d) < 10
    ensures (Digit(c) < Digit(d) <==> c < d) && (Digit(c) == Digit(d) <==> c == d)
  {
  }

  lemma SameButLast(a: string, b: string)
    requires |a| == |b| > 0
    ensures a == b <==> a[..|a| - 1] == b[..|a| - 1] && a[|a| - 1] == b[|a| - 1]
  {
    assert a == a[..|a| - 1] + [a[|a| - 1]];
    assert b == b[..|a| - 1] + [b[|a| - 1]];
  }

  lemma TensAndUnits(x: nat, d: nat, y: nat, e: nat)
    requires d < 10 && e < 10
    ensures x * 10 + d == y * 10 + e <==> x == y && d == e
    ensures x * 10 + d < y * 10 + e <==> x < y || (x == y && d < e)
  {
  }

  lemma LowerAtFirstExtends(a: string, b: string)
    requires |a| == |b| > 0
    ensures var n := |a| - 1;
      LowerAtFirst(a, b) <==> LowerAtFirst(a[..n], b[..n]) || (a[..n] == b[..n] && a[n] < b[n])
  {
    var n := |a| - 1;
    if k :| 0 <= k < |a| && a[k] < b[k] && a[..k] == b[..k] {
      if k < n {
        assert a[..n][..k] == a[..k] && b[..n][..k] == b[..k];
      }
    }
    if k :| 0 <= k < n && a[..n][k] < b[..n][k] && a[..n][..k] == b[..n][..k] {
      assert a[..n][..k] == a[..k] && b[..n][..k] == b[..k];
    }
  }

  /** The number a digit string stands for is ordered by its digits. */
  lemma NumberOrder(a: string, b: string)
    requires AllDigits(a) && AllDigits(b)
    ensures Number(a) < Number(b) <==> LowerDigits(a, b)
    ensures Number(a) == Number(b) <==> SameDigits(a, b)
  {
    var x, y := WithoutLeadingZeros(a), WithoutLeadingZeros(b);
    StrippedNumber(a);
    StrippedNumber(b);
    if |x| == |y| {
      SameLengthOrder(x, y);
    } else if |x| < |y| {
      ShorterIsLess(x, y);
    } else {
      ShorterIsLess(y, x);
    }
  }

  lemma ShorterIsLess(x: string, y: string)
    requires AllDigits(x) && AllDigits(y) && |x| < |y| && y[0] != '0'
    ensures Number(x) < Number(y)
  {
    NumberBelow(x);
    NumberAtLeast(y);
    Pow10Grows(|x|, |y| - 1);
  }
}
