/** Decimal numbers as the C++ streams and std::to_string write and read them. A char is one byte. */
module Decimal {
  predicate IsDigit(c: char) {
    '0' <= c <= '9'
  }

  function Digits(n: nat): string {
    (if n < 10 then [] else Digits(n / 10)) + [('0' as int + n % 10) as char]
  }

  /** Length of the leading run of digits. */
  function DigitRun(s: string): (k: nat)
    ensures k <= |s| && (forall i | 0 <= i < k :: IsDigit(s[i])) && (k < |s| ==> !IsDigit(s[k]))
  {
    if s == [] || !IsDigit(s[0]) then 0 else 1 + DigitRun(s[1..])
  }

  function Value(s: string): nat
    requires forall i | 0 <= i < |s| :: IsDigit(s[i])
  {
    if s == [] then 0 else assert IsDigit(s[|s| - 1]); Value(s[..|s| - 1]) * 10 + (s[|s| - 1] as int - '0' as int)
  }

  lemma {:induction false} DigitsValue(n: nat)
    ensures |Digits(n)| > 0 && forall i | 0 <= i < |Digits(n)| :: IsDigit(Digits(n)[i])
    ensures Value(Digits(n)) == n
  {
    if n >= 10 {
      DigitsValue(n / 10);
      assert Digits(n)[..|Digits(n)| - 1] == Digits(n / 10);
    }
  }

  lemma OneMoreDigit(n: nat, d: nat)
    requires d < 10
    ensures Digits(n * 10 + d) == (if n == 0 then [] else Digits(n)) + [('0' as int + d) as char]
  {
    assert (n * 10 + d) / 10 == n && (n * 10 + d) % 10 == d;
  }

  /** The written number is the shortest text of digits with its value, and the only one of its length. */
  lemma {:induction false} DigitsShortest(s: string)
    requires s != [] && forall i | 0 <= i < |s| :: IsDigit(s[i])
    ensures 0 < |Digits(Value(s))| <= |s|
    ensures |Digits(Value(s))| == |s| ==> s == Digits(Value(s))
  {
    hide Digits;
    var k := |s| - 1;
    assert IsDigit(s[k]) && s == s[..k] + [s[k]];
    OneMoreDigit(Value(s[..k]), s[k] as int - '0' as int);
    if k > 0 {
      DigitsShortest(s[..k]);
    }
  }

  lemma {:induction false} RunOfDigits(s: string, rest: string)
    requires forall i | 0 <= i < |s| :: IsDigit(s[i])
    requires rest == [] || !IsDigit(rest[0])
    ensures DigitRun(s + rest) == |s|
  {
    if s == [] {
      assert s + rest == rest;
    } else {
      assert (s + rest)[1..] == s[1..] + rest;
      RunOfDigits(s[1..], rest);
    }
  }

  /** Reads back a written number, whatever follows it, as long as that is not another digit. */
  lemma ReadBack(n: nat, rest: string)
    requires rest == [] || !IsDigit(rest[0])
    ensures var k := DigitRun(Digits(n) + rest);
            && k == |Digits(n)| > 0
            && (Digits(n) + rest)[..k] == Digits(n) && (Digits(n) + rest)[k..] == rest
            && Value((Digits(n) + rest)[..k]) == n
  {
    DigitsValue(n);
    RunOfDigits(Digits(n), rest);
    assert (Digits(n) + rest)[..|Digits(n)|] == Digits(n);
  }

  function Pow10(k: nat): nat {
    if k == 0 then 1 else 10 * Pow10(k - 1)
  }

  lemma {:induction false} DigitsWidth(n: nat, k: nat)
    requires k > 0 && n < Pow10(k)
    ensures |Digits(n)| <= k
  {
    if n >= 10 {
      DigitsWidth(n / 10, k - 1);
    }
  }
}
