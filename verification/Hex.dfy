/** Hexadecimal digits: written in lower case, read in either. */
module Hex {
  function Digit(n: int): char
    requires 0 <= n < 16
  {
    if n < 10 then ('0' as int + n) as char else ('a' as int + n - 10) as char
  }

  /** The value of a character code, negative where it is no digit. */
  function Value(c: int): int {
    if '0' as int <= c <= '9' as int then c - '0' as int
    else if 'a' as int <= c <= 'f' as int then 10 + c - 'a' as int
    else if 'A' as int <= c <= 'F' as int then 10 + c - 'A' as int
    else -1
  }

  const LOWER := "0123456789abcdef"
  const UPPER := "0123456789ABCDEF"

  /** What is written for each value, and that exactly the two spellings of it are read as it. */
  lemma Exact(n: int, c: char)
    requires 0 <= n < 16
    ensures Digit(n) == LOWER[n]
    ensures Value(c as int) == n <==> c == LOWER[n] || c == UPPER[n]
  {
    assert n < 10 ==> LOWER[n] as int == '0' as int + n;
    assert n < 10 ==> UPPER[n] as int == '0' as int + n;
    assert n >= 10 ==> LOWER[n] as int == 'a' as int + n - 10;
    assert n >= 10 ==> UPPER[n] as int == 'A' as int + n - 10;
  }

  lemma Back(n: int)
    requires 0 <= n < 16
    ensures Value(Digit(n) as int) == n
  {
  }
}
