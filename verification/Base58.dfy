/** Base 58 text of a byte string, seven bytes at a time in 64-bit arithmetic, in the output buffer itself. */
module Base58 {
  import opened Power

  const ALPHABET := "123456789" + "ABCDEFGH" + "JKLMN" + "PQRSTUVWXYZ" + "abcdefghijk" + "mnopqrstuvwxyz"
  const LIMB := 7

  predicate AllBelow(s: seq<int>, n: int) {
    forall i | 0 <= i < |s| :: 0 <= s[i] < n
  }

  /** The number whose digits, most significant first, are s. */
  function Value(s: seq<int>, base: nat): nat
    requires AllBelow(s, base)
  {
    if s == [] then 0 else Value(s[..|s| - 1], base) * base + s[|s| - 1]
  }

  /** No leading zero digit. */
  predicate Canonical(s: seq<int>) {
    AllBelow(s, 58) && (s != [] ==> s[0] != 0)
  }

  /** The characters of a digit string, as bytes. */
  function Codes(ds: seq<int>): seq<int>
    requires AllBelow(ds, 58)
  {
    seq(|ds|, i requires 0 <= i < |ds| => ALPHABET[ds[i]] as int)
  }

  /** The area set aside for n significant bytes. */
  function Area(n: nat): nat {
    n * 350 / 256 + 1
  }

  // ---- Digits and values ----

  lemma ValueSnoc(s: seq<int>, d: int, base: nat)
    requires AllBelow(s, base) && 0 <= d < base
    ensures AllBelow(s + [d], base) && Value(s + [d], base) == Value(s, base) * base + d
  {
    assert (s + [d])[..|s|] == s;
  }

  lemma {:induction false} ValueConcat(a: seq<int>, b: seq<int>, base: nat)
    requires AllBelow(a, base) && AllBelow(b, base)
    ensures AllBelow(a + b, base) && Value(a + b, base) == Value(a, base) * Pow(base, |b|) + Value(b, base)
  {
    if b == [] {
      assert a + b == a;
    } else {
      var b', d := b[..|b| - 1], b[|b| - 1];
      assert (a + b)[..|a + b| - 1] == a + b';
      ValueConcat(a, b', base);
      calc {
        Value(a + b, base);
        (Value(a, base) * Pow(base, |b'|) + Value(b', base)) * base + d;
        { Distribute(Value(a, base), Pow(base, |b'|), Value(b', base), base); }
        Value(a, base) * (base * Pow(base, |b'|)) + Value(b', base) * base + d;
      }
    }
  }

  lemma Distribute(x: int, p: int, y: int, b: int)
    ensures (x * p + y) * b == x * (b * p) + y * b
  {
  }

  lemma {:induction false} ValueBound(s: seq<int>, base: nat)
    requires AllBelow(s, base) && base > 0
    ensures Value(s, base) < Pow(base, |s|)
  {
    if s != [] {
      var s' := s[..|s| - 1];
      ValueBound(s', base);
      BoundStep(Value(s', base), Pow(base, |s'|), s[|s| - 1], base);
    }
  }

  lemma BoundStep(v: int, p: int, d: int, b: int)
    requires v < p && 0 <= d < b
    ensures v * b + d < b * p
  {
    assert (v + 1) * b <= p * b by { assert (p - v - 1) * b >= 0; }
  }

  /** The leading digit of a number that needs all its digits is not zero. */
  lemma LeadingDigit(s: seq<int>)
    requires AllBelow(s, 58) && s != [] && Value(s, 58) >= Pow(58, |s| - 1)
    ensures s[0] != 0
  {
    assert [s[0]] + s[1..] == s;
    ValueConcat([s[0]], s[1..], 58);
    ValueBound(s[1..], 58);
    OneDigit(s[0]);
  }

  /** Canonical digit strings of the same number are the same. */
  lemma {:induction false} CanonicalUnique(s: seq<int>, t: seq<int>)
    requires Canonical(s) && Canonical(t) && Value(s, 58) == Value(t, 58)
    ensures s == t
    decreases |s| + |t|
  {
    if s == [] {
      if t != [] { CanonicalPositive(t); }
    } else if t == [] {
      CanonicalPositive(s);
    } else {
      var s', t' := s[..|s| - 1], t[..|t| - 1];
      SameQuotient(Value(s', 58), s[|s| - 1], Value(t', 58), t[|t| - 1]);
      CanonicalUnique(s', t');
      assert s == s' + [s[|s| - 1]] && t == t' + [t[|t| - 1]];
    }
  }

  lemma SameQuotient(x: int, d: int, y: int, e: int)
    requires 0 <= d < 58 && 0 <= e < 58 && x * 58 + d == y * 58 + e
    ensures x == y && d == e
  {
  }

  lemma {:induction false} CanonicalPositive(s: seq<int>)
    requires Canonical(s) && s != []
    ensures Value(s, 58) > 0
  {
    if |s| == 1 {
      assert s[..0] == [];
    } else {
      CanonicalPositive(s[..|s| - 1]);
    }
  }

  /** The digit of a character, 255 where it has none. */
  function DigitOf(c: int): int {
    if '1' as int <= c <= '9' as int then c - '1' as int
    else if 'A' as int <= c <= 'H' as int then c - 'A' as int + 9
    else if 'J' as int <= c <= 'N' as int then c - 'J' as int + 17
    else if 'P' as int <= c <= 'Z' as int then c - 'P' as int + 22
    else if 'a' as int <= c <= 'k' as int then c - 'a' as int + 33
    else if 'm' as int <= c <= 'z' as int then c - 'm' as int + 44
    else 255
  }

  lemma LetterDigit(d: int)
    requires 0 <= d < 58
    ensures DigitOf(ALPHABET[d] as int) == d
  {
    if d < 22 { LowLetter(d); } else { HighLetter(d); }
  }

  lemma LowLetter(d: int)
    requires 0 <= d < 22
    ensures DigitOf(ALPHABET[d] as int) == d
  {
    if d < 9 { assert ALPHABET[d] == "123456789"[d]; }
    else if d < 17 { assert ALPHABET[d] == "ABCDEFGH"[d - 9]; }
    else { assert ALPHABET[d] == "JKLMN"[d - 17]; }
  }

  lemma HighLetter(d: int)
    requires 22 <= d < 58
    ensures DigitOf(ALPHABET[d] as int) == d
  {
    if d < 33 { assert ALPHABET[d] == "PQRSTUVWXYZ"[d - 22]; }
    else if d < 44 { assert ALPHABET[d] == "abcdefghijk"[d - 33]; }
    else { assert ALPHABET[d] == "mnopqrstuvwxyz"[d - 44]; }
  }

  /** Reading characters back with the decoder's table. */
  function Decode(codes: seq<int>): seq<int> {
    seq(|codes|, i requires 0 <= i < |codes| => DigitOf(codes[i]))
  }

  /** The number can be read back from its text. */
  lemma TextRoundTrip(v: nat)
    ensures var ds := Decode(Codes(Digits(v))); AllBelow(ds, 58) && Value(ds, 58) == v
  {
    var s := Digits(v);
    forall i | 0 <= i < |s| ensures DigitOf(Codes(s)[i]) == s[i] {
      LetterDigit(s[i]);
    }
    assert Decode(Codes(s)) == s;
  }

  // ---- The area is large enough ----

  /** 58^7 >= 2^41, and 41 * Area(n) >= 56 * n. */
  lemma AreaSuffices(n: nat)
    ensures Pow(256, n) <= Pow(58, Area(n))
  {
    var e := Area(n);
    assert 41 * e >= 56 * n;
    var x, y := Pow(58, e), Pow(256, n);
    assert Pow(x, 7) >= Pow(y, 7) by {
      calc {
        Pow(y, 7);
        == { PowPow(256, n, 7); assert Pow(2, 8) == 256; PowPow(2, 8, n * 7); }
        Pow(2, 8 * (n * 7));
        <= { PowMonotone(2, 8 * (n * 7), 41 * e); }
        Pow(2, 41 * e);
        == { PowPow(2, 41, e); }
        Pow(Pow(2, 41), e);
        <= { SevenDigits(); BaseMonotone(Pow(2, 41), Pow(58, 7), e); }
        Pow(Pow(58, 7), e);
        == { PowPow(58, 7, e); PowPow(58, e, 7); assert 7 * e == e * 7; }
        Pow(x, 7);
      }
    }
    if x < y { BaseStrict(x, y, 7); }
  }

  lemma SevenDigits()
    ensures Pow(2, 41) <= Pow(58, 7)
  {
    assert Pow(2, 41) == 0x200_0000_0000 by {
      PowAdd(2, 20, 21);
      PowAdd(2, 10, 10);
      PowAdd(2, 10, 11);
      assert Pow(2, 10) == 1024 && Pow(2, 11) == 2048;
    }
    assert Pow(58, 7) == 2207984167552;
  }

  // ---- The encoder ----

  /** One digit of the pass "number := number * m + carry", least significant digit first. */
  lemma DigitStep(low: seq<int>, prefix: seq<int>, d: int, carry: nat, m: nat)
    requires AllBelow(low, 58) && AllBelow(prefix, 58) && 0 <= d < 58 && carry < m
    ensures var c := carry + m * d;
            && c < 58 * m && c / 58 < m
            && AllBelow([c % 58] + low, 58)
            && Value(low, 58) + Pow(58, |low|) * (carry + m * Value(prefix + [d], 58))
            == Value([c % 58] + low, 58) + Pow(58, |low| + 1) * (c / 58 + m * Value(prefix, 58))
  {
    hide Value, Pow;
    var c := carry + m * d;
    PowNext(58, |low|);
    ValueSnoc(prefix, d, 58);
    CarryBound(carry, m, d);
    DigitInFront(c % 58, low);
    StepSum(Value(low, 58), Pow(58, |low|), carry, m, Value(prefix, 58), d, c / 58, c % 58,
            Value(prefix + [d], 58), Value([c % 58] + low, 58), Pow(58, |low| + 1));
  }

  lemma StepSum(v: int, p: int, carry: int, m: int, a: int, d: int, q: int, r: int, w: int, u: int, p': int)
    requires carry + m * d == 58 * q + r && w == a * 58 + d && u == r * p + v && p' == 58 * p
    ensures v + p * (carry + m * w) == u + p' * (q + m * a)
  {
    Regroup(carry, m, a, d);
    assert carry + m * w == r + 58 * (q + m * a);
    Spread(p, r, q + m * a);
  }

  lemma CarryBound(carry: nat, m: nat, d: int)
    requires carry < m && 0 <= d < 58
    ensures 0 <= carry + m * d < 58 * m && (carry + m * d) / 58 < m
  {
    assert m * d <= m * 57 by { assert m * (57 - d) >= 0; }
    assert m * d >= 0;
  }

  lemma Regroup(carry: int, m: int, a: int, d: int)
    ensures carry + m * (a * 58 + d) == carry + m * d + 58 * (m * a)
  {
  }

  lemma Spread(p: int, r: int, q: int)
    ensures p * (r + 58 * q) == r * p + (58 * p) * q
  {
  }

  lemma DigitInFront(d: int, low: seq<int>)
    requires AllBelow(low, 58) && 0 <= d < 58
    ensures AllBelow([d] + low, 58) && Value([d] + low, 58) == d * Pow(58, |low|) + Value(low, 58)
  {
    hide Value, Pow;
    OneDigit(d);
    ValueConcat([d], low, 58);
  }

  lemma OneDigit(d: int)
    requires 0 <= d < 58
    ensures AllBelow([d], 58) && Value([d], 58) == d
  {
    assert [d][..0] == [];
  }

  /** One digit of what is left of the carry. */
  lemma CarryStep(low: seq<int>, carry: nat)
    requires AllBelow(low, 58)
    ensures AllBelow([carry % 58] + low, 58)
    ensures Value(low, 58) + Pow(58, |low|) * carry
         == Value([carry % 58] + low, 58) + Pow(58, |low| + 1) * (carry / 58)
  {
    hide Value, Pow;
    DigitInFront(carry % 58, low);
    PowNext(58, |low|);
    Spread(Pow(58, |low|), carry % 58, carry / 58);
    assert carry == carry % 58 + 58 * (carry / 58);
  }

  /** A carry of at least 58^k needs k + 1 more digits. */
  lemma CarryNeedsRoom(low: seq<int>, carry: nat, k: nat, total: nat, area: nat)
    requires AllBelow(low, 58) && carry >= Pow(58, k)
    requires Value(low, 58) + Pow(58, |low|) * carry == total < Pow(58, area)
    ensures |low| + k < area && total >= Pow(58, |low| + k)
  {
    PowAdd(58, |low|, k);
    ProductMonotone(Pow(58, |low|), Pow(58, |low|), Pow(58, k), carry);
    PowOrder(58, |low| + k, area);
  }

  /** What the digits below the carry and the carry itself stand for. */
  ghost predicate Holds(out: seq<int>, from: int, end: int, carry: nat, total: nat) {
    && 0 <= from <= end <= |out| && AllBelow(out[from..end], 58)
    && Value(out[from..end], 58) + Pow(58, end - from) * carry == total
  }

  /** Writes one digit of the carry before out[from..end]. */
  method PushDigit(out: array<int>, from: nat, end: nat, carry: nat, ghost total: nat) returns (carry': nat)
    requires 0 < from <= end <= out.Length && Holds(out[..], from, end, carry, total)
    modifies out
    ensures out[..] == old(out[..])[from - 1 := carry % 58] && carry' == carry / 58
    ensures Holds(out[..], from - 1, end, carry', total)
  {
    hide Value, Pow;
    ghost var low := out[from..end];
    CarryStep(low, carry);
    out[from - 1] := carry % 58;
    carry' := carry / 58;
    assert out[from - 1..end] == [carry % 58] + low;
    assert out[..][from - 1..end] == out[from - 1..end];
  }

  const WORD := 0x1_0000_0000_0000_0000

  /** In the middle of a pass: low is done, rest is still to be multiplied. */
  ghost predicate Passing(low: seq<int>, carry: nat, m: nat, rest: seq<int>, total: nat) {
    && AllBelow(low, 58) && AllBelow(rest, 58)
    && Value(low, 58) + Pow(58, |low|) * (carry + m * Value(rest, 58)) == total
  }

  lemma PassStep(low: seq<int>, carry: nat, m: nat, prefix: seq<int>, d: int, total: nat)
    requires Passing(low, carry, m, prefix + [d], total) && carry < m
    ensures 0 <= d < 58
    ensures var c := carry + m * d;
            0 <= c < 58 * m && c / 58 < m && Passing([c % 58] + low, c / 58, m, prefix, total)
  {
    hide Value, Pow;
    assert (prefix + [d])[|prefix|] == d;
    assert AllBelow(prefix, 58) by {
      forall i | 0 <= i < |prefix| ensures 0 <= prefix[i] < 58 { assert (prefix + [d])[i] == prefix[i]; }
    }
    DigitStep(low, prefix, d, carry, m);
  }

  lemma PassBegins(digits: seq<int>, carry: nat, m: nat)
    requires AllBelow(digits, 58)
    ensures Passing([], carry, m, digits, carry + m * Value(digits, 58))
  {
  }

  lemma PassEnds(out: seq<int>, from: int, end: int, carry: nat, m: nat, total: nat)
    requires 0 <= from <= end <= |out| && Passing(out[from..end], carry, m, [], total)
    ensures Holds(out, from, end, carry, total)
  {
    assert m * Value([], 58) == 0;
  }

  /** One pass over all digits: number := number * m + carry, least significant digit first. */
  method MultiplyDigits(out: array<int>, from: nat, end: nat, m: nat, carry: nat) returns (carry': nat)
    requires from <= end <= out.Length && AllBelow(out[from..end], 58) && carry < m <= 0x100_0000_0000_0000
    modifies out
    ensures out[..from] == old(out[..from]) && out[end..] == old(out[end..])
    ensures Holds(out[..], from, end, carry', carry + m * Value(old(out[from..end]), 58))
  {
    hide Value, Pow, Passing, Holds;
    ghost var digits := out[from..end];
    ghost var total := carry + m * Value(digits, 58);
    PassBegins(digits, carry, m);
    var i := end;
    carry' := carry;
    assert out[end..end] == [] && digits[..end - from] == digits;
    while i > from
      invariant from <= i <= end && carry' < m
      invariant out[..i] == old(out[..i]) && out[end..] == old(out[end..])
      invariant Passing(out[i..end], carry', m, digits[..i - from], total)
    {
      ghost var low, prefix := out[i..end], digits[..i - 1 - from];
      assert out[i - 1] == old(out[..i])[i - 1] == digits[i - 1 - from];
      assert digits[..i - from] == prefix + [out[i - 1]];
      PassStep(low, carry', m, prefix, out[i - 1], total);
      carry' := carry' + m * out[i - 1];
      assert carry' < WORD;
      i := i - 1;
      out[i] := carry' % 58;
      carry' := carry' / 58;
      assert out[i..end] == [out[i]] + low;
    }
    assert digits[..0] == [] && out[..][from..end] == out[from..end];
    PassEnds(out[..], from, end, carry', m, total);
  }

  /** Three digits of the carry at once. */
  method PushThree(out: array<int>, from: nat, end: nat, carry: nat, ghost total: nat) returns (carry': nat)
    requires 3 <= from <= end <= out.Length && Holds(out[..], from, end, carry, total)
    modifies out
    ensures Holds(out[..], from - 3, end, carry', total) && carry' == carry / 58 / 58 / 58
    ensures forall p | 0 <= p < out.Length && !(from - 3 <= p < from) :: out[p] == old(out[p])
  {
    hide Holds;
    carry' := PushDigit(out, from, end, carry, total);
    carry' := PushDigit(out, from - 1, end, carry', total);
    carry' := PushDigit(out, from - 2, end, carry', total);
  }

  lemma HoldsNeedsRoom(o: seq<int>, from: nat, end: nat, carry: nat, k: nat, total: nat, area: nat)
    requires Holds(o, from, end, carry, total) && carry >= Pow(58, k) && total < Pow(58, area)
    ensures end - from + k < area && total >= Pow(58, end - from + k)
  {
    hide Value, Pow;
    CarryNeedsRoom(o[from..end], carry, k, total, area);
  }

  /** The rest of the carry in front of the digits; it never leaves the area. */
  method FinishCarry(out: array<int>, start: nat, from: nat, end: nat, carry: nat, ghost total: nat) returns (i: nat)
    requires start <= from <= end <= out.Length && Holds(out[..], from, end, carry, total)
    requires total < Pow(58, end - start) && (from < end ==> total >= Pow(58, end - from - 1))
    modifies out
    ensures start <= i <= end && Holds(out[..], i, end, 0, total)
    ensures out[..start] == old(out[..start]) && out[end..] == old(out[end..])
    ensures i < end ==> total >= Pow(58, end - i - 1)
  {
    hide Holds, Pow;
    i := from;
    var carry := carry;
    Squares();
    while carry > 58 * 58
      invariant start <= i <= end && Holds(out[..], i, end, carry, total)
      invariant forall p | 0 <= p < out.Length && !(start <= p < end) :: out[p] == old(out[p])
      invariant i < end ==> total >= Pow(58, end - i - 1)
      decreases carry
    {
      HoldsNeedsRoom(out[..], i, end, carry, 2, total, end - start);
      carry := PushThree(out, i, end, carry, total);
      i := i - 3;
    }
    while carry != 0
      invariant start <= i <= end && Holds(out[..], i, end, carry, total)
      invariant forall p | 0 <= p < out.Length && !(start <= p < end) :: out[p] == old(out[p])
      invariant i < end ==> total >= Pow(58, end - i - 1)
      decreases carry
    {
      HoldsNeedsRoom(out[..], i, end, carry, 0, total, end - start);
      carry := PushDigit(out, i, end, carry, total);
      i := i - 1;
    }
  }

  lemma Squares()
    ensures Pow(58, 0) == 1 && Pow(58, 2) == 58 * 58
  {
  }

  /** The next k input bytes as one number: it fits 56 bits. */
  method TakeBytes(input: seq<int>, pos: nat, k: nat) returns (carry: nat)
    requires pos + k <= |input| && AllBelow(input, 256) && k <= LIMB
    ensures AllBelow(input[pos..pos + k], 256) && carry == Value(input[pos..pos + k], 256) < Pow(256, k)
    ensures Pow(256, k) <= 0x100_0000_0000_0000
  {
    hide Value, Pow;
    carry := 0;
    LimbSize(k);
    assert Value(input[pos..pos], 256) == 0 by { NoBytes(input[pos..pos]); }
    for j := 0 to k
      invariant carry == Value(input[pos..pos + j], 256)
    {
      assert input[pos..pos + j + 1] == input[pos..pos + j] + [input[pos + j]];
      ValueSnoc(input[pos..pos + j], input[pos + j], 256);
      carry := carry * 256 + input[pos + j];
    }
    ValueBound(input[pos..pos + k], 256);
  }

  lemma NoBytes(s: seq<int>)
    requires s == []
    ensures Value(s, 256) == 0
  {
  }

  lemma LimbSize(k: nat)
    requires k <= LIMB
    ensures Pow(256, k) <= 0x100_0000_0000_0000
  {
    PowMonotone(256, k, LIMB);
    assert Pow(256, 7) == 0x100_0000_0000_0000;
  }

  /** Digits at out[from..end] become characters from start on; a digit is always read before it is overwritten. */
  method Translate(out: array<int>, start: nat, from: nat, end: nat) returns (next: nat)
    requires start <= from <= end < out.Length && AllBelow(out[from..end], 58)
    modifies out
    ensures next == start + (end - from) + 1 && out[start..next - 1] == Codes(old(out[from..end])) && out[next - 1] == 0
    ensures out[..start] == old(out[..start]) && out[end + 1..] == old(out[end + 1..])
  {
    ghost var digits := out[from..end];
    var it, text := from, start;
    while it < end
      invariant from <= it <= end && text == start + (it - from)
      invariant out[it..end] == digits[it - from..]
      invariant out[..start] == old(out[..start]) && out[end + 1..] == old(out[end + 1..])
      invariant out[start..text] == Codes(digits)[..it - from]
    {
      assert out[it] == digits[it - from];
      ghost var done := out[start..text];
      out[text] := ALPHABET[out[it]] as int;
      assert out[start..text + 1] == done + [out[text]];
      assert Codes(digits)[..it - from + 1] == Codes(digits)[..it - from] + [Codes(digits)[it - from]];
      text, it := text + 1, it + 1;
    }
    out[text] := 0;
    next := text + 1;
  }

  function TrimZeros(s: seq<int>): seq<int> {
    if s != [] && s[0] == 0 then TrimZeros(s[1..]) else s
  }

  lemma {:induction false} TrimKeepsValue(s: seq<int>)
    requires AllBelow(s, 256)
    ensures AllBelow(TrimZeros(s), 256) && Value(TrimZeros(s), 256) == Value(s, 256)
  {
    if s != [] && s[0] == 0 {
      TrimKeepsValue(s[1..]);
      assert [0] + s[1..] == s;
      ValueConcat([0], s[1..], 256);
      assert [0][..0] == [] && Value([0], 256) == 0;
    }
  }

  /** The canonical base 58 digits of a number. */
  function Digits(v: nat): (ds: seq<int>)
    ensures Canonical(ds) && Value(ds, 58) == v
  {
    if v == 0 then []
    else
      var ds := Digits(v / 58);
      AppendDigit(ds, v);
      ds + [v % 58]
  }

  lemma AppendDigit(ds: seq<int>, v: nat)
    requires Canonical(ds) && Value(ds, 58) == v / 58 && v > 0
    ensures Canonical(ds + [v % 58]) && Value(ds + [v % 58], 58) == v
  {
    ValueSnoc(ds, v % 58, 58);
    assert ds == [] ==> Value(ds, 58) == 0;
    hide Value;
  }

  /** The digits of v fill out[from..end] and need all of it. */
  ghost predicate Encoded(out: seq<int>, from: int, end: int, v: nat) {
    && 0 <= from <= end <= |out| && AllBelow(out[from..end], 58) && Value(out[from..end], 58) == v
    && (from < end ==> v >= Pow(58, end - from - 1))
  }

  lemma EncodedIsDigits(out: seq<int>, from: int, end: int, v: nat)
    requires Encoded(out, from, end, v)
    ensures out[from..end] == Digits(v)
  {
    if from < end { LeadingDigit(out[from..end]); }
    CanonicalUnique(out[from..end], Digits(v));
  }

  lemma LimbValue(input: seq<int>, done: nat, k: nat, area: nat)
    requires AllBelow(input, 256) && done + k <= |input| && Pow(256, |input|) <= Pow(58, area)
    ensures var carry := Value(input[done..done + k], 256);
            && carry + Pow(256, k) * Value(input[..done], 256) == Value(input[..done + k], 256) < Pow(58, area)
            && Value(input[..done], 256) <= Value(input[..done + k], 256)
  {
    hide Value, Pow;
    assert input[..done + k] == input[..done] + input[done..done + k];
    ValueConcat(input[..done], input[done..done + k], 256);
    ValueBound(input[..done + k], 256);
    PowMonotone(256, done + k, |input|);
    PowPositive(256, k);
    Grows(Value(input[..done], 256), Pow(256, k));
  }

  /** Takes the next k bytes of the input into the number. */
  method ProcessLimb(input: seq<int>, done: nat, k: nat, out: array<int>, start: nat, from: nat,
      end: nat) returns (from': nat)
    requires AllBelow(input, 256) && 0 < k <= LIMB && done + k <= |input|
    requires start <= from <= end <= out.Length && Pow(256, |input|) <= Pow(58, end - start)
    requires Encoded(out[..], from, end, Value(input[..done], 256))
    modifies out
    ensures start <= from' && Encoded(out[..], from', end, Value(input[..done + k], 256))
    ensures out[..start] == old(out[..start]) && out[end..] == old(out[end..])
  {
    hide Value, Pow;
    LimbValue(input, done, k, end - start);
    var carry := TakeBytes(input, done, k);
    assert out[..][from..end] == out[from..end];
    var m := Pow(256, k);
    carry := MultiplyDigits(out, from, end, m, carry);
    assert out[..start] == out[..from][..start];
    from' := FinishCarry(out, start, from, end, carry, Value(input[..done + k], 256));
  }

  method SkipZeros(input: seq<int>) returns (pos: nat)
    ensures pos <= |input| && input[pos..] == TrimZeros(input)
  {
    pos := 0;
    assert input[0..] == input;
    while pos != |input| && input[pos] == 0
      invariant pos <= |input| && TrimZeros(input[pos..]) == TrimZeros(input)
    {
      assert input[pos..][1..] == input[pos + 1..];
      pos := pos + 1;
    }
  }

  /** After a limb of k bytes the rest comes in whole limbs. */
  predicate Aligned(rest: int, k: int) {
    0 < k <= LIMB && k <= rest && (rest - k) % LIMB == 0
  }

  lemma FirstAligned(size: nat)
    ensures size > 0 ==> Aligned(size, (size - 1) % LIMB + 1)
  {
  }

  lemma NextAligned(rest: int, k: int)
    requires Aligned(rest, k)
    ensures 0 < k <= LIMB && k <= rest && (rest > k ==> Aligned(rest - k, LIMB))
  {
  }

  /** Limb by limb, the short one first. */
  method Convert(bytes: seq<int>, out: array<int>, start: nat, end: nat) returns (from: nat)
    requires AllBelow(bytes, 256) && end == start + Area(|bytes|) < out.Length
    modifies out
    ensures start <= from <= end && AllBelow(out[from..end], 58) && out[from..end] == Digits(Value(bytes, 256))
    ensures out[..start] == old(out[..start]) && out[end..] == old(out[end..])
  {
    hide Value, Pow, Digits, Encoded, Aligned;
    AreaSuffices(|bytes|);
    FirstAligned(|bytes|);
    from := end;
    var done, k := 0, if |bytes| == 0 then 0 else (|bytes| - 1) % LIMB + 1;
    NothingEncoded(out[..], end, bytes[..0]);
    while done < |bytes|
      invariant done <= |bytes| && start <= from <= end
      invariant Encoded(out[..], from, end, Value(bytes[..done], 256))
      invariant done < |bytes| ==> Aligned(|bytes| - done, k)
      invariant out[..start] == old(out[..start]) && out[end..] == old(out[end..])
    {
      NextAligned(|bytes| - done, k);
      from := ProcessLimb(bytes, done, k, out, start, from, end);
      EncodedRange(out[..], from, end, Value(bytes[..done + k], 256));
      done := done + k;
      k := LIMB;
    }
    assert bytes[..|bytes|] == bytes;
    EncodedRange(out[..], from, end, Value(bytes, 256));
    EncodedIsDigits(out[..], from, end, Value(bytes, 256));
    assert out[..][from..end] == out[from..end];
  }

  /**
   * Encodes input into out from start on. The text is the canonical base 58 numeral of the
   * big-endian number, followed by a zero byte; nothing outside the area and one byte more is
   * written; an input of zero bytes only gives the empty text.
   */
  method Encode(input: seq<int>, out: array<int>, start: nat) returns (next: nat)
    requires AllBelow(input, 256) && start + Area(|TrimZeros(input)|) < out.Length
    modifies out
    ensures start < next <= start + Area(|TrimZeros(input)|) + 1 && out[next - 1] == 0
    ensures out[start..next - 1] == Codes(Digits(Value(input, 256)))
    ensures out[..start] == old(out[..start])
    ensures out[start + Area(|TrimZeros(input)|) + 1..] == old(out[start + Area(|TrimZeros(input)|) + 1..])
  {
    hide Value, Digits, Codes, TrimZeros;
    var pos := SkipZeros(input);
    TrimKeepsValue(input);
    var bytes := input[pos..];
    var end := start + |bytes| * 350 / 256 + 1;
    var from := Convert(bytes, out, start, end);
    assert out[end..][1..] == out[end + 1..];
    next := Translate(out, start, from, end);
  }

  lemma NothingEncoded(out: seq<int>, end: nat, bytes: seq<int>)
    requires end <= |out| && bytes == []
    ensures Encoded(out, end, end, Value(bytes, 256))
  {
  }

  lemma EncodedRange(out: seq<int>, from: int, end: int, v: nat)
    requires Encoded(out, from, end, v)
    ensures 0 <= from <= end <= |out| && AllBelow(out[from..end], 58)
  {
  }
}
