/** UTF-8 and UTF-16 encodings of code points, and the decoder used for key order. A char is one byte. */
module Utf {
  predicate IsScalar(c: int) {
    0 <= c < 0xD800 || 0xE000 <= c < 0x11_0000
  }

  predicate AllScalars(cs: seq<int>) {
    forall i | 0 <= i < |cs| :: IsScalar(cs[i])
  }

  function Tail(n: int): char {
    (0x80 + n % 64) as char
  }

  /** Section 3 of RFC 3629. */
  function Utf8(c: int): (s: string)
    requires IsScalar(c)
    ensures 1 <= |s| <= 4
  {
    if c < 0x80 then [c as char]
    else if c < 0x800 then [(0xC0 + c / 64) as char, Tail(c)]
    else if c < 0x1_0000 then [(0xE0 + c / 4096) as char, Tail(c / 64), Tail(c)]
    else [(0xF0 + c / 262144) as char, Tail(c / 4096), Tail(c / 64), Tail(c)]
  }

  /** Section 2.1 of RFC 2781. */
  function Utf16(c: int): seq<int>
    requires IsScalar(c)
  {
    if c < 0x1_0000 then [c] else [0xD800 + (c - 0x1_0000) / 1024, 0xDC00 + c % 1024]
  }

  function Encode8(cs: seq<int>): string
    requires AllScalars(cs)
  {
    if cs == [] then [] else Utf8(cs[0]) + Encode8(cs[1..])
  }

  function Encode16(cs: seq<int>): seq<int>
    requires AllScalars(cs)
  {
    if cs == [] then [] else Utf16(cs[0]) + Encode16(cs[1..])
  }

  ghost predicate ValidUtf8(s: string) {
    exists cs :: AllScalars(cs) && Encode8(cs) == s
  }

  // ---- utf8_to_utf16 ----

  function LeadLength(c: int): nat {
    if c < 0x80 then 1 else if c / 32 == 6 then 2 else if c / 16 == 14 then 3 else 4
  }

  function LeadBits(c: int): int {
    if c < 0x80 then c else if c / 32 == 6 then c % 32 else if c / 16 == 14 then c % 16 else c % 8
  }

  /** Up to n continuation bytes, as many as the text has left; no check of what they are. */
  function Continue(cp: int, s: string, n: nat): int
    decreases n
  {
    if n == 0 || s == [] then cp else Continue(cp * 64 + s[0] as int % 64, s[1..], n - 1)
  }

  function Units(cp: int): seq<int> {
    if cp <= 0xFFFF then [cp] else [0xD800 + (cp - 0x1_0000) / 1024, 0xDC00 + (cp - 0x1_0000) % 1024]
  }

  function ToUtf16(s: string): seq<int>
    decreases |s|
  {
    if s == [] then []
    else
      var len := LeadLength(s[0] as int);
      Units(Continue(LeadBits(s[0] as int), s[1..], len - 1)) + (if len >= |s| then [] else ToUtf16(s[len..]))
  }

  method DecodeAt(s: string, i: nat) returns (cp: int, len: nat)
    requires i < |s|
    ensures len == LeadLength(s[i] as int) && cp == Continue(LeadBits(s[i] as int), s[i + 1..], len - 1)
  {
    var c := s[i] as int;
    if c < 0x80 {
      cp, len := c, 1;
    } else if c / 32 == 6 {
      cp, len := c % 32, 2;
    } else if c / 16 == 14 {
      cp, len := c % 16, 3;
    } else {
      cp, len := c % 8, 4;
    }
    var k := 1;
    while k < len && i + k < |s|
      invariant 1 <= k <= len && i + k <= |s|
      invariant Continue(cp, s[i + k..], len - k) == Continue(LeadBits(c), s[i + 1..], len - 1)
    {
      assert s[i + k..][1..] == s[i + k + 1..];
      cp := cp * 64 + s[i + k] as int % 64;
      k := k + 1;
    }
  }

  function RestFrom(s: string, i: nat): seq<int> {
    if i < |s| then ToUtf16(s[i..]) else []
  }

  lemma RestStep(s: string, i: nat)
    requires i < |s|
    ensures var len := LeadLength(s[i] as int);
            RestFrom(s, i) == Units(Continue(LeadBits(s[i] as int), s[i + 1..], len - 1)) + RestFrom(s, i + len)
  {
    hide Units, Continue;
    var len := LeadLength(s[i] as int);
    assert s[i..][1..] == s[i + 1..];
    if i + len < |s| { assert s[i..][len..] == s[i + len..]; }
  }

  method Utf8ToUtf16(s: string) returns (out: seq<int>)
    ensures out == ToUtf16(s)
  {
    hide ToUtf16, Units, Continue, LeadLength, LeadBits;
    out := [];
    var i := 0;
    assert s[0..] == s;
    assert RestFrom(s, 0) == ToUtf16(s) by { Whole(s); }
    while i < |s|
      invariant 0 <= i && out + RestFrom(s, i) == ToUtf16(s)
      decreases |s| - i
    {
      LeadPositive(s[i] as int);
      RestStep(s, i);
      var cp, len := DecodeAt(s, i);
      assert out + (Units(cp) + RestFrom(s, i + len)) == out + Units(cp) + RestFrom(s, i + len);
      out := out + Units(cp);
      i := i + len;
    }
  }

  lemma Whole(s: string)
    ensures RestFrom(s, 0) == ToUtf16(s)
  {
    assert s[0..] == s;
  }

  lemma LeadPositive(c: int)
    ensures LeadLength(c) > 0
  {
  }

  // ---- Every unit fits 16 bits ----

  predicate AreUnits(us: seq<int>) {
    forall i | 0 <= i < |us| :: 0 <= us[i] < 0x1_0000
  }

  function Scaled(m: nat, n: nat): (r: nat)
    ensures r >= m
    decreases n
  {
    if n == 0 then m else Scaled(m * 64, n - 1)
  }

  lemma {:induction false} ContinueBound(cp: int, s: string, n: nat, m: nat)
    requires 0 <= cp < m
    ensures 0 <= Continue(cp, s, n) < Scaled(m, n)
    decreases n
  {
    if n > 0 && s != [] {
      ContinueBound(cp * 64 + s[0] as int % 64, s[1..], n - 1, m * 64);
    }
  }

  /** At most seven bits, or 11, 16 or 21 of them. */
  lemma DecodedBound(c: int, rest: string)
    requires 0 <= c < 256
    ensures 0 <= Continue(LeadBits(c), rest, LeadLength(c) - 1) < 0x20_0000
    ensures LeadLength(c) < 4 ==> Continue(LeadBits(c), rest, LeadLength(c) - 1) < 0x1_0000
  {
    hide Continue, Scaled;
    ScaledValues();
    ContinueBound(LeadBits(c), rest, LeadLength(c) - 1,
                  if c < 0x80 then 128 else if c / 32 == 6 then 32 else if c / 16 == 14 then 16 else 8);
  }

  lemma ScaledValues()
    ensures Scaled(128, 0) == 0x80 && Scaled(32, 1) == 0x800 && Scaled(16, 2) == 0x1_0000 && Scaled(8, 3) == 0x20_0000
  {
    assert Scaled(1024, 1) == 65536;
    assert Scaled(512, 2) == Scaled(32768, 1);
  }

  /** On any bytes, valid or not, the casts to 16 bits lose nothing. */
  lemma {:induction false} UnitsFit(s: string)
    requires forall i | 0 <= i < |s| :: s[i] as int < 256
    ensures AreUnits(ToUtf16(s))
    decreases |s|
  {
    if s != [] {
      hide Continue, LeadBits;
      var len := LeadLength(s[0] as int);
      DecodedBound(s[0] as int, s[1..]);
      if len < |s| { UnitsFit(s[len..]); }
    }
  }

  // ---- Key order ----

  lemma DecodesOne(c: int, rest: string)
    requires IsScalar(c)
    ensures var s := Utf8(c) + rest;
            && LeadLength(s[0] as int) == |Utf8(c)|
            && Continue(LeadBits(s[0] as int), s[1..], |Utf8(c)| - 1) == c && Units(c) == Utf16(c)
  {
    hide Continue;
    var s := Utf8(c) + rest;
    SameUnits(c);
    if c < 0x80 {
      NoMore(LeadBits(s[0] as int), s[1..]);
    } else if c < 0x800 {
      Lead2(c);
      assert s[1..] == [Tail(c)] + rest;
      More(c / 64, c, rest, 0);
      NoMore(c, rest);
    } else if c < 0x1_0000 {
      Lead3(c);
      assert s[1..] == [Tail(c / 64)] + ([Tail(c)] + rest);
      More(c / 4096, c / 64, [Tail(c)] + rest, 1);
      More(c / 64, c, rest, 0);
      NoMore(c, rest);
    } else {
      Lead4(c);
      assert s[1..] == [Tail(c / 4096)] + ([Tail(c / 64)] + ([Tail(c)] + rest));
      More(c / 262144, c / 4096, [Tail(c / 64)] + ([Tail(c)] + rest), 2);
      More(c / 4096, c / 64, [Tail(c)] + rest, 1);
      More(c / 64, c, rest, 0);
      NoMore(c, rest);
    }
  }

  lemma SameUnits(c: int)
    requires IsScalar(c)
    ensures Units(c) == Utf16(c)
  {
  }

  lemma NoMore(cp: int, s: string)
    ensures Continue(cp, s, 0) == cp
  {
  }

  /** A continuation byte supplies the next six bits. */
  lemma More(cp: int, next: int, rest: string, n: nat)
    requires 0 <= next && cp == next / 64
    ensures Continue(cp, [Tail(next)] + rest, n + 1) == Continue(next, rest, n)
  {
    assert ([Tail(next)] + rest)[1..] == rest;
    assert (0x80 + next % 64) % 64 == next % 64;
    assert cp * 64 + next % 64 == next;
  }

  lemma Lead2(c: int)
    requires 0x80 <= c < 0x800
    ensures LeadLength(0xC0 + c / 64) == 2 && LeadBits(0xC0 + c / 64) == c / 64
  {
  }

  lemma Lead3(c: int)
    requires 0x800 <= c < 0x1_0000
    ensures LeadLength(0xE0 + c / 4096) == 3 && LeadBits(0xE0 + c / 4096) == c / 4096 == c / 64 / 64
  {
  }

  lemma Lead4(c: int)
    requires 0x1_0000 <= c < 0x11_0000
    ensures LeadLength(0xF0 + c / 262144) == 4 && LeadBits(0xF0 + c / 262144) == c / 262144 == c / 4096 / 64
    ensures c / 4096 == c / 64 / 64
  {
  }

  /** On valid UTF-8 the decoder gives the UTF-16 encoding of the same code points. */
  lemma {:induction false} DecodesUtf16(cs: seq<int>)
    requires AllScalars(cs)
    ensures ToUtf16(Encode8(cs)) == Encode16(cs)
  {
    if cs != [] {
      hide Utf8, Utf16, Units, Continue, LeadLength, LeadBits;
      var rest := Encode8(cs[1..]);
      DecodesOne(cs[0], rest);
      DecodesUtf16(cs[1..]);
      assert (Utf8(cs[0]) + rest)[|Utf8(cs[0])|..] == rest;
    }
  }

  lemma UnitsUnique(c: int, d: int, x: seq<int>, y: seq<int>)
    requires IsScalar(c) && IsScalar(d) && Utf16(c) + x == Utf16(d) + y
    ensures c == d && x == y
  {
    var a, b := Utf16(c) + x, Utf16(d) + y;
    assert a[0] == b[0];
    if c >= 0x1_0000 && d >= 0x1_0000 { assert a[1] == b[1]; }
    assert a[|Utf16(c)|..] == x && b[|Utf16(d)|..] == y;
  }

  lemma {:induction false} Encode16Injective(cs: seq<int>, ds: seq<int>)
    requires AllScalars(cs) && AllScalars(ds) && Encode16(cs) == Encode16(ds)
    ensures cs == ds
  {
    if cs != [] && ds != [] {
      UnitsUnique(cs[0], ds[0], Encode16(cs[1..]), Encode16(ds[1..]));
      Encode16Injective(cs[1..], ds[1..]);
      assert cs == [cs[0]] + cs[1..] && ds == [ds[0]] + ds[1..];
    }
  }

  /** Different valid keys have different UTF-16 forms. */
  lemma Injective(s: string, t: string)
    requires ValidUtf8(s) && ValidUtf8(t) && ToUtf16(s) == ToUtf16(t)
    ensures s == t
  {
    var cs :| AllScalars(cs) && Encode8(cs) == s;
    var ds :| AllScalars(ds) && Encode8(ds) == t;
    DecodesUtf16(cs);
    DecodesUtf16(ds);
    Encode16Injective(cs, ds);
  }
}
