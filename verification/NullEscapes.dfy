/** Removing the escape of the NUL character from JSON text: two implementations and what they compute. */
module NullEscapes {
  import Hex

  const NULL_ESCAPE := "\\u0000"

  predicate StartsNull(s: string) {
    |s| >= 6 && s[..6] == NULL_ESCAPE
  }

  lemma StartsShape(s: string)
    ensures StartsNull(s) ==> s[0] == '\\' && s[1] == 'u'
  {
    if StartsNull(s) { assert s[0] == s[..6][0] && s[1] == s[..6][1]; }
  }

  /** Token by token: a null escape goes, any other escape keeps its backslash and the character after it. */
  function Strip(s: string): string
    decreases |s|
  {
    if s == [] then []
    else if StartsNull(s) then Strip(s[6..])
    else if s[0] == '\\' && |s| > 1 then s[..2] + Strip(s[2..])
    else [s[0]] + Strip(s[1..])
  }

  /** The same, one character at a time; escaped says whether the next one follows an open backslash. */
  function Scan(s: string, escaped: bool): string
    decreases |s|
  {
    if s == [] then []
    else if !escaped && StartsNull(s) then Scan(s[6..], false)
    else [s[0]] + Scan(s[1..], !escaped && s[0] == '\\')
  }

  lemma {:induction false} ScanIsStrip(s: string)
    ensures Scan(s, false) == Strip(s)
    decreases |s|
  {
    if s != [] {
      if StartsNull(s) {
        ScanIsStrip(s[6..]);
      } else if s[0] == '\\' && |s| > 1 {
        ScanIsStrip(s[2..]);
        assert s[1..][1..] == s[2..];
        assert s[..2] == [s[0], s[1]];
        assert [s[0]] + ([s[1]] + Scan(s[2..], false)) == [s[0], s[1]] + Scan(s[2..], false);
      } else {
        ScanIsStrip(s[1..]);
        assert |s| == 1 ==> s[1..] == [];
      }
    }
  }

  // ---- The implementations ----

  /** Backslashes at the end. */
  function Trailing(s: string): (n: nat)
    ensures n <= |s|
  {
    if s == [] || s[|s| - 1] != '\\' then 0 else 1 + Trailing(s[..|s| - 1])
  }

  lemma TrailingAppend(s: string, c: char)
    ensures Trailing(s + [c]) == if c == '\\' then Trailing(s) + 1 else 0
  {
    assert (s + [c])[..|s|] == s;
  }

  /** The nested backward count. */
  method CountTrailing(out: string) returns (bs: nat)
    ensures bs == Trailing(out)
  {
    bs := 0;
    assert out[..|out|] == out;
    while bs < |out| && out[|out| - 1 - bs] == '\\'
      invariant bs <= |out| && bs + Trailing(out[..|out| - bs]) == Trailing(out)
    {
      assert out[..|out| - bs][..|out| - bs - 1] == out[..|out| - bs - 1];
      bs := bs + 1;
    }
  }

  predicate IsNullAt(s: string, i: int)
    requires 0 <= i < |s|
  {
    s[i] == '\\' && i + 5 < |s| && s[i + 1] == 'u' && s[i + 2] == '0' && s[i + 3] == '0' && s[i + 4] == '0'
        && s[i + 5] == '0'
  }

  lemma NullAt(s: string, i: int)
    requires 0 <= i < |s|
    ensures IsNullAt(s, i) <==> StartsNull(s[i..])
  {
    var t := s[i..];
    assert forall k | 0 <= k < |t| :: t[k] == s[i + k];
    if |t| >= 6 {
      assert t[..6] == [t[0], t[1], t[2], t[3], t[4], t[5]];
    }
  }

  /** One round of either loop: what the parity of the trailing backslashes stands for. */
  lemma RoundStep(s: string, i: int, out: string)
    requires 0 <= i < |s|
    ensures var escaped := Trailing(out) % 2 == 1;
            && (IsNullAt(s, i) && !escaped ==> i + 6 <= |s| && Scan(s[i..], false) == Scan(s[i + 6..], false))
            && (!(IsNullAt(s, i) && !escaped) ==>
                  out + Scan(s[i..], escaped) == (out + [s[i]]) + Scan(s[i + 1..], Trailing(out + [s[i]]) % 2 == 1))
  {
    var escaped := Trailing(out) % 2 == 1;
    NullAt(s, i);
    TrailingAppend(out, s[i]);
    hide Trailing, IsNullAt;
    if StartsNull(s[i..]) { assert s[i..][6..] == s[i + 6..]; }
    assert s[i..][1..] == s[i + 1..];
    var escaped' := Trailing(out + [s[i]]) % 2 == 1;
    assert escaped' == (!escaped && s[i] == '\\');
    assert out + ([s[i]] + Scan(s[i + 1..], escaped')) == (out + [s[i]]) + Scan(s[i + 1..], escaped');
  }

  /** The database function: copies into a second buffer. */
  method StripCopy(src: string) returns (dst: string)
    ensures dst == Strip(src)
  {
    hide Scan, Trailing, Strip;
    if '\\' !in src {
      NoBackslash(src);
      return src;
    }
    dst := [];
    var i := 0;
    ScanIsStrip(src);
    assert src[0..] == src;
    NothingTrails();
    while i < |src|
      invariant 0 <= i <= |src|
      invariant dst + Scan(src[i..], Trailing(dst) % 2 == 1) == Strip(src)
      decreases |src| - i
    {
      RoundStep(src, i, dst);
      if IsNullAt(src, i) {
        var bs := CountTrailing(dst);
        if bs % 2 == 0 {
          i := i + 6;
          continue;
        }
      }
      dst := dst + [src[i]];
      i := i + 1;
    }
    NothingLeft(src[i..], Trailing(dst) % 2 == 1);
  }

  lemma {:induction false} NoBackslash(s: string)
    requires '\\' !in s
    ensures Strip(s) == s
  {
    if s != [] {
      NoBackslash(s[1..]);
      StartsShape(s);
      assert s[0] in s;
      assert [s[0]] + s[1..] == s;
    }
  }

  lemma NothingTrails()
    ensures Trailing([]) == 0
  {
  }

  lemma NothingLeft(s: string, escaped: bool)
    requires s == []
    ensures Scan(s, escaped) == []
  {
  }

  /** The serializer's version: compacts the string in its own storage, the write index never passing the read index. */
  method StripInPlace(s: array<char>) returns (out: nat)
    modifies s
    ensures out <= s.Length && s[..out] == Strip(old(s[..]))
  {
    hide Scan, Trailing, Strip, IsNullAt;
    ghost var text := s[..];
    if '\\' !in s[..] {
      NoBackslash(text);
      assert s[..s.Length] == s[..];
      return s.Length;
    }
    out := 0;
    var i := 0;
    ScanIsStrip(text);
    NothingTrails();
    assert text[0..] == text && s[..0] == [];
    while i < s.Length
      invariant 0 <= out <= i <= s.Length
      invariant s[i..] == text[i..]
      invariant s[..out] + Scan(text[i..], Trailing(s[..out]) % 2 == 1) == Strip(text)
      decreases s.Length - i
    {
      ghost var done := s[..out];
      RoundStep(text, i, done);
      NullHere(s[..], text, i);
      assert s[i] == s[i..][0] == text[i];
      if IsNullAt(s[..], i) {
        var bs := CountTrailing(s[..out]);
        if bs % 2 == 0 {
          i := i + 6;
          assert s[i..] == s[i - 6..][6..] == text[i..];
          continue;
        }
      }
      ghost var unread := s[i + 1..];
      assert unread == s[i..][1..] == text[i + 1..];
      s[out] := s[i];
      assert s[i + 1..] == unread;
      out, i := out + 1, i + 1;
      assert s[..out] == done + [text[i - 1]];
    }
    NothingLeft(text[i..], Trailing(s[..out]) % 2 == 1);
  }

  lemma NullHere(s: string, text: string, i: int)
    requires 0 <= i < |s| && |s| == |text| && s[i..] == text[i..]
    ensures IsNullAt(s, i) <==> IsNullAt(text, i)
  {
    assert forall k | i <= k < |s| :: s[k] == s[i..][k - i] == text[k];
  }

  // ---- What it means for JSON strings ----

  function ValueOf(c: char): int {
    Hex.Value(c as int)
  }

  predicate IsHex(c: char) {
    ValueOf(c) >= 0
  }

  predicate IsSimple(c: char) {
    c in "\"\\/bfnrt"
  }

  function SimpleUnit(c: char): int {
    if c == 'b' then 8
    else if c == 'f' then 12
    else if c == 'n' then 10
    else if c == 'r' then 13
    else if c == 't' then 9
    else c as int
  }

  /** The tokens of section 7 of RFC 8259. */
  datatype Token = Plain(c: char) | Simple(c: char) | Unicode(hex: string)

  predicate IsToken(t: Token) {
    match t
    case Plain(c) => c != '\\' && c != '\0'
    case Simple(c) => IsSimple(c)
    case Unicode(hex) => |hex| == 4 && forall i | 0 <= i < 4 :: IsHex(hex[i])
  }

  function Unit(t: Token): int
    requires IsToken(t)
  {
    match t
    case Plain(c) => c as int
    case Simple(c) => SimpleUnit(c)
    case Unicode(hex) => ((ValueOf(hex[0]) * 16 + ValueOf(hex[1])) * 16 + ValueOf(hex[2])) * 16 + ValueOf(hex[3])
  }

  function Write(t: Token): string {
    match t
    case Plain(c) => [c]
    case Simple(c) => ['\\', c]
    case Unicode(hex) => "\\u" + hex
  }

  predicate AllTokens(ts: seq<Token>) {
    forall i | 0 <= i < |ts| :: IsToken(ts[i])
  }

  function WriteAll(ts: seq<Token>): string {
    if ts == [] then [] else Write(ts[0]) + WriteAll(ts[1..])
  }

  /** The decoded code units. */
  function Units(ts: seq<Token>): seq<int>
    requires AllTokens(ts)
  {
    if ts == [] then [] else [Unit(ts[0])] + Units(ts[1..])
  }

  function DropNul(ts: seq<Token>): (r: seq<Token>)
    requires AllTokens(ts)
    ensures AllTokens(r)
  {
    if ts == [] then [] else (if Unit(ts[0]) == 0 then [] else [ts[0]]) + DropNul(ts[1..])
  }

  function WithoutZeros(us: seq<int>): seq<int> {
    if us == [] then [] else (if us[0] == 0 then [] else [us[0]]) + WithoutZeros(us[1..])
  }

  /** Only one spelling has the value zero. */
  lemma ZeroUnit(t: Token)
    requires IsToken(t)
    ensures Unit(t) == 0 <==> Write(t) == NULL_ESCAPE
  {
    match t
    case Plain(c) =>
    case Simple(c) =>
    case Unicode(hex) =>
      assert hex == [hex[0], hex[1], hex[2], hex[3]];
      var w := Write(t);
      assert w[2] == hex[0] && w[3] == hex[1] && w[4] == hex[2] && w[5] == hex[3];
      if Unit(t) == 0 {
        assert ValueOf(hex[0]) == 0 && ValueOf(hex[1]) == 0 && ValueOf(hex[2]) == 0 && ValueOf(hex[3]) == 0;
      }
  }

  lemma StripPlain(c: char, rest: string)
    requires c != '\\'
    ensures Strip([c] + rest) == [c] + Strip(rest)
  {
    var s := [c] + rest;
    assert s[1..] == rest;
    StartsShape(s);
  }

  lemma {:induction false} StripRun(word: string, rest: string)
    requires forall i | 0 <= i < |word| :: word[i] != '\\'
    ensures Strip(word + rest) == word + Strip(rest)
  {
    hide Strip;
    if word == [] {
      assert word + rest == rest;
    } else {
      StripRun(word[1..], rest);
      StripPlain(word[0], word[1..] + rest);
      assert word + rest == [word[0]] + (word[1..] + rest);
      assert [word[0]] + (word[1..] + Strip(rest)) == word + Strip(rest);
    }
  }

  lemma StripSimple(c: char, rest: string)
    requires IsSimple(c)
    ensures Strip(['\\', c] + rest) == ['\\', c] + Strip(rest)
  {
    var s := ['\\', c] + rest;
    StartsShape(s);
    assert s[..2] == ['\\', c] && s[2..] == rest;
  }

  lemma StripUnicode(hex: string, rest: string)
    requires |hex| == 4 && (forall i | 0 <= i < 4 :: IsHex(hex[i])) && "\\u" + hex != NULL_ESCAPE
    ensures Strip("\\u" + hex + rest) == "\\u" + hex + Strip(rest)
  {
    var s := "\\u" + hex + rest;
    assert s[..6] == "\\u" + hex;
    assert s[..2] == "\\u" && s[2..] == hex + rest;
    assert Strip(s) == "\\u" + Strip(hex + rest);
    hide Strip;
    StripRun(hex, rest);
    assert "\\u" + (hex + Strip(rest)) == "\\u" + hex + Strip(rest);
  }

  lemma StripNull(rest: string)
    ensures Strip(NULL_ESCAPE + rest) == Strip(rest)
  {
    var s := NULL_ESCAPE + rest;
    assert s[..6] == NULL_ESCAPE && s[6..] == rest;
  }

  /** A token goes or stays as a whole, whatever follows it. */
  lemma StripToken(t: Token, rest: string)
    requires IsToken(t)
    ensures Strip(Write(t) + rest) == (if Unit(t) == 0 then [] else Write(t)) + Strip(rest)
  {
    hide Strip, Unit;
    ZeroUnit(t);
    if Write(t) == NULL_ESCAPE {
      StripNull(rest);
      assert [] + Strip(rest) == Strip(rest);
    } else {
      match t
      case Plain(c) => StripPlain(c, rest);
      case Simple(c) => StripSimple(c, rest);
      case Unicode(hex) => StripUnicode(hex, rest);
    }
  }

  /** Stripping a well-formed text drops exactly the tokens that stand for NUL. */
  lemma {:induction false} StripDropsNul(ts: seq<Token>)
    requires AllTokens(ts)
    ensures Strip(WriteAll(ts)) == WriteAll(DropNul(ts))
  {
    if ts != [] {
      hide Write, Unit, Strip;
      StripToken(ts[0], WriteAll(ts[1..]));
      StripDropsNul(ts[1..]);
      if Unit(ts[0]) != 0 {
        assert DropNul(ts)[1..] == DropNul(ts[1..]);
      } else {
        assert DropNul(ts) == DropNul(ts[1..]);
        assert [] + WriteAll(DropNul(ts[1..])) == WriteAll(DropNul(ts[1..]));
      }
    } else {
      assert Strip([]) == [];
    }
  }

  /** The decoded text is the original one with its NULs removed. */
  lemma {:induction false} UnitsWithoutNul(ts: seq<Token>)
    requires AllTokens(ts)
    ensures Units(DropNul(ts)) == WithoutZeros(Units(ts))
  {
    if ts != [] {
      hide Unit;
      UnitsWithoutNul(ts[1..]);
      assert Units(ts)[1..] == Units(ts[1..]);
      if Unit(ts[0]) != 0 {
        assert DropNul(ts)[1..] == DropNul(ts[1..]);
      } else {
        assert DropNul(ts) == DropNul(ts[1..]);
      }
    }
  }

  lemma {:induction false} DropTwice(ts: seq<Token>)
    requires AllTokens(ts)
    ensures DropNul(DropNul(ts)) == DropNul(ts)
  {
    if ts != [] {
      hide Unit;
      DropTwice(ts[1..]);
      if Unit(ts[0]) != 0 {
        assert DropNul(ts)[1..] == DropNul(ts[1..]) && DropNul(ts)[0] == ts[0];
      } else {
        assert DropNul(ts) == DropNul(ts[1..]);
      }
    }
  }

  /** On well-formed text a second pass changes nothing. */
  lemma Idempotent(ts: seq<Token>)
    requires AllTokens(ts)
    ensures Strip(Strip(WriteAll(ts))) == Strip(WriteAll(ts))
  {
    StripDropsNul(ts);
    StripDropsNul(DropNul(ts));
    DropTwice(ts);
  }

  /** On a broken escape it may: the deletion itself can complete a new null escape. */
  lemma NotIdempotent()
    ensures var s := "\\u00" + NULL_ESCAPE + "00"; Strip(s) == NULL_ESCAPE && Strip(Strip(s)) == []
  {
    var s := "\\u00" + NULL_ESCAPE + "00";
    assert s[..2] == "\\u" && s[2..] == "00" + (NULL_ESCAPE + "00");
    assert s[4] == '\\' && s[..6][4] == '\\' && !StartsNull(s);
    StripRun("00", NULL_ESCAPE + "00");
    assert (NULL_ESCAPE + "00")[..6] == NULL_ESCAPE && (NULL_ESCAPE + "00")[6..] == "00";
    StripRun("00", []);
    assert "00" + [] == "00";
    assert "\\u" + ("00" + "00") == NULL_ESCAPE;
    assert NULL_ESCAPE[..6] == NULL_ESCAPE && NULL_ESCAPE[6..] == [];
  }

  // ---- Exactly when a second pass changes something ----

  /** k zeros come next once null escapes are taken out. */
  predicate ZerosNext(s: string, k: nat)
    decreases |s|
  {
    k == 0 || (s != [] && (if StartsNull(s) then ZerosNext(s[6..], k) else s[0] == '0' && ZerosNext(s[1..], k - 1)))
  }

  /** Some escape begins like a null escape and is completed only by a deletion. */
  predicate Completes(s: string)
    decreases |s|
  {
    if s == [] then false
    else if StartsNull(s) then Completes(s[6..])
    else if s[0] == '\\' && |s| > 1 then (s[1] == 'u' && ZerosNext(s[2..], 4)) || Completes(s[2..])
    else Completes(s[1..])
  }

  function Zeros(k: nat): string {
    seq(k, _ => '0')
  }

  lemma {:induction false} StripShrinks(s: string)
    ensures |Strip(s)| <= |s|
    decreases |s|
  {
    if s != [] {
      if StartsNull(s) { StripShrinks(s[6..]); }
      else if s[0] == '\\' && |s| > 1 { StripShrinks(s[2..]); }
      else { StripShrinks(s[1..]); }
    }
  }

  lemma {:induction false} ZerosIff(s: string, k: nat)
    ensures ZerosNext(s, k) <==> k <= |Strip(s)| && Strip(s)[..k] == Zeros(k)
    decreases |s|
  {
    if k > 0 && s != [] {
      assert Zeros(k)[0] == '0';
      if StartsNull(s) {
        ZerosIff(s[6..], k);
      } else if s[0] == '\\' && |s| > 1 {
        assert Strip(s)[0] == '\\';
        FirstOf(Strip(s), k);
      } else {
        ZerosIff(s[1..], k - 1);
        var rest := Strip(s[1..]);
        assert Strip(s) == [s[0]] + rest;
        FirstOf(Strip(s), k);
        assert Zeros(k) == ['0'] + Zeros(k - 1);
        if k - 1 <= |rest| {
          assert ([s[0]] + rest)[..k] == [s[0]] + rest[..k - 1];
          SamePrefix(['0'], rest[..k - 1], Zeros(k - 1));
        }
      }
    }
  }

  lemma FirstOf(s: string, k: nat)
    ensures 0 < k <= |s| ==> s[..k][0] == s[0]
  {
  }

  lemma NullAfterPrefix(x: string)
    ensures StartsNull("\\u" + x) <==> |x| >= 4 && x[..4] == Zeros(4)
  {
    var s := "\\u" + x;
    assert Zeros(4) == "0000" && NULL_ESCAPE == "\\u" + "0000";
    if |x| >= 4 {
      assert s[..6] == "\\u" + x[..4];
      assert s[..6][2..] == x[..4] && NULL_ESCAPE[2..] == "0000";
    }
  }

  lemma StripPair(c: char, x: string)
    ensures !StartsNull(['\\', c] + x) ==> Strip(['\\', c] + x) == ['\\', c] + Strip(x)
  {
    var s := ['\\', c] + x;
    assert s[..2] == ['\\', c] && s[2..] == x;
  }

  lemma SamePrefix(a: string, x: string, y: string)
    ensures a + x == a + y <==> x == y
  {
    assert (a + x)[|a|..] == x && (a + y)[|a|..] == y;
  }

  /** Stripping is idempotent on s if and only if no deletion completes another null escape. */
  lemma {:induction false} IdempotentIff(s: string)
    ensures Strip(Strip(s)) == Strip(s) <==> !Completes(s)
    decreases |s|
  {
    if s == [] {
    } else if StartsNull(s) {
      IdempotentIff(s[6..]);
    } else if s[0] == '\\' && |s| > 1 {
      var x := Strip(s[2..]);
      IdempotentIff(s[2..]);
      var out := [s[0], s[1]] + x;
      assert s[..2] == [s[0], s[1]] && Strip(s) == out;
      StartsShape(out);
      ZerosIff(s[2..], 4);
      hide Strip, Completes;
      PairTwice(s[1], x);
    } else {
      IdempotentIff(s[1..]);
      var x := Strip(s[1..]);
      assert Strip(s) == [s[0]] + x;
      if s[0] == '\\' {
        assert s[1..] == [] && x == [] && [s[0]] + [] == s;
      } else {
        StripPlain(s[0], x);
        SamePrefix([s[0]], Strip(x), x);
      }
    }
  }

  /** An escape in front of text x that has been stripped once. */
  lemma PairTwice(c: char, x: string)
    ensures var out := ['\\', c] + x;
            Strip(out) == out <==> !(c == 'u' && |x| >= 4 && x[..4] == Zeros(4)) && Strip(x) == x
  {
    var out := ['\\', c] + x;
    StartsShape(out);
    if c == 'u' { NullAfterPrefix(x); assert out == "\\u" + x; }
    if StartsNull(out) {
      StripShrinks(out[6..]);
    } else {
      StripPair(c, x);
      SamePrefix(['\\', c], Strip(x), x);
    }
  }
}
