/** Text as a PostgreSQL escape string literal, and the server's rules for reading one back. A char is one byte. */
module SqlLiteral {
  import opened Common
  import opened Power
  import opened Utf
  import Hex

  predicate IsPrintable(c: int) {
    0x20 <= c <= 0x7E
  }

  /** The last k hex digits of n. */
  function HexDigits(n: nat, k: nat): (s: string)
    ensures |s| == k
  {
    if k == 0 then [] else HexDigits(n / 16, k - 1) + [Hex.Digit(n % 16)]
  }

  // ---- escape_sql ----

  /** A printable character: five of them are written as octal escapes. */
  function EscapePrintable(c: int): string
    requires IsPrintable(c)
  {
    if c == '\\' as int then "\\134"
    else if c == '\'' as int then "\\047"
    else if c == '%' as int then "\\045"
    else if c == '_' as int then "\\137"
    else if c == ':' as int then "\\072"
    else [c as char]
  }

  /** NUL gets both a space and an escape. */
  function EscapePoint(c: int): string
    requires IsScalar(c)
  {
    if IsPrintable(c) then EscapePrintable(c)
    else if c > 0xFFFF then "\\U" + HexDigits(c, 8)
    else (if c == 0 then " " else "") + ("\\u" + HexDigits(c, 4))
  }

  function EscapePoints(cs: seq<int>): string
    requires AllScalars(cs)
  {
    if cs == [] then [] else EscapePoint(cs[0]) + EscapePoints(cs[1..])
  }

  /** The slow path over the code points of the text. */
  function EscapeSlow(cs: seq<int>): string
    requires AllScalars(cs)
  {
    "E'" + EscapePoints(cs) + "'"
  }

  predicate AllPrintable(text: string) {
    forall i | 0 <= i < |text| :: IsPrintable(text[i] as int)
  }

  function EscapeBytes(text: string): string
    requires AllPrintable(text)
  {
    if text == [] then [] else EscapePrintable(text[0] as int) + EscapeBytes(text[1..])
  }

  /** The fast path over the bytes. */
  function EscapeFast(text: string): string
    requires AllPrintable(text)
  {
    "E'" + EscapeBytes(text) + "'"
  }

  /** The whole: the empty text, then the fast path where it applies. */
  function EscapeSql(cs: seq<int>): string
    requires AllScalars(cs)
  {
    var text := Encode8(cs);
    if text == [] then "E''" else if AllPrintable(text) then EscapeFast(text) else EscapeSlow(cs)
  }

  /** The two loops; points is what decoding the UTF-8 text gives. */
  method Escape(text: string, points: seq<int>) returns (ret: string)
    requires AllScalars(points) && Encode8(points) == text
    ensures ret == EscapeSql(points)
  {
    hide Encode8, EscapePrintable, EscapePoint;
    if text == [] { return "E''"; }
    var allPrintable := true;
    for i := 0 to |text|
      invariant allPrintable == AllPrintable(text[..i])
    {
      assert text[..i + 1] == text[..i] + [text[i]];
      if text[i] as int < 0x20 || text[i] as int > 0x7E {
        allPrintable := false;
        PrintablePrefix(text, i);
        break;
      }
    }
    assert text[..|text|] == text;
    ret := "E'";
    if allPrintable {
      assert text[0..] == text;
      for i := 0 to |text|
        invariant ret + EscapeBytes(text[i..]) == "E'" + EscapeBytes(text)
      {
        assert text[i..][0] == text[i] && text[i..][1..] == text[i + 1..];
        assert ret + (EscapePrintable(text[i] as int) + EscapeBytes(text[i + 1..]))
            == ret + EscapePrintable(text[i] as int) + EscapeBytes(text[i + 1..]);
        ret := ret + EscapePrintable(text[i] as int);
      }
      assert text[|text|..] == [] && ret + [] == ret;
    } else {
      assert points[0..] == points;
      for i := 0 to |points|
        invariant ret + EscapePoints(points[i..]) == "E'" + EscapePoints(points)
      {
        assert points[i..][0] == points[i] && points[i..][1..] == points[i + 1..];
        assert ret + (EscapePoint(points[i]) + EscapePoints(points[i + 1..]))
            == ret + EscapePoint(points[i]) + EscapePoints(points[i + 1..]);
        ret := ret + EscapePoint(points[i]);
      }
      assert points[|points|..] == [] && ret + [] == ret;
    }
    ret := ret + "'";
  }

  lemma PrintablePrefix(text: string, i: nat)
    requires i < |text| && !IsPrintable(text[i] as int)
    ensures !AllPrintable(text)
  {
  }

  // ---- Reading an escape string constant ----

  predicate IsOctal(c: char) {
    '0' <= c <= '7'
  }

  /** The value of k hex digits. */
  function ReadHex(s: string, k: nat): Option<nat>
    requires k <= |s|
  {
    if k == 0 then Some(0)
    else if Hex.Value(s[k - 1] as int) < 0 then None
    else
      match ReadHex(s, k - 1)
      case None => None
      case Some(n) => Some(n * 16 + Hex.Value(s[k - 1] as int))
  }

  /** Up to three octal digits: their number and value. */
  function ReadOctal(s: string): (r: (nat, nat))
    requires s != [] && IsOctal(s[0])
    ensures 1 <= r.0 <= 3 && r.0 <= |s|
  {
    var a := s[0] as int - '0' as int;
    if |s| == 1 || !IsOctal(s[1]) then (1, a)
    else
      var b := a * 8 + s[1] as int - '0' as int;
      if |s| == 2 || !IsOctal(s[2]) then (2, b) else (3, b * 8 + s[2] as int - '0' as int)
  }

  function Unicode(s: string, k: nat): Option<(string, nat)>
    requires k <= |s|
  {
    match ReadHex(s, k)
    case None => None
    case Some(c) => if IsScalar(c) && c != 0 then Some((Utf8(c), k)) else None
  }

  /** Section 4.1.2.2 of the PostgreSQL manual: the bytes meant and the characters used after the backslash. */
  function ReadEscape(s: string): (r: Option<(string, nat)>)
    ensures r.Some? ==> r.value.1 <= |s|
  {
    if s == [] then None
    else if IsOctal(s[0]) then
      var (k, n) := ReadOctal(s);
      if n == 0 then None else Some(([(n % 256) as char], k))
    else if s[0] == 'u' then
      if |s| < 5 then None
      else
        match Unicode(s[1..], 4)
        case None => None
        case Some((bytes, k)) => Some((bytes, k + 1))
    else if s[0] == 'U' then
      if |s| < 9 then None
      else
        match Unicode(s[1..], 8)
        case None => None
        case Some((bytes, k)) => Some((bytes, k + 1))
    else if s[0] == 'b' then Some(([8 as char], 1))
    else if s[0] == 'f' then Some(([12 as char], 1))
    else if s[0] == 'n' then Some(([10 as char], 1))
    else if s[0] == 'r' then Some(([13 as char], 1))
    else if s[0] == 't' then Some(([9 as char], 1))
    else if s[0] == 'x' then
      if |s| < 2 || Hex.Value(s[1] as int) < 0 then Some((s[..1], 1))
      else
        var high := Hex.Value(s[1] as int);
        if |s| < 3 || Hex.Value(s[2] as int) < 0 then (if high == 0 then None else Some(([high as char], 2)))
        else
          var byte := high * 16 + Hex.Value(s[2] as int);
          if byte == 0 then None else Some(([byte as char], 3))
    else Some((s[..1], 1))
  }

  /** The body up to the closing quote, which must be the last character. */
  function ReadBody(s: string): Option<string>
    decreases |s|
  {
    if s == [] then None
    else if s[0] == '\'' then
      if |s| == 1 then Some([])
      else if s[1] == '\'' then
        match ReadBody(s[2..])
        case None => None
        case Some(rest) => Some("'" + rest)
      else None
    else if s[0] == '\\' then
      match ReadEscape(s[1..])
      case None => None
      case Some((bytes, k)) =>
        match ReadBody(s[1 + k..])
        case None => None
        case Some(rest) => Some(bytes + rest)
    else
      match ReadBody(s[1..])
      case None => None
      case Some(rest) => Some([s[0]] + rest)
  }

  function ReadLiteral(s: string): Option<string> {
    if |s| < 2 || s[0] != 'E' || s[1] != '\'' then None else ReadBody(s[2..])
  }

  // ---- Reading back what was escaped ----

  lemma {:induction false} ReadHexDigits(n: nat, k: nat, rest: string)
    requires n < Pow(16, k)
    ensures ReadHex(HexDigits(n, k) + rest, k) == Some(n)
  {
    if k > 0 {
      hide Hex.Digit, Hex.Value;
      Hex.Back(n % 16);
      var s := HexDigits(n, k) + rest;
      assert s == HexDigits(n / 16, k - 1) + ([Hex.Digit(n % 16)] + rest);
      assert n / 16 < Pow(16, k - 1);
      ReadHexDigits(n / 16, k - 1, [Hex.Digit(n % 16)] + rest);
    }
  }

  lemma ReadOctalEscape(a: char, b: char, c: char, n: int, rest: string)
    requires IsOctal(a) && IsOctal(b) && IsOctal(c)
    requires n == (a as int - '0' as int) * 64 + (b as int - '0' as int) * 8 + c as int - '0' as int && 0 < n < 128
    ensures ReadBody(['\\', a, b, c] + rest) == Prepend([n as char], ReadBody(rest))
  {
    var s := ['\\', a, b, c] + rest;
    assert s[1..][0] == a && s[1..][1] == b && s[1..][2] == c;
    assert s[4..] == rest;
  }

  lemma ReadPrintable(c: int, rest: string)
    requires IsPrintable(c)
    ensures ReadBody(EscapePrintable(c) + rest) == Prepend([c as char], ReadBody(rest))
  {
    hide ReadBody;
    if c == '\\' as int { ReadOctalEscape('1', '3', '4', c, rest); }
    else if c == '\'' as int { ReadOctalEscape('0', '4', '7', c, rest); }
    else if c == '%' as int { ReadOctalEscape('0', '4', '5', c, rest); }
    else if c == '_' as int { ReadOctalEscape('1', '3', '7', c, rest); }
    else if c == ':' as int { ReadOctalEscape('0', '7', '2', c, rest); }
    else { ReadOrdinary(c as char, rest); }
  }

  lemma ReadOrdinary(c: char, rest: string)
    requires c != '\\' && c != '\''
    ensures ReadBody([c] + rest) == Prepend([c], ReadBody(rest))
  {
    assert ([c] + rest)[1..] == rest;
  }

  lemma ReadUnicodeEscape(letter: char, c: int, k: nat, rest: string)
    requires IsScalar(c) && c != 0 && ((letter == 'u' && k == 4) || (letter == 'U' && k == 8)) && c < Pow(16, k)
    ensures ReadBody(['\\', letter] + HexDigits(c, k) + rest) == Prepend(Utf8(c), ReadBody(rest))
  {
    hide HexDigits, Utf8, ReadHex;
    var s := ['\\', letter] + HexDigits(c, k) + rest;
    ReadHexDigits(c, k, rest);
    assert s[1..][1..] == HexDigits(c, k) + rest;
    assert s[1 + (k + 1)..] == rest;
  }

  lemma ReadPoint(c: int, rest: string)
    requires IsScalar(c) && c != 0
    ensures ReadBody(EscapePoint(c) + rest) == Prepend(Utf8(c), ReadBody(rest))
  {
    hide ReadBody, EscapePrintable, HexDigits;
    assert Pow(16, 4) == 0x1_0000 && Pow(16, 8) == 0x1_0000_0000;
    if IsPrintable(c) {
      ReadPrintable(c, rest);
    } else if c > 0xFFFF {
      ReadUnicodeEscape('U', c, 8, rest);
    } else {
      ReadUnicodeEscape('u', c, 4, rest);
      assert "" + ("\\u" + HexDigits(c, 4)) == "\\u" + HexDigits(c, 4);
    }
  }

  lemma ReadNul(rest: string)
    ensures ReadBody(EscapePoint(0) + rest) == None
  {
    hide HexDigits, ReadHex;
    var s := "\\u" + HexDigits(0, 4) + rest;
    assert Pow(16, 4) == 0x1_0000;
    ReadHexDigits(0, 4, rest);
    assert s[1..][1..] == HexDigits(0, 4) + rest;
    assert ReadBody(s) == None;
    assert EscapePoint(0) + rest == [' '] + s;
    hide ReadBody;
    ReadOrdinary(' ', s);
  }

  predicate NoNul(cs: seq<int>) {
    forall i | 0 <= i < |cs| :: cs[i] != 0
  }

  lemma {:induction false} ReadPoints(cs: seq<int>)
    requires AllScalars(cs) && NoNul(cs)
    ensures ReadBody(EscapePoints(cs) + "'") == Some(Encode8(cs))
  {
    if cs == [] {
      assert EscapePoints(cs) + "'" == "'";
    } else {
      hide ReadBody, EscapePoint, Utf8;
      ReadPoints(cs[1..]);
      ReadPoint(cs[0], EscapePoints(cs[1..]) + "'");
      assert EscapePoints(cs) + "'" == EscapePoint(cs[0]) + (EscapePoints(cs[1..]) + "'");
    }
  }

  lemma {:induction false} ReadWithNul(cs: seq<int>)
    requires AllScalars(cs) && !NoNul(cs)
    ensures ReadBody(EscapePoints(cs) + "'") == None
  {
    hide ReadBody, EscapePoint, Utf8;
    var rest := EscapePoints(cs[1..]) + "'";
    assert EscapePoints(cs) + "'" == EscapePoint(cs[0]) + rest;
    if cs[0] == 0 {
      ReadNul(rest);
    } else {
      assert !NoNul(cs[1..]) by {
        var i :| 0 <= i < |cs| && cs[i] == 0;
        assert cs[1..][i - 1] == 0;
      }
      ReadWithNul(cs[1..]);
      ReadPoint(cs[0], rest);
    }
  }

  lemma {:induction false} PrintableText(cs: seq<int>)
    requires AllScalars(cs) && AllPrintable(Encode8(cs))
    ensures EscapeBytes(Encode8(cs)) == EscapePoints(cs)
  {
    if cs != [] {
      hide EscapePrintable;
      var text, rest := Encode8(cs), Encode8(cs[1..]);
      assert text[0] == Utf8(cs[0])[0];
      assert IsPrintable(text[0] as int);
      OneByte(cs[0]);
      assert text[1..] == rest && text[0] == cs[0] as char;
      assert AllPrintable(rest) by { assert forall i | 0 <= i < |rest| :: rest[i] == text[i + 1]; }
      PrintableText(cs[1..]);
    }
  }

  lemma OneByte(c: int)
    requires IsScalar(c) && Utf8(c)[0] as int < 0x80
    ensures c < 0x80 && Utf8(c) == [c as char]
  {
  }

  /** Where the fast path applies it writes what the slow path would. */
  lemma FastIsSlow(cs: seq<int>)
    requires AllScalars(cs) && AllPrintable(Encode8(cs))
    ensures EscapeFast(Encode8(cs)) == EscapeSlow(cs)
  {
    PrintableText(cs);
  }

  /** Whatever path is taken, the literal is the slow path's. */
  lemma AlwaysSlow(cs: seq<int>)
    requires AllScalars(cs)
    ensures EscapeSql(cs) == EscapeSlow(cs)
  {
    hide EscapePoints, EscapeBytes;
    if Encode8(cs) == [] {
      assert cs == [];
      EmptyPoints(cs);
      assert "E'" + [] + "'" == "E''";
    } else if AllPrintable(Encode8(cs)) {
      FastIsSlow(cs);
    }
  }

  /** The server reads back exactly the text if it has no NUL, and rejects the literal otherwise. */
  lemma RoundTripIff(cs: seq<int>)
    requires AllScalars(cs)
    ensures NoNul(cs) ==> ReadLiteral(EscapeSql(cs)) == Some(Encode8(cs))
    ensures !NoNul(cs) ==> ReadLiteral(EscapeSql(cs)) == None
  {
    hide EscapePoints, ReadBody, EscapeSql;
    AlwaysSlow(cs);
    assert EscapeSlow(cs)[2..] == EscapePoints(cs) + "'";
    if NoNul(cs) { ReadPoints(cs); } else { ReadWithNul(cs); }
  }

  /** Printable, and none of the characters that mean something to a driver or a pattern, nor a quote. */
  predicate IsHarmless(c: char) {
    IsPrintable(c as int) && c != '\'' && c != '%' && c != '_' && c != ':'
  }

  predicate AllHarmless(s: string) {
    forall i | 0 <= i < |s| :: IsHarmless(s[i])
  }

  lemma {:induction false} HexHarmless(n: nat, k: nat)
    ensures AllHarmless(HexDigits(n, k))
  {
    if k > 0 { HexHarmless(n / 16, k - 1); }
  }

  lemma PointHarmless(c: int)
    requires IsScalar(c)
    ensures AllHarmless(EscapePoint(c))
  {
    hide HexDigits;
    HexHarmless(c, 8);
    HexHarmless(c, 4);
  }

  /** Whatever the text, the literal has no special character between its quotes. */
  lemma {:induction false} LiteralHarmless(cs: seq<int>)
    requires AllScalars(cs)
    ensures AllHarmless(EscapePoints(cs)) && EscapeSql(cs) == "E'" + EscapePoints(cs) + "'"
  {
    hide EscapePoint, EscapeSql;
    AlwaysSlow(cs);
    if cs != [] {
      PointHarmless(cs[0]);
      LiteralHarmless(cs[1..]);
    }
  }

  lemma EmptyPoints(cs: seq<int>)
    requires cs == []
    ensures EscapePoints(cs) == []
  {
  }
}
