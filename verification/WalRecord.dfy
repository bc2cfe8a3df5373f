/** Length-framed records of the write-ahead log: writing them and reading a file of them back. */
module WalRecord {
  import opened Common
  import opened Decimal

  /** Numbers are int32 and lengths uint32, so a record as stored has num >= 0. A char is one byte. */
  datatype Record = Record(num: int, sql: string)

  const MAX_SEQUENCE := 0x7fff_ffff
  const LINE := 28

  predicate Storable(r: Record) {
    0 <= r.num <= MAX_SEQUENCE && |r.sql| < 0x1_0000_0000
  }

  function Spaces(k: nat): string {
    seq(k, _ => ' ')
  }

  /** std::setw(10): right aligned, never cut. */
  function Field(n: nat): string {
    (if |Digits(n)| < 10 then Spaces(10 - |Digits(n)|) else []) + Digits(n)
  }

  function Line(word: string, r: Record): string
    requires r.num >= 0
  {
    word + (" " + Field(r.num) + (" " + Field(|r.sql|)))
  }

  function Encode(r: Record): string
    requires r.num >= 0
  {
    Line("begin", r) + "\n" + r.sql + "\n" + Line("end", r) + "\n\n"
  }

  predicate AllStorable(rs: seq<Record>) {
    forall i | 0 <= i < |rs| :: Storable(rs[i])
  }

  function EncodeAll(rs: seq<Record>): string
    requires AllStorable(rs)
  {
    if rs == [] then [] else Encode(rs[0]) + EncodeAll(rs[1..])
  }

  // ---- Reading, with the rules of std::istringstream ----

  predicate IsSpace(c: char) {
    c == ' ' || '\t' <= c <= '\r'
  }

  function SkipSpace(s: string): (t: string)
    ensures |t| <= |s| && (t != [] ==> !IsSpace(t[0]))
  {
    if s != [] && IsSpace(s[0]) then SkipSpace(s[1..]) else s
  }

  function WordRun(s: string): (k: nat)
    ensures k <= |s|
  {
    if s == [] || IsSpace(s[0]) then 0 else 1 + WordRun(s[1..])
  }

  /** The buffer becomes a C string: everything after a zero byte is invisible. */
  function UpToNul(s: string): string {
    if s == [] || s[0] == '\0' then [] else [s[0]] + UpToNul(s[1..])
  }

  /** `>>` into an integer of the given range; an unsigned target negates modulo 2^32. */
  function Extract(s: string, signed: bool): Option<(int, string)> {
    var t := SkipSpace(s);
    var negative := t != [] && t[0] == '-';
    var body := if t != [] && (t[0] == '-' || t[0] == '+') then t[1..] else t;
    var k := DigitRun(body);
    var v: int := Value(body[..k]);
    if k == 0 then None
    else if signed then
      if v > MAX_SEQUENCE + (if negative then 1 else 0) then None
      else Some((if negative then -v else v, body[k..]))
    else if v >= 0x1_0000_0000 then None
    else Some((if negative then (0x1_0000_0000 - v) % 0x1_0000_0000 else v, body[k..]))
  }

  function ParseLine(word: string, line: string): (r: Option<(int, int)>)
    ensures r.Some? ==> 0 <= r.value.1 < 0x1_0000_0000
  {
    var t := SkipSpace(UpToNul(line));
    var k := WordRun(t);
    if k == 0 || t[..k] != word then None
    else
      match Extract(t[k..], true)
      case None => None
      case Some((num, rest)) =>
        match Extract(rest, false)
        case None => None
        case Some((len, _)) => Some((num, len))
  }

  function ReadBegin(s: string): (r: Option<(int, int)>)
    ensures r.Some? ==> |s| >= LINE && r.value.1 >= 0
  {
    if |s| < LINE || s[LINE - 1] != '\n' then None else ParseLine("begin", s[..LINE - 1])
  }

  predicate EndsRecord(end: string, num: int, len: int) {
    && |end| == LINE && end[0] == '\n' && end[LINE - 2] == '\n' && end[LINE - 1] == '\n'
    && ParseLine("end", end[1..LINE - 2]) == Some((num, len))
  }

  /** One record from the front of the remaining bytes, or None where the source's assertions throw. */
  function ReadRecord(s: string): (r: Option<(Record, string)>)
    ensures r.Some? ==> |r.value.1| < |s|
  {
    match ReadBegin(s)
    case None => None
    case Some((num, len)) =>
      if |s| < LINE + len + LINE || !EndsRecord(s[LINE + len..LINE + len + LINE], num, len) then None
      else Some((Record(num, s[LINE..LINE + len]), s[LINE + len + LINE..]))
  }

  lemma RestIsSuffix(s: string)
    requires ReadRecord(s).Some?
    ensures var rest := ReadRecord(s).value.1; |rest| < |s| && rest == s[|s| - |rest|..]
  {
    hide ReadBegin, EndsRecord;
  }

  /** for_each_record: at least one record is read, then on until the end of the file. */
  function ReadAll(s: string): Option<seq<Record>>
    decreases |s|
  {
    match ReadRecord(s)
    case None => None
    case Some((r, rest)) =>
      if rest == [] then Some([r]) else Prepend([r], ReadAll(rest))
  }

  method ForEachRecord(file: string) returns (records: Option<seq<Record>>)
    ensures records == ReadAll(file)
  {
    hide ReadRecord;
    var pos := 0;
    var found: seq<Record> := [];
    var eof := false;
    assert file[pos..] == file;
    assert forall rs: seq<Record> :: found + rs == rs;
    while !eof
      invariant pos <= |file|
      invariant eof ==> ReadAll(file) == Some(found)
      invariant !eof ==> ReadAll(file) == Prepend(found, ReadAll(file[pos..]))
      decreases |file| - pos, !eof
    {
      var r := ReadRecord(file[pos..]);
      if r.None? {
        return None;
      }
      var rest := r.value.1;
      RestIsSuffix(file[pos..]);
      assert file[|file| - |rest|..] == rest;
      assert forall rs: seq<Record> :: found + ([r.value.0] + rs) == (found + [r.value.0]) + rs;
      found := found + [r.value.0];
      pos := |file| - |rest|;
      eof := pos == |file|;
    }
    return Some(found);
  }

  // ---- Reading back what was written ----

  lemma {:induction false} SkipSpaces(k: nat, rest: string)
    requires rest != [] && !IsSpace(rest[0])
    ensures SkipSpace(Spaces(k) + rest) == rest
  {
    if k == 0 {
      assert Spaces(k) + rest == rest;
    } else {
      assert (Spaces(k) + rest)[1..] == Spaces(k - 1) + rest;
      SkipSpaces(k - 1, rest);
    }
  }

  lemma {:induction false} WordBeforeSpace(word: string, rest: string)
    requires forall i | 0 <= i < |word| :: !IsSpace(word[i])
    requires rest != [] && IsSpace(rest[0])
    ensures WordRun(word + rest) == |word|
  {
    if word == [] {
      assert word + rest == rest;
    } else {
      assert (word + rest)[1..] == word[1..] + rest;
      WordBeforeSpace(word[1..], rest);
    }
  }

  lemma {:induction false} NoNul(s: string)
    requires forall i | 0 <= i < |s| :: s[i] != '\0'
    ensures UpToNul(s) == s
  {
    if s != [] {
      NoNul(s[1..]);
      assert [s[0]] + s[1..] == s;
    }
  }

  lemma FieldShape(n: nat)
    requires n < Pow10(10)
    ensures |Field(n)| == 10 && Field(n) == Spaces(10 - |Digits(n)|) + Digits(n)
    ensures forall i | 0 <= i < 10 :: Field(n)[i] == ' ' || IsDigit(Field(n)[i])
  {
    DigitsWidth(n, 10);
    DigitsValue(n);
    assert Spaces(0) == [];
  }

  lemma ExtractDigits(s: string, n: nat, signed: bool, rest: string)
    requires n <= (if signed then MAX_SEQUENCE else 0xffff_ffff)
    requires rest == [] || !IsDigit(rest[0])
    requires SkipSpace(s) == Digits(n) + rest
    ensures Extract(s, signed) == Some((n, rest))
  {
    DigitsValue(n);
    ReadBack(n, rest);
    assert IsDigit((Digits(n) + rest)[0]);
    hide Digits, SkipSpace, DigitRun, Value;
  }

  lemma ExtractField(n: nat, signed: bool, rest: string)
    requires n <= (if signed then MAX_SEQUENCE else 0xffff_ffff)
    requires rest == [] || !IsDigit(rest[0])
    ensures Extract(" " + Field(n) + rest, signed) == Some((n, rest))
  {
    hide Digits, Field, Extract;
    assert Pow10(10) == 10_000_000_000;
    FieldShape(n);
    DigitsValue(n);
    var k := 11 - |Digits(n)|;
    assert " " + Spaces(k - 1) == Spaces(k);
    assert " " + Field(n) + rest == Spaces(k) + (Digits(n) + rest);
    assert IsDigit(Digits(n)[0]);
    SkipSpaces(k, Digits(n) + rest);
    ExtractDigits(" " + Field(n) + rest, n, signed, rest);
  }

  lemma FieldsShape(r: Record)
    requires Storable(r)
    ensures var fields := " " + Field(r.num) + (" " + Field(|r.sql|));
            |fields| == 22 && forall i | 0 <= i < 22 :: fields[i] == ' ' || IsDigit(fields[i])
  {
    assert Pow10(10) == 10_000_000_000;
    FieldShape(r.num);
    FieldShape(|r.sql|);
    hide Field;
  }

  lemma ParseWrittenLine(word: string, r: Record)
    requires Storable(r)
    requires word != [] && forall i | 0 <= i < |word| :: 'a' <= word[i] <= 'z'
    ensures |Line(word, r)| == |word| + 22
    ensures ParseLine(word, Line(word, r)) == Some((r.num, |r.sql|))
  {
    FieldsShape(r);
    hide Field, Extract, UpToNul, WordRun;
    var line := Line(word, r);
    var tail := " " + Field(|r.sql|);
    var fields := " " + Field(r.num) + tail;
    NoNul(line);
    WordBeforeSpace(word, fields);
    assert line[..|word|] == word && line[|word|..] == fields;
    ExtractField(r.num, true, tail);
    ExtractField(|r.sql|, false, []);
    assert tail + [] == tail;
  }

  lemma EncodeShape(r: Record)
    requires Storable(r)
    ensures |Line("begin", r)| == LINE - 1 && |Line("end", r)| == LINE - 3
    ensures |Encode(r)| == LINE + |r.sql| + LINE
  {
    hide Line;
    ParseWrittenLine("begin", r);
    ParseWrittenLine("end", r);
  }

  lemma BeginOfWritten(r: Record, s: string)
    requires Storable(r) && |s| >= LINE && s[..LINE] == Line("begin", r) + "\n"
    ensures ReadBegin(s) == Some((r.num, |r.sql|))
  {
    hide Line, ParseLine;
    EncodeShape(r);
    ParseWrittenLine("begin", r);
    assert s[..LINE][..LINE - 1] == s[..LINE - 1] == Line("begin", r);
    assert s[..LINE][LINE - 1] == '\n';
  }

  lemma EndOfWritten(r: Record)
    requires Storable(r)
    ensures EndsRecord("\n" + Line("end", r) + "\n\n", r.num, |r.sql|)
  {
    hide Line, ParseLine;
    EncodeShape(r);
    ParseWrittenLine("end", r);
    var end := "\n" + Line("end", r) + "\n\n";
    assert end[1..LINE - 2] == Line("end", r);
  }

  lemma ReadWritten(r: Record, rest: string)
    requires Storable(r)
    ensures ReadRecord(Encode(r) + rest) == Some((r, rest))
  {
    hide Line, ReadBegin, EndsRecord;
    var s := Encode(r) + rest;
    var len := |r.sql|;
    EncodeShape(r);
    var begin, end := Line("begin", r) + "\n", "\n" + Line("end", r) + "\n\n";
    assert s == begin + r.sql + end + rest;
    assert s[..LINE] == begin;
    assert s[LINE..LINE + len] == r.sql;
    assert s[LINE + len..LINE + len + LINE] == end;
    assert s[LINE + len + LINE..] == rest;
    BeginOfWritten(r, s);
    EndOfWritten(r);
  }

  /** A proper prefix of a record is never taken for a record. */
  lemma TornRecord(r: Record, n: nat)
    requires Storable(r) && n < |Encode(r)|
    ensures ReadRecord(Encode(r)[..n]) == None
  {
    hide Line, ReadBegin, EndsRecord, Encode;
    EncodeShape(r);
    if n < LINE {
      TooShort(Encode(r)[..n]);
    } else {
      TornBegin(r, n);
      BeginOfWritten(r, Encode(r)[..n]);
    }
  }

  lemma TooShort(s: string)
    requires |s| < LINE
    ensures ReadBegin(s) == None
  {
  }

  /** A cut after the first line leaves that line whole. */
  lemma TornBegin(r: Record, n: nat)
    requires Storable(r) && LINE <= n <= |Encode(r)|
    ensures Encode(r)[..n][..LINE] == Line("begin", r) + "\n"
  {
    hide Line;
    EncodeShape(r);
    var begin := Line("begin", r) + "\n";
    assert Encode(r)[..n][..LINE] == Encode(r)[..LINE];
    assert Encode(r)[..LINE] == begin;
  }

  /** Any non-empty list of records is read back exactly, whatever bytes its SQL texts hold. */
  lemma {:induction false} RoundTrip(rs: seq<Record>)
    requires rs != [] && AllStorable(rs)
    ensures ReadAll(EncodeAll(rs)) == Some(rs)
  {
    hide ReadRecord, Encode;
    ReadWritten(rs[0], EncodeAll(rs[1..]));
    if |rs| == 1 {
      assert EncodeAll(rs[1..]) == [] && rs == [rs[0]];
    } else {
      EncodeShape(rs[1]);
      RoundTrip(rs[1..]);
      assert [rs[0]] + rs[1..] == rs;
    }
  }

  /** The file was cut after exactly k records. */
  ghost predicate CutAfter(rs: seq<Record>, n: nat, k: nat)
    requires AllStorable(rs)
  {
    0 < k <= |rs| && n == |EncodeAll(rs[..k])|
  }

  lemma CutLength(rs: seq<Record>, k: nat)
    requires AllStorable(rs) && 0 < k <= |rs|
    ensures |EncodeAll(rs[..k])| == |Encode(rs[0])| + |EncodeAll(rs[1..][..k - 1])|
    ensures rs[..k] == [rs[0]] + rs[1..][..k - 1]
    ensures |EncodeAll(rs[..k])| > 0 && (k > 1 ==> |EncodeAll(rs[1..][..k - 1])| > 0)
  {
    EncodeShape(rs[0]);
    if k > 1 { EncodeShape(rs[1..][..k - 1][0]); }
    hide Encode;
    assert rs[..k][1..] == rs[1..][..k - 1] && rs[..k][0] == rs[0];
  }

  /** Cutting the rest of the file after k records cuts the file after k + 1. */
  lemma CutShift(rs: seq<Record>, n: nat, m: nat)
    requires AllStorable(rs) && rs != [] && n == |Encode(rs[0])| + m
    ensures m == 0 ==> forall k: nat :: CutAfter(rs, n, k) <==> k == 1
    ensures m > 0 ==> forall k: nat :: CutAfter(rs, n, k + 1) <==> CutAfter(rs[1..], m, k)
    ensures forall k: nat | 0 < k <= |rs| :: rs[..k] == [rs[0]] + rs[1..][..k - 1]
    ensures m > 0 ==> !CutAfter(rs, n, 0)
  {
    forall k: nat | 0 < k <= |rs|
      ensures |EncodeAll(rs[..k])| == |Encode(rs[0])| + |EncodeAll(rs[1..][..k - 1])|
      ensures rs[..k] == [rs[0]] + rs[1..][..k - 1]
      ensures k > 1 ==> |EncodeAll(rs[1..][..k - 1])| > 0
    {
      CutLength(rs, k);
    }
    assert EncodeAll(rs[1..][..0]) == [];
  }

  /**
   * A non-empty prefix of a log file is accepted exactly when it ends on a record boundary, and
   * then yields exactly the complete records.
   */
  lemma {:induction false} Truncation(rs: seq<Record>, n: nat)
    requires AllStorable(rs) && 0 < n <= |EncodeAll(rs)|
    ensures ReadAll(EncodeAll(rs)[..n]).Some? <==> exists k: nat :: CutAfter(rs, n, k)
    ensures forall k: nat | CutAfter(rs, n, k) :: ReadAll(EncodeAll(rs)[..n]) == Some(rs[..k])
  {
    hide ReadRecord, Encode;
    var first, rest := Encode(rs[0]), EncodeAll(rs[1..]);
    EncodeShape(rs[0]);
    if n < |first| {
      assert (first + rest)[..n] == first[..n];
      TornRecord(rs[0], n);
      forall k: nat ensures !CutAfter(rs, n, k) {
        if 0 < k <= |rs| { CutLength(rs, k); }
      }
    } else {
      var m := n - |first|;
      assert (first + rest)[..n] == first + rest[..m];
      ReadWritten(rs[0], rest[..m]);
      CutShift(rs, n, m);
      if m == 0 {
        assert CutAfter(rs, n, 1) && rs[..1] == [rs[0]];
      } else {
        Truncation(rs[1..], m);
        if k: nat :| CutAfter(rs[1..], m, k) {
          assert CutAfter(rs, n, k + 1);
        }
      }
    }
  }
}
