/** Canonical JSON text of a value: RFC 8785 restricted to integers within the safe range. A char is one byte. */
module Jcs {
  import opened Common
  import opened Lexicographic
  import opened Utf
  import Decimal
  import Hex
  import Sorting

  datatype Json =
    | Null
    | Boolean(b: bool)
    | Int64(n: int)
    | Uint64(n: int)
    | Double
    | Other  // any other kind of variant
    | Text(s: string)
    | Array(items: seq<Json>)
    | Object(entries: seq<Entry>)

  datatype Entry = Entry(key: string, value: Json)

  /** An entry whose value has been written. */
  datatype Member = Member(key: string, text: string)

  const MAX_SAFE := 9007199254740991

  // ---- Writing ----

  predicate IsByte(c: char) {
    c as int < 256
  }

  predicate AllBytes(s: string) {
    forall i | 0 <= i < |s| :: IsByte(s[i])
  }

  function EscapeChar(c: char): string {
    if c == '"' then ['\\', '"']
    else if c == '\\' then ['\\', '\\']
    else if c as int == 8 then ['\\', 'b']
    else if c as int == 12 then ['\\', 'f']
    else if c as int == 10 then ['\\', 'n']
    else if c as int == 13 then ['\\', 'r']
    else if c as int == 9 then ['\\', 't']
    else if c as int < 0x20 then ['\\', 'u', '0', '0', Hex.Digit(c as int / 16), Hex.Digit(c as int % 16)]
    else [c]
  }

  function Escape(s: string): string {
    if s == [] then [] else EscapeChar(s[0]) + Escape(s[1..])
  }

  function Quoted(s: string): string {
    "\"" + (Escape(s) + "\"")
  }

  /** std::to_string of a signed number. */
  function Number(n: int): string {
    if n < 0 then "-" + Decimal.Digits(-n) else Decimal.Digits(n)
  }

  predicate UnitLess(m: int, n: int) {
    m < n
  }

  predicate KeyLess(a: string, b: string) {
    LexLess(UnitLess, ToUtf16(a), ToUtf16(b))
  }

  predicate EntryLess(a: Entry, b: Entry) {
    KeyLess(a.key, b.key)
  }

  predicate MemberLess(a: Member, b: Member) {
    KeyLess(a.key, b.key)
  }

  function Join(parts: seq<string>): string {
    if parts == [] then [] else if |parts| == 1 then parts[0] else parts[0] + ("," + Join(parts[1..]))
  }

  function MemberText(m: Member): string {
    Quoted(m.key) + (":" + m.text)
  }

  function MemberTexts(ms: seq<Member>): seq<string> {
    if ms == [] then [] else [MemberText(ms[0])] + MemberTexts(ms[1..])
  }

  /** jcs_canonicalize; None where it throws. */
  function Canon(v: Json): Option<string>
    decreases v
  {
    match v
    case Null => Some("null")
    case Boolean(b) => Some(if b then "true" else "false")
    case Int64(n) => if -MAX_SAFE <= n <= MAX_SAFE then Some(Number(n)) else None
    case Uint64(n) => if 0 <= n <= MAX_SAFE then Some(Number(n)) else None
    case Double => None
    case Other => None
    case Text(s) => Some(Quoted(s))
    case Array(items) =>
      (match CanonItems(items)
       case None => None
       case Some(parts) => Some("[" + (Join(parts) + "]")))
    case Object(entries) =>
      (match CanonEntries(entries)
       case None => None
       case Some(ms) => Some("{" + (Join(MemberTexts(Sorting.Sort(MemberLess, ms))) + "}")))
  }

  function CanonItems(items: seq<Json>): (r: Option<seq<string>>)
    ensures r.Some? ==> |r.value| == |items|
    decreases items
  {
    if items == [] then Some([])
    else
      match (Canon(items[0]), CanonItems(items[1..]))
      case (Some(first), Some(rest)) => Some([first] + rest)
      case _ => None
  }

  function CanonEntries(entries: seq<Entry>): (r: Option<seq<Member>>)
    ensures r.Some? ==> |r.value| == |entries|
    decreases entries
  {
    if entries == [] then Some([])
    else
      match (Canon(entries[0].value), CanonEntries(entries[1..]))
      case (Some(text), Some(rest)) => Some([Member(entries[0].key, text)] + rest)
      case _ => None
  }

  // ---- Meaning ----

  /** What a JSON text says: numbers are integers, objects are maps. */
  datatype Meaning =
    | MNull
    | MBoolean(b: bool)
    | MNumber(n: int)
    | MText(s: string)
    | MArray(items: seq<Meaning>)
    | MObject(members: map<string, Meaning>)

  function Denote(v: Json): Meaning
    decreases v
  {
    match v
    case Null => MNull
    case Boolean(b) => MBoolean(b)
    case Int64(n) => MNumber(n)
    case Uint64(n) => MNumber(n)
    case Double => MNull
    case Other => MNull
    case Text(s) => MText(s)
    case Array(items) => MArray(DenoteItems(items))
    case Object(entries) => MObject(DenoteEntries(entries))
  }

  function DenoteItems(items: seq<Json>): (r: seq<Meaning>)
    ensures |r| == |items|
    decreases items
  {
    if items == [] then [] else [Denote(items[0])] + DenoteItems(items[1..])
  }

  function DenoteEntries(entries: seq<Entry>): map<string, Meaning>
    decreases entries
  {
    if entries == [] then map[] else DenoteEntries(entries[1..])[entries[0].key := Denote(entries[0].value)]
  }

  /** Strings of bytes, and in every object keys that are valid UTF-8 and all different. */
  ghost predicate WellFormed(v: Json)
    decreases v
  {
    match v
    case Text(s) => AllBytes(s)
    case Array(items) => forall i | 0 <= i < |items| :: WellFormed(items[i])
    case Object(entries) =>
      && DistinctKeys(entries)
      && forall i | 0 <= i < |entries| :: AllBytes(entries[i].key) && ValidUtf8(entries[i].key)
          && WellFormed(entries[i].value)
    case _ => true
  }

  predicate DistinctKeys(entries: seq<Entry>) {
    forall i, j | 0 <= i < j < |entries| :: entries[i].key != entries[j].key
  }

  // ---- Reading ----

  /** One character of a string after the opening quote, and how many bytes it took. */
  function ReadChar(s: string): Option<(char, nat)>
    requires s != []
  {
    if s[0] != '\\' then (if s[0] as int < 0x20 then None else Some((s[0], 1)))
    else if |s| < 2 then None
    else if s[1] == '"' || s[1] == '\\' then Some((s[1], 2))
    else if s[1] == 'b' then Some((8 as char, 2))
    else if s[1] == 'f' then Some((12 as char, 2))
    else if s[1] == 'n' then Some((10 as char, 2))
    else if s[1] == 'r' then Some((13 as char, 2))
    else if s[1] == 't' then Some((9 as char, 2))
    else if s[1] == 'u' && |s| >= 6 && s[2] == '0' && s[3] == '0' then
      var high, low := Hex.Value(s[4] as int), Hex.Value(s[5] as int);
      if 0 <= high < 8 && 0 <= low then Some(((high * 16 + low) as char, 6)) else None
    else None
  }

  function ReadString(s: string): (r: Option<(string, string)>)
    ensures r.Some? ==> |r.value.1| < |s|
    decreases |s|
  {
    if s == [] then None
    else if s[0] == '"' then Some(([], s[1..]))
    else
      match ReadChar(s)
      case None => None
      case Some((c, k)) =>
        if k > |s| then None
        else
          match ReadString(s[k..])
          case None => None
          case Some((t, rest)) => Some(([c] + t, rest))
  }

  predicate StartsWith(s: string, word: string) {
    |word| <= |s| && s[..|word|] == word
  }

  function Parse(s: string): (r: Option<(Meaning, string)>)
    ensures r.Some? ==> |r.value.1| < |s|
    decreases |s|, 2
  {
    if s == [] then None
    else if StartsWith(s, "null") then Some((MNull, s[4..]))
    else if StartsWith(s, "true") then Some((MBoolean(true), s[4..]))
    else if StartsWith(s, "false") then Some((MBoolean(false), s[5..]))
    else if s[0] == '"' then
      match ReadString(s[1..])
      case None => None
      case Some((t, rest)) => Some((MText(t), rest))
    else if s[0] == '[' then
      if StartsWith(s, "[]") then Some((MArray([]), s[2..]))
      else
        match ParseItems(s[1..])
        case None => None
        case Some((ms, rest)) => Some((MArray(ms), rest))
    else if s[0] == '{' then
      if StartsWith(s, "{}") then Some((MObject(map[]), s[2..]))
      else
        match ParseMembers(s[1..])
        case None => None
        case Some((ms, rest)) => Some((MObject(ms), rest))
    else ParseNumber(s)
  }

  function ParseNumber(s: string): (r: Option<(Meaning, string)>)
    ensures r.Some? ==> |r.value.1| < |s|
  {
    var negative := s != [] && s[0] == '-';
    var body := if negative then s[1..] else s;
    var k := Decimal.DigitRun(body);
    if k == 0 then None
    else
      var n: int := Decimal.Value(body[..k]);
      Some((MNumber(if negative then -n else n), body[k..]))
  }

  function ParseItems(s: string): (r: Option<(seq<Meaning>, string)>)
    ensures r.Some? ==> |r.value.1| < |s|
    decreases |s|, 3
  {
    match Parse(s)
    case None => None
    case Some((m, rest)) =>
      if rest == [] then None
      else if rest[0] == ']' then Some(([m], rest[1..]))
      else if rest[0] != ',' then None
      else
        match ParseItems(rest[1..])
        case None => None
        case Some((ms, after)) => Some(([m] + ms, after))
  }

  function ParseMembers(s: string): (r: Option<(map<string, Meaning>, string)>)
    ensures r.Some? ==> |r.value.1| < |s|
    decreases |s|, 3
  {
    if s == [] || s[0] != '"' then None
    else
      match ReadString(s[1..])
      case None => None
      case Some((key, colon)) =>
        if colon == [] || colon[0] != ':' then None
        else
          match Parse(colon[1..])
          case None => None
          case Some((m, rest)) =>
            if rest == [] then None
            else if rest[0] == '}' then Some((map[key := m], rest[1..]))
            else if rest[0] != ',' then None
            else
              match ParseMembers(rest[1..])
              case None => None
              case Some((ms, after)) => Some((ms[key := m], after))
  }

  // ---- Strings are read back ----

  lemma ReadEscapedChar(c: char, rest: string)
    requires IsByte(c)
    ensures var e := EscapeChar(c); |e| > 0 && e[0] != '"' && ReadChar(e + rest) == Some((c, |e|))
  {
    var e := EscapeChar(c);
    var s := e + rest;
    assert forall i | 0 <= i < |e| :: s[i] == e[i];
    if c as int < 0x20 {
      Hex.Back(c as int / 16);
      Hex.Back(c as int % 16);
    }
  }

  lemma {:induction false} ReadEscaped(t: string, rest: string)
    requires AllBytes(t)
    ensures ReadString(Escape(t) + ("\"" + rest)) == Some((t, rest))
  {
    hide EscapeChar, ReadChar;
    var s := Escape(t) + ("\"" + rest);
    if t == [] {
      assert s == "\"" + rest;
      assert s[1..] == rest;
    } else {
      var e, more := EscapeChar(t[0]), Escape(t[1..]) + ("\"" + rest);
      assert s == e + more;
      ReadEscapedChar(t[0], more);
      ReadEscaped(t[1..], rest);
      assert s[|e|..] == more;
      assert [t[0]] + t[1..] == t;
    }
  }

  lemma ReadQuoted(t: string, rest: string)
    requires AllBytes(t)
    ensures var s := Quoted(t) + rest; s != [] && s[0] == '"' && ReadString(s[1..]) == Some((t, rest))
  {
    hide ReadString, Escape;
    ReadEscaped(t, rest);
    assert (Quoted(t) + rest)[1..] == Escape(t) + ("\"" + rest);
  }

  // ---- Numbers are read back ----

  predicate EndsNumber(rest: string) {
    rest == [] || !Decimal.IsDigit(rest[0])
  }

  lemma ReadNumber(n: int, rest: string)
    requires EndsNumber(rest)
    ensures var s := Number(n) + rest;
            s != [] && (s[0] == '-' || Decimal.IsDigit(s[0])) && ParseNumber(s) == Some((MNumber(n), rest))
  {
    hide Decimal.Digits, Decimal.DigitRun, Decimal.Value;
    assert rest == [] || !Decimal.IsDigit(rest[0]);
    var s := Number(n) + rest;
    var m := if n < 0 then -n else n;
    Decimal.DigitsValue(m);
    Decimal.ReadBack(m, rest);
    var body := Decimal.Digits(m) + rest;
    assert Decimal.IsDigit(body[0]);
    if n < 0 {
      assert s[1..] == body;
    } else {
      assert s == body;
    }
  }

  /** The first byte decides how a text is read. */
  lemma Dispatch(s: string)
    requires s != []
    ensures s[0] == '"' ==>
            Parse(s) == match ReadString(s[1..]) case None => None case Some((t, rest)) => Some((MText(t), rest))
    ensures s[0] == '-' || Decimal.IsDigit(s[0]) ==> Parse(s) == ParseNumber(s)
    ensures s[0] == '[' && !StartsWith(s, "[]") ==>
            Parse(s) == match ParseItems(s[1..]) case None => None case Some((ms, rest)) => Some((MArray(ms), rest))
    ensures s[0] == '{' && !StartsWith(s, "{}") ==>
            Parse(s) == match ParseMembers(s[1..]) case None => None case Some((ms, rest)) => Some((MObject(ms), rest))
  {
    hide ReadString, ParseNumber, ParseItems, ParseMembers;
    assert StartsWith(s, "null") ==> s[..4][0] == 'n';
    assert StartsWith(s, "true") ==> s[..4][0] == 't';
    assert StartsWith(s, "false") ==> s[..5][0] == 'f';
  }

  lemma ReadWord(word: string, rest: string)
    requires word == "null" || word == "true" || word == "false" || word == "[]" || word == "{}"
    ensures var m := if word == "null" then MNull
                     else if word == "[]" then MArray([])
                     else if word == "{}" then MObject(map[])
                     else MBoolean(word == "true");
            Parse(word + rest) == Some((m, rest))
  {
    hide ReadString, ParseNumber, ParseItems, ParseMembers;
    var s := word + rest;
    assert s[..|word|] == word && s[|word|..] == rest && s[0] == word[0];
    assert StartsWith(s, "null") ==> s[..4][0] == 'n';
    assert StartsWith(s, "true") ==> s[..4][0] == 't';
    assert StartsWith(s, "false") ==> s[..5][0] == 'f';
  }

  // ---- Values are read back ----

  lemma {:induction false} InsertCommutes(e: Entry, es: seq<Entry>)
    requires Canon(e.value).Some? && CanonEntries(es).Some?
    ensures CanonEntries(Sorting.Insert(EntryLess, e, es))
         == Some(Sorting.Insert(MemberLess, Member(e.key, Canon(e.value).value), CanonEntries(es).value))
  {
    hide Canon, KeyLess;
    var all := Sorting.Insert(EntryLess, e, es);
    if es != [] && !EntryLess(e, es[0]) {
      InsertCommutes(e, es[1..]);
      assert all[1..] == Sorting.Insert(EntryLess, e, es[1..]);
      assert CanonEntries(es).value[1..] == CanonEntries(es[1..]).value;
    } else {
      assert all[1..] == es;
    }
  }

  /** Sorting before or after writing the values is the same. */
  lemma {:induction false} SortCommutes(entries: seq<Entry>)
    requires CanonEntries(entries).Some?
    ensures CanonEntries(Sorting.Sort(EntryLess, entries))
            == Some(Sorting.Sort(MemberLess, CanonEntries(entries).value))
  {
    hide Canon, KeyLess;
    if entries != [] {
      SortCommutes(entries[1..]);
      InsertCommutes(entries[0], Sorting.Sort(EntryLess, entries[1..]));
      assert CanonEntries(entries).value[1..] == CanonEntries(entries[1..]).value;
    }
  }

  lemma {:induction false} InsertDenotes(e: Entry, es: seq<Entry>)
    requires forall x | x in es :: x.key != e.key
    ensures DenoteEntries(Sorting.Insert(EntryLess, e, es)) == DenoteEntries(es)[e.key := Denote(e.value)]
  {
    hide Denote, KeyLess;
    var all := Sorting.Insert(EntryLess, e, es);
    if es != [] && !EntryLess(e, es[0]) {
      InsertDenotes(e, es[1..]);
      assert all[1..] == Sorting.Insert(EntryLess, e, es[1..]) && all[0] == es[0];
    } else {
      assert all[1..] == es;
    }
  }

  /** The order of the entries does not matter to what an object means. */
  lemma {:induction false} SortDenotes(entries: seq<Entry>)
    requires DistinctKeys(entries)
    ensures DenoteEntries(Sorting.Sort(EntryLess, entries)) == DenoteEntries(entries)
  {
    hide Denote, KeyLess;
    if entries != [] {
      var sorted := Sorting.Sort(EntryLess, entries[1..]);
      SortDenotes(entries[1..]);
      Sorting.SortPermutes(EntryLess, entries[1..]);
      forall x | x in sorted ensures x.key != entries[0].key {
        Sorting.InMultiset(sorted, x);
        Sorting.InMultiset(entries[1..], x);
        var i :| 0 <= i < |entries[1..]| && entries[1..][i] == x;
        assert entries[i + 1] == x;
      }
      InsertDenotes(entries[0], sorted);
    }
  }

  /** Any accepted value is read back from its canonical text, whatever follows. */
  lemma {:induction false} RoundTrip(v: Json, rest: string)
    requires Canon(v).Some? && WellFormed(v) && EndsNumber(rest)
    ensures Parse(Canon(v).value + rest) == Some((Denote(v), rest))
    decreases v, 2, 0
  {
    hide Parse, ParseNumber, ReadString, Quoted, Number, Join, MemberTexts, CanonItems, CanonEntries, Sorting.Sort;
    var s := Canon(v).value + rest;
    match v
    case Null => ReadWord("null", rest);
    case Boolean(b) => ReadWord(if b then "true" else "false", rest);
    case Int64(n) =>
      ReadNumber(n, rest);
      Dispatch(s);
    case Uint64(n) =>
      ReadNumber(n, rest);
      Dispatch(s);
    case Text(t) =>
      ReadQuoted(t, rest);
      Dispatch(s);
    case Array(items) => RoundTripArray(v, rest);
    case Object(entries) => RoundTripObject(v, rest);
  }

  lemma {:induction false} RoundTripArray(v: Json, rest: string)
    requires v.Array? && Canon(v).Some? && WellFormed(v)
    ensures Parse(Canon(v).value + rest) == Some((Denote(v), rest))
    decreases v, 1, 0
  {
    hide Parse, ParseItems, Join;
    var items, s := v.items, Canon(v).value + rest;
    if items == [] {
      EmptyJoin();
      assert "[" + ([] + "]") == "[]";
      ReadWord("[]", rest);
    } else {
      RoundTripItems(v, items, rest);
      assert s[1..] == Join(CanonItems(items).value) + ("]" + rest);
      ItemsBegin(s[1..]);
      StartsNot(s, "[]", 1);
      Dispatch(s);
    }
  }

  lemma {:induction false} RoundTripObject(v: Json, rest: string)
    requires v.Object? && Canon(v).Some? && WellFormed(v)
    ensures Parse(Canon(v).value + rest) == Some((Denote(v), rest))
    decreases v, 1, 0
  {
    hide Parse, ParseMembers, Join, MemberTexts, Sorting.Sort;
    var entries, s := v.entries, Canon(v).value + rest;
    SortCommutes(entries);
    SortDenotes(entries);
    SortedMembers(entries);
    var es := Sorting.Sort(EntryLess, entries);
    if entries == [] {
      EmptyJoin();
      assert es == [] && "{" + ([] + "}") == "{}";
      ReadWord("{}", rest);
    } else {
      RoundTripMembers(v, es, rest);
      assert s[1..] == Join(MemberTexts(CanonEntries(es).value)) + ("}" + rest);
      MembersBegin(s[1..]);
      StartsNot(s, "{}", 1);
      Dispatch(s);
    }
  }

  lemma StartsNot(s: string, word: string, i: nat)
    requires i < |s| && i < |word| && s[i] != word[i]
    ensures !StartsWith(s, word)
  {
    if |word| <= |s| { assert s[..|word|][i] == s[i]; }
  }

  lemma ItemsBegin(s: string)
    requires ParseItems(s).Some?
    ensures s != [] && s[0] != ']'
  {
    hide ReadString, ParseMembers;
    assert s != [] && s[0] == ']' ==> Decimal.DigitRun(s) == 0;
    if s != [] {
      assert StartsWith(s, "null") ==> s[..4][0] == 'n';
      assert StartsWith(s, "true") ==> s[..4][0] == 't';
      assert StartsWith(s, "false") ==> s[..5][0] == 'f';
    }
  }

  lemma MembersBegin(s: string)
    requires ParseMembers(s).Some?
    ensures s != [] && s[0] == '"'
  {
    hide ReadString, Parse;
  }

  lemma EmptyJoin()
    ensures Join([]) == [] && MemberTexts([]) == []
  {
  }

  lemma SortedMembers(entries: seq<Entry>)
    ensures |Sorting.Sort(EntryLess, entries)| == |entries|
    ensures forall e | e in Sorting.Sort(EntryLess, entries) :: e in entries
  {
    var es := Sorting.Sort(EntryLess, entries);
    Sorting.SortPermutes(EntryLess, entries);
    assert |es| == |multiset(es)| == |multiset(entries)| == |entries|;
    forall e | e in es ensures e in entries {
      Sorting.InMultiset(es, e);
      Sorting.InMultiset(entries, e);
    }
  }

  lemma JoinFirst(parts: seq<string>, tail: string)
    requires parts != []
    ensures |parts| == 1 ==> Join(parts) + tail == parts[0] + tail
    ensures |parts| > 1 ==> Join(parts) + tail == parts[0] + ("," + (Join(parts[1..]) + tail))
  {
    if |parts| > 1 { Reassociate(parts[0], ",", Join(parts[1..]), tail); }
  }

  lemma Reassociate(a: string, b: string, c: string, d: string)
    ensures a + (b + c) + d == a + (b + (c + d))
  {
  }

  lemma {:induction false} RoundTripItems(v: Json, items: seq<Json>, rest: string)
    requires v.Array? && WellFormed(v) && items != [] && (forall x | x in items :: x in v.items)
            && CanonItems(items).Some?
    ensures ParseItems(Join(CanonItems(items).value) + ("]" + rest)) == Some((DenoteItems(items), rest))
    decreases v, 0, |items|
  {
    hide Parse, Canon, Join;
    var parts := CanonItems(items).value;
    assert items[0] in items && items[0] in v.items;
    var j :| 0 <= j < |v.items| && v.items[j] == items[0];
    assert parts[0] == Canon(items[0]).value && WellFormed(v.items[j]);
    JoinFirst(parts, "]" + rest);
    if |items| == 1 {
      RoundTrip(v.items[j], "]" + rest);
      assert items[1..] == [] && [Denote(items[0])] + [] == [Denote(items[0])];
      assert ("]" + rest)[1..] == rest;
    } else {
      assert parts[1..] == CanonItems(items[1..]).value;
      var more := "," + (Join(parts[1..]) + ("]" + rest));
      RoundTrip(v.items[j], more);
      RoundTripItems(v, items[1..], rest);
      assert more[1..] == Join(parts[1..]) + ("]" + rest);
    }
  }

  lemma {:induction false} RoundTripMembers(v: Json, es: seq<Entry>, rest: string)
    requires v.Object? && WellFormed(v) && es != [] && (forall x | x in es :: x in v.entries) && CanonEntries(es).Some?
    ensures ParseMembers(Join(MemberTexts(CanonEntries(es).value)) + ("}" + rest)) == Some((DenoteEntries(es), rest))
    decreases v, 0, |es|
  {
    hide Parse, Canon, Join, ReadString, Quoted;
    var ms := CanonEntries(es).value;
    assert es[0] in es && es[0] in v.entries;
    var j :| 0 <= j < |v.entries| && v.entries[j] == es[0];
    var e := v.entries[j];
    assert WellFormed(e.value) && AllBytes(e.key);
    assert ms[0] == Member(e.key, Canon(e.value).value)
        && ms[1..] == (if |es| == 1 then [] else CanonEntries(es[1..]).value);
    var texts := MemberTexts(ms);
    JoinFirst(texts, "}" + rest);
    var after := if |es| == 1 then "}" + rest else "," + (Join(texts[1..]) + ("}" + rest));
    RoundTrip(e.value, after);
    MemberReads(ms[0], after);
    if |es| > 1 {
      RoundTripMembers(v, es[1..], rest);
      assert after[1..] == Join(texts[1..]) + ("}" + rest);
    } else {
      assert after[1..] == rest;
    }
  }

  /** The text of a member begins with its key and a colon. */
  lemma MemberReads(m: Member, after: string)
    requires AllBytes(m.key)
    ensures var s := MemberText(m) + after;
            && s != [] && s[0] == '"' && ReadString(s[1..]) == Some((m.key, ":" + (m.text + after)))
  {
    hide ReadString, Quoted;
    assert MemberText(m) + after == Quoted(m.key) + (":" + (m.text + after));
    ReadQuoted(m.key, ":" + (m.text + after));
  }

  // ---- One text for one meaning ----

  lemma UnitsTotal()
    ensures Total(UnitLess)
  {
  }

  lemma MembersStrict()
    ensures Sorting.StrictOrder(MemberLess)
  {
    hide ToUtf16;
    UnitsTotal();
    forall a, b | MemberLess(a, b) ensures !MemberLess(b, a) {
      LexAsymmetric(UnitLess, ToUtf16(a.key), ToUtf16(b.key));
    }
    forall a, b, c | MemberLess(a, b) && MemberLess(b, c) ensures MemberLess(a, c) {
      LexTransitive(UnitLess, ToUtf16(a.key), ToUtf16(b.key), ToUtf16(c.key));
    }
  }

  /** Different valid keys are ordered one way or the other. */
  lemma KeysComparable(a: string, b: string)
    requires ValidUtf8(a) && ValidUtf8(b) && a != b
    ensures KeyLess(a, b) || KeyLess(b, a)
  {
    hide ToUtf16, ValidUtf8;
    UnitsTotal();
    if ToUtf16(a) == ToUtf16(b) { Injective(a, b); }
    LexTotal(UnitLess, ToUtf16(a), ToUtf16(b));
  }

  lemma {:induction false} CanonEntriesAt(es: seq<Entry>, i: nat)
    requires CanonEntries(es).Some? && i < |es|
    ensures Canon(es[i].value).Some? && CanonEntries(es).value[i] == Member(es[i].key, Canon(es[i].value).value)
  {
    hide Canon;
    if i > 0 { CanonEntriesAt(es[1..], i - 1); }
  }

  lemma {:induction false} DenoteEntriesAt(es: seq<Entry>, i: nat)
    requires DistinctKeys(es) && i < |es|
    ensures es[i].key in DenoteEntries(es) && DenoteEntries(es)[es[i].key] == Denote(es[i].value)
  {
    hide Denote;
    if i > 0 {
      DenoteEntriesAt(es[1..], i - 1);
      assert es[0].key != es[i].key;
    }
  }

  lemma {:induction false} KeyFrom(es: seq<Entry>, key: string) returns (i: nat)
    requires key in DenoteEntries(es)
    ensures i < |es| && es[i].key == key
  {
    hide Denote;
    if es[0].key == key {
      i := 0;
    } else {
      i := KeyFrom(es[1..], key);
      i := i + 1;
    }
  }

  ghost predicate ValidKeys(es: seq<Entry>) {
    DistinctKeys(es) && forall i | 0 <= i < |es| :: ValidUtf8(es[i].key)
  }

  lemma MembersSorted(es: seq<Entry>)
    requires ValidKeys(es) && CanonEntries(es).Some?
    ensures var ms := CanonEntries(es).value; var sorted := Sorting.Sort(MemberLess, ms);
            && Sorting.Increasing(MemberLess, sorted)
            && (forall m | m in sorted :: m in ms) && (forall m | m in ms :: m in sorted)
  {
    hide KeyLess, Canon, ValidUtf8;
    var ms := CanonEntries(es).value;
    MembersStrict();
    forall i, j | 0 <= i < j < |ms| ensures MemberLess(ms[i], ms[j]) || MemberLess(ms[j], ms[i]) {
      CanonEntriesAt(es, i);
      CanonEntriesAt(es, j);
      KeysComparable(es[i].key, es[j].key);
    }
    Sorting.SortIncreasing(MemberLess, ms);
    Sorting.SortPermutes(MemberLess, ms);
    SameMembers(Sorting.Sort(MemberLess, ms), ms);
  }

  lemma EntriesStrict()
    ensures Sorting.StrictOrder(EntryLess)
  {
    hide ToUtf16;
    UnitsTotal();
    forall a, b | EntryLess(a, b) ensures !EntryLess(b, a) {
      LexAsymmetric(UnitLess, ToUtf16(a.key), ToUtf16(b.key));
    }
    forall a, b, c | EntryLess(a, b) && EntryLess(b, c) ensures EntryLess(a, c) {
      LexTransitive(UnitLess, ToUtf16(a.key), ToUtf16(b.key), ToUtf16(c.key));
    }
  }

  /** With different valid keys there are no ties: whatever std::sort does, it arrives at this order. */
  lemma SortIsForced(es: seq<Entry>, arranged: seq<Entry>)
    requires ValidKeys(es) && multiset(arranged) == multiset(es) && Sorting.Arranged(EntryLess, arranged)
    ensures arranged == Sorting.Sort(EntryLess, es)
  {
    hide KeyLess, ValidUtf8;
    EntriesStrict();
    forall i, j | 0 <= i < j < |es| ensures EntryLess(es[i], es[j]) || EntryLess(es[j], es[i]) {
      KeysComparable(es[i].key, es[j].key);
    }
    Sorting.ArrangementUnique(EntryLess, es, arranged);
  }

  lemma SameMembers(a: seq<Member>, b: seq<Member>)
    requires multiset(a) == multiset(b)
    ensures (forall m | m in a :: m in b) && (forall m | m in b :: m in a)
  {
    forall m | m in a ensures m in b { Sorting.InMultiset(a, m); Sorting.InMultiset(b, m); }
    forall m | m in b ensures m in a { Sorting.InMultiset(a, m); Sorting.InMultiset(b, m); }
  }

  /** Equal meanings are written the same way, whatever the order of entries and the tags of numbers. */
  lemma {:induction false} SameText(v: Json, w: Json)
    requires Canon(v).Some? && Canon(w).Some? && WellFormed(v) && WellFormed(w) && Denote(v) == Denote(w)
    ensures Canon(v) == Canon(w)
    decreases v, 2, 0
  {
    hide Sorting.Sort, Join, MemberTexts, Number, Quoted, CanonEntries, CanonItems, DenoteEntries, DenoteItems;
    if v.Array? && w.Array? {
      SameItems(v, v.items, w.items) by {
        assert forall x | x in v.items :: x in v.items;
        ItemsWellFormed(v);
        ItemsWellFormed(w);
        ItemsAccepted(v);
        ItemsAccepted(w);
      }
    } else if v.Object? && w.Object? {
      EntriesWellFormed(v);
      EntriesWellFormed(w);
      SameMembersWritten(v, w);
      MembersStrict();
      MembersSorted(v.entries);
      MembersSorted(w.entries);
      Sorting.SameElements(MemberLess,
                           Sorting.Sort(MemberLess, CanonEntries(v.entries).value),
                           Sorting.Sort(MemberLess, CanonEntries(w.entries).value));
    }
  }

  lemma ItemsWellFormed(v: Json)
    requires v.Array? && WellFormed(v)
    ensures forall x | x in v.items :: WellFormed(x)
  {
  }

  lemma ItemsAccepted(v: Json)
    requires v.Array? && Canon(v).Some?
    ensures CanonItems(v.items).Some?
  {
  }

  lemma EntriesWellFormed(v: Json)
    requires v.Object? && WellFormed(v) && Canon(v).Some?
    ensures ValidKeys(v.entries) && CanonEntries(v.entries).Some?
    ensures forall i | 0 <= i < |v.entries| :: WellFormed(v.entries[i].value)
  {
    hide ValidUtf8;
  }

  lemma {:induction false} SameItems(v: Json, xs: seq<Json>, ys: seq<Json>)
    requires v.Array? && (forall x | x in xs :: x in v.items && WellFormed(x)) && (forall y | y in ys :: WellFormed(y))
    requires CanonItems(xs).Some? && CanonItems(ys).Some? && DenoteItems(xs) == DenoteItems(ys)
    ensures CanonItems(xs) == CanonItems(ys)
    decreases v, 0, |xs|
  {
    hide Canon, Denote, WellFormed;
    if xs != [] && ys != [] {
      assert xs[0] in xs && ys[0] in ys;
      assert DenoteItems(xs)[0] == Denote(xs[0]) && DenoteItems(ys)[0] == Denote(ys[0]);
      assert DenoteItems(xs)[1..] == DenoteItems(xs[1..]) && DenoteItems(ys)[1..] == DenoteItems(ys[1..]);
      var j :| 0 <= j < |v.items| && v.items[j] == xs[0];
      SameText(v.items[j], ys[0]);
      SameItems(v, xs[1..], ys[1..]);
    }
  }

  /** The written members of v and of w are the same. */
  lemma {:induction false} SameMembersWritten(v: Json, w: Json)
    requires v.Object? && w.Object? && WellFormed(v) && WellFormed(w) && Canon(v).Some? && Canon(w).Some?
            && Denote(v) == Denote(w)
    ensures CanonEntries(v.entries).Some? && CanonEntries(w.entries).Some?
    ensures forall m | m in CanonEntries(v.entries).value :: m in CanonEntries(w.entries).value
    ensures forall m | m in CanonEntries(w.entries).value :: m in CanonEntries(v.entries).value
    decreases v, 1, 0
  {
    hide ValidUtf8, Sorting.Sort, Join, MemberTexts;
    EntriesWellFormed(v);
    EntriesWellFormed(w);
    var es, fs := v.entries, w.entries;
    var ms, ns := CanonEntries(es).value, CanonEntries(fs).value;
    forall m | m in ms ensures m in ns {
      var i :| 0 <= i < |ms| && ms[i] == m;
      DenoteEntriesAt(es, i);
      var j := KeyFrom(fs, es[i].key);
      SameMember(v, w, i, j);
    }
    forall m | m in ns ensures m in ms {
      var j :| 0 <= j < |ns| && ns[j] == m;
      DenoteEntriesAt(fs, j);
      var i := KeyFrom(es, fs[j].key);
      SameMember(v, w, i, j);
    }
  }

  lemma {:induction false} SameMember(v: Json, w: Json, i: nat, j: nat)
    requires v.Object? && w.Object? && WellFormed(v) && WellFormed(w) && Denote(v) == Denote(w)
    requires CanonEntries(v.entries).Some? && CanonEntries(w.entries).Some?
    requires i < |v.entries| && j < |w.entries| && v.entries[i].key == w.entries[j].key
    ensures CanonEntries(v.entries).value[i] == CanonEntries(w.entries).value[j]
    decreases v, 0, 0
  {
    hide ValidUtf8, Canon, DenoteEntries;
    CanonEntriesAt(v.entries, i);
    DenoteEntriesAt(v.entries, i);
    CanonEntriesAt(w.entries, j);
    DenoteEntriesAt(w.entries, j);
    SameText(v.entries[i].value, w.entries[j].value);
  }

  /** Two accepted values have the same canonical text exactly when they mean the same. */
  lemma CanonicalIff(v: Json, w: Json)
    requires Canon(v).Some? && Canon(w).Some? && WellFormed(v) && WellFormed(w)
    ensures Canon(v) == Canon(w) <==> Denote(v) == Denote(w)
  {
    hide Canon, Denote, WellFormed, Parse;
    RoundTrip(v, []);
    RoundTrip(w, []);
    if Denote(v) == Denote(w) { SameText(v, w); }
  }

  /** Only JSON kinds of values, no floating point number anywhere, and every integer within the safe range. */
  ghost predicate Acceptable(v: Json)
    decreases v
  {
    match v
    case Int64(n) => -0x20_0000_0000_0000 < n < 0x20_0000_0000_0000
    case Uint64(n) => 0 <= n < 0x20_0000_0000_0000
    case Double => false
    case Other => false
    case Array(items) => forall i | 0 <= i < |items| :: Acceptable(items[i])
    case Object(entries) => forall i | 0 <= i < |entries| :: Acceptable(entries[i].value)
    case _ => true
  }

  lemma {:induction false} AcceptedIff(v: Json)
    ensures Canon(v).Some? <==> Acceptable(v)
    decreases v, 1, 0
  {
    hide Sorting.Sort, Join, MemberTexts;
    if v.Array? {
      ItemsAcceptedIff(v, v.items);
    } else if v.Object? {
      EntriesAcceptedIff(v, v.entries);
    }
  }

  lemma {:induction false} ItemsAcceptedIff(v: Json, items: seq<Json>)
    requires v.Array? && forall x | x in items :: x in v.items
    ensures CanonItems(items).Some? <==> forall i | 0 <= i < |items| :: Acceptable(items[i])
    decreases v, 0, |items|
  {
    hide Canon, Acceptable;
    if items != [] {
      assert items[0] in items && items[0] in v.items;
      var j :| 0 <= j < |v.items| && v.items[j] == items[0];
      AcceptedIff(v.items[j]);
      ItemsAcceptedIff(v, items[1..]);
      assert forall i | 0 < i < |items| :: items[i] == items[1..][i - 1];
    }
  }

  lemma {:induction false} EntriesAcceptedIff(v: Json, es: seq<Entry>)
    requires v.Object? && forall e | e in es :: e in v.entries
    ensures CanonEntries(es).Some? <==> forall i | 0 <= i < |es| :: Acceptable(es[i].value)
    decreases v, 0, |es|
  {
    hide Canon, Acceptable;
    if es != [] {
      assert es[0] in es && es[0] in v.entries;
      var j :| 0 <= j < |v.entries| && v.entries[j] == es[0];
      AcceptedIff(v.entries[j].value);
      EntriesAcceptedIff(v, es[1..]);
      assert forall i | 0 < i < |es| :: es[i] == es[1..][i - 1];
    }
  }

  // ---- The writer, appending to one output string ----

  method AppendJsonString(out: string, s: string) returns (out': string)
    ensures out' == out + Quoted(s)
  {
    hide EscapeChar;
    out' := out + "\"";
    assert s[0..] == s;
    for i := 0 to |s|
      invariant out' + Escape(s[i..]) == out + "\"" + Escape(s)
    {
      assert s[i..][0] == s[i] && s[i..][1..] == s[i + 1..];
      assert out' + (EscapeChar(s[i]) + Escape(s[i + 1..])) == out' + EscapeChar(s[i]) + Escape(s[i + 1..]);
      out' := out' + EscapeChar(s[i]);
    }
    assert s[|s|..] == [] && out' + [] == out';
    assert out + "\"" + Escape(s) + "\"" == out + ("\"" + (Escape(s) + "\""));
    out' := out' + "\"";
  }

  lemma {:induction false} JoinAppend(parts: seq<string>, t: string)
    ensures Join(parts + [t]) == if parts == [] then t else Join(parts) + "," + t
  {
    if |parts| > 1 {
      JoinAppend(parts[1..], t);
      assert (parts + [t])[1..] == parts[1..] + [t];
      assert parts[0] + ("," + (Join(parts[1..]) + "," + t)) == parts[0] + ("," + Join(parts[1..])) + "," + t;
    } else if |parts| == 1 {
      assert (parts + [t])[1..] == [t];
      assert parts[0] + ("," + t) == parts[0] + "," + t;
    } else {
      assert parts + [t] == [t];
    }
  }

  /** What the loops append for one more part. */
  lemma Appended(prefix: string, parts: seq<string>, t: string)
    ensures parts == [] ==> prefix + Join(parts) + t == prefix + Join(parts + [t])
    ensures parts != [] ==> prefix + Join(parts) + "," + t == prefix + Join(parts + [t])
  {
    hide Join;
    EmptyJoin();
    JoinAppend(parts, t);
    if parts != [] { assert prefix + Join(parts) + "," + t == prefix + (Join(parts) + "," + t); }
  }

  lemma Closed(out: string, open: string, body: string, close: string)
    ensures out + open + body + close == out + (open + (body + close))
  {
  }

  lemma {:induction false} MemberTextsAppend(ms: seq<Member>, m: Member)
    ensures MemberTexts(ms + [m]) == MemberTexts(ms) + [MemberText(m)] && |MemberTexts(ms)| == |ms|
  {
    if ms == [] {
      assert ms + [m] == [m];
    } else {
      assert (ms + [m])[1..] == ms[1..] + [m];
      MemberTextsAppend(ms[1..], m);
    }
  }

  lemma {:induction false} ItemsWritten(items: seq<Json>, parts: seq<string>)
    requires |parts| == |items| && forall j | 0 <= j < |items| :: Canon(items[j]) == Some(parts[j])
    ensures CanonItems(items) == Some(parts)
  {
    hide Canon;
    if items != [] {
      assert forall j | 0 <= j < |items[1..]| :: items[1..][j] == items[j + 1] && parts[1..][j] == parts[j + 1];
      ItemsWritten(items[1..], parts[1..]);
      assert parts == [parts[0]] + parts[1..];
    }
  }

  lemma {:induction false} ItemFails(items: seq<Json>, i: nat)
    requires i < |items| && Canon(items[i]).None?
    ensures CanonItems(items).None?
  {
    hide Canon;
    if i > 0 { ItemFails(items[1..], i - 1); }
  }

  lemma {:induction false} EntriesWritten(es: seq<Entry>, ms: seq<Member>)
    requires |ms| == |es|
    requires forall j | 0 <= j < |es| :: ms[j].key == es[j].key && Canon(es[j].value) == Some(ms[j].text)
    ensures CanonEntries(es) == Some(ms)
  {
    hide Canon;
    if es != [] {
      assert forall j | 0 <= j < |es[1..]| :: es[1..][j] == es[j + 1] && ms[1..][j] == ms[j + 1];
      EntriesWritten(es[1..], ms[1..]);
      assert ms == [ms[0]] + ms[1..];
    }
  }

  lemma {:induction false} EntriesComplete(es: seq<Entry>)
    ensures CanonEntries(es).Some? <==> forall e | e in es :: Canon(e.value).Some?
  {
    hide Canon;
    if es != [] {
      EntriesComplete(es[1..]);
      assert es == [es[0]] + es[1..];
      assert es[0] in es;
    }
  }

  lemma SortedComplete(entries: seq<Entry>)
    ensures CanonEntries(entries).Some? <==> CanonEntries(Sorting.Sort(EntryLess, entries)).Some?
  {
    hide Canon, CanonEntries;
    var es := Sorting.Sort(EntryLess, entries);
    EntriesComplete(entries);
    EntriesComplete(es);
    Sorting.SortPermutes(EntryLess, entries);
    forall e ensures e in es <==> e in entries {
      Sorting.InMultiset(es, e);
      Sorting.InMultiset(entries, e);
    }
  }

  /** The whole writer: false where the source throws. */
  method Canonicalize(v: Json, out: string) returns (ok: bool, out': string)
    ensures ok <==> Canon(v).Some?
    ensures ok ==> out' == out + Canon(v).value
    decreases v, 1
  {
    hide Number, Quoted, Join, MemberTexts, Sorting.Sort;
    ok, out' := true, out;
    match v
    case Null => out' := out + "null";
    case Boolean(b) => out' := out + (if b then "true" else "false");
    case Int64(n) =>
      if n < -MAX_SAFE || n > MAX_SAFE { return false, out; }
      out' := out + Number(n);
    case Uint64(n) =>
      if n < 0 || n > MAX_SAFE { return false, out; }
      out' := out + Number(n);
    case Double => return false, out;
    case Other => return false, out;
    case Text(s) => out' := AppendJsonString(out, s);
    case Array(items) => ok, out' := WriteArray(v, out);
    case Object(entries) => ok, out' := WriteObject(v, out);
  }

  method WriteArray(v: Json, out: string) returns (ok: bool, out': string)
    requires v.Array?
    ensures ok <==> Canon(v).Some?
    ensures ok ==> out' == out + Canon(v).value
    decreases v, 0
  {
    hide Join, Sorting.Sort, MemberTexts, CanonItems;
    var items := v.items;
    out' := out + "[";
    ghost var parts: seq<string> := [];
    EmptyJoin();
    assert out' + [] == out';
    for i := 0 to |items|
      invariant |parts| == i && forall j | 0 <= j < i :: Canon(items[j]) == Some(parts[j])
      invariant out' == out + "[" + Join(parts)
    {
      if i != 0 { out' := out' + ","; }
      ok, out' := Canonicalize(items[i], out');
      if !ok {
        ItemFails(items, i);
        return;
      }
      Appended(out + "[", parts, Canon(items[i]).value);
      parts := parts + [Canon(items[i]).value];
    }
    ItemsWritten(items, parts);
    Closed(out, "[", Join(parts), "]");
    ok, out' := true, out' + "]";
  }

  method WriteObject(v: Json, out: string) returns (ok: bool, out': string)
    requires v.Object?
    ensures ok <==> Canon(v).Some?
    ensures ok ==> out' == out + Canon(v).value
    decreases v, 0
  {
    hide Join, Sorting.Sort, MemberTexts, CanonEntries, Quoted;
    var es := Sorting.Sort(EntryLess, v.entries);
    SortedMembers(v.entries);
    SortedComplete(v.entries);
    out' := out + "{";
    ghost var ms: seq<Member> := [];
    EmptyJoin();
    assert out' + [] == out';
    for i := 0 to |es|
      invariant |ms| == i && forall j | 0 <= j < i :: ms[j].key == es[j].key && Canon(es[j].value) == Some(ms[j].text)
      invariant out' == out + "{" + Join(MemberTexts(ms))
    {
      if i != 0 { out' := out' + ","; }
      ghost var before := out';
      out' := AppendJsonString(out', es[i].key);
      out' := out' + ":";
      assert es[i] in v.entries;
      ghost var k :| 0 <= k < |v.entries| && v.entries[k] == es[i];
      ok, out' := Canonicalize(es[i].value, out');
      if !ok {
        EntriesComplete(es);
        return;
      }
      ghost var m := Member(es[i].key, Canon(es[i].value).value);
      MemberTextsAppend(ms, m);
      Appended(out + "{", MemberTexts(ms), MemberText(m));
      Closed(before, Quoted(m.key), ":", m.text);
      ms := ms + [m];
    }
    EntriesWritten(es, ms);
    SortCommutes(v.entries);
    Closed(out, "{", Join(MemberTexts(ms)), "}");
    ok, out' := true, out' + "}";
  }
}
