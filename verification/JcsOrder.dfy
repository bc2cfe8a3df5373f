/** What makes the JSON text canonical: the order of the members, the choice of escapes and the form of numbers. */
module JcsOrder {
  import opened Common
  import opened Jcs
  import opened Lexicographic
  import opened Utf
  import Decimal
  import Hex
  import Sorting

  // ---- The order of two keys ----

  /** The first unit in which a and b differ is smaller in a, or a ends where b goes on. */
  ghost predicate FirstDifference(a: seq<int>, b: seq<int>, k: nat) {
    && k <= |a| && k <= |b| && a[..k] == b[..k]
    && (if k == |a| then k < |b| else k < |b| && a[k] < b[k])
  }

  ghost predicate UnitsAscend(a: seq<int>, b: seq<int>) {
    exists k: nat :: FirstDifference(a, b, k)
  }

  lemma {:induction false} LexAscends(a: seq<int>, b: seq<int>)
    ensures LexLess(UnitLess, a, b) <==> UnitsAscend(a, b)
    decreases |a|
  {
    if a != [] && b != [] && a[0] == b[0] {
      LexAscends(a[1..], b[1..]);
      assert a == [a[0]] + a[1..] && b == [b[0]] + b[1..];
      if UnitsAscend(a[1..], b[1..]) {
        var k: nat :| FirstDifference(a[1..], b[1..], k);
        assert a[..k + 1] == [a[0]] + a[1..][..k] && b[..k + 1] == [b[0]] + b[1..][..k];
        assert FirstDifference(a, b, k + 1);
      }
      if UnitsAscend(a, b) {
        var k: nat :| FirstDifference(a, b, k);
        assert a[1..][..k - 1] == a[..k][1..] && b[1..][..k - 1] == b[..k][1..];
        assert FirstDifference(a[1..], b[1..], k - 1);
      }
    } else {
      FirstUnits(a, b);
    }
  }

  /** Where one is empty or the first units differ. */
  lemma FirstUnits(a: seq<int>, b: seq<int>)
    requires a == [] || b == [] || a[0] != b[0]
    ensures UnitsAscend(a, b) <==> b != [] && (a == [] || a[0] < b[0])
  {
    if UnitsAscend(a, b) {
      var k: nat :| FirstDifference(a, b, k);
    }
    if b != [] && (a == [] || a[0] < b[0]) {
      assert FirstDifference(a, b, 0);
    }
  }

  /** Section 3.2.3 of RFC 8785: keys are compared as sequences of UTF-16 code units, as unsigned numbers. */
  lemma KeyOrder(cs: seq<int>, ds: seq<int>)
    requires AllScalars(cs) && AllScalars(ds)
    ensures KeyLess(Encode8(cs), Encode8(ds)) <==> UnitsAscend(Encode16(cs), Encode16(ds))
  {
    hide ToUtf16, Encode8, Encode16, UnitsAscend;
    DecodesUtf16(cs);
    DecodesUtf16(ds);
    LexAscends(Encode16(cs), Encode16(ds));
  }

  // ---- The members of a text ----

  /** The keys of an object's members as they follow each other in the text, from after its brace on. */
  function MemberKeys(s: string): Option<seq<string>>
    decreases |s|
  {
    if s == [] || s[0] != '"' then None
    else
      match ReadString(s[1..])
      case None => None
      case Some((key, colon)) =>
        if colon == [] || colon[0] != ':' then None
        else
          match Parse(colon[1..])
          case None => None
          case Some((_, rest)) =>
            if rest == [] then None
            else if rest[0] == '}' then Some([key])
            else if rest[0] != ',' then None
            else
              match MemberKeys(rest[1..])
              case None => None
              case Some(keys) => Some([key] + keys)
  }

  function Keys(es: seq<Entry>): seq<string> {
    if es == [] then [] else [es[0].key] + Keys(es[1..])
  }

  lemma {:induction false} KeysAt(es: seq<Entry>, i: nat)
    requires i < |es|
    ensures |Keys(es)| == |es| && Keys(es)[i] == es[i].key
  {
    if |es| > 1 { KeysAt(es[1..], if i > 0 then i - 1 else 0); }
  }

  lemma {:induction false} KeysRead(v: Json, es: seq<Entry>, rest: string)
    requires v.Object? && WellFormed(v) && es != [] && (forall x | x in es :: x in v.entries) && CanonEntries(es).Some?
    ensures MemberKeys(Join(MemberTexts(CanonEntries(es).value)) + ("}" + rest)) == Some(Keys(es))
    decreases |es|
  {
    hide Parse, Canon, Denote, Join, ReadString, Quoted, ValidUtf8;
    var ms := CanonEntries(es).value;
    assert es[0] in es && es[0] in v.entries;
    var j :| 0 <= j < |v.entries| && v.entries[j] == es[0];
    var e := v.entries[j];
    assert WellFormed(e.value) && AllBytes(e.key);
    CanonEntriesAt(es, 0);
    assert ms[1..] == (if |es| == 1 then [] else CanonEntries(es[1..]).value);
    var texts := MemberTexts(ms);
    JoinFirst(texts, "}" + rest);
    var after := if |es| == 1 then "}" + rest else "," + (Join(texts[1..]) + ("}" + rest));
    RoundTrip(e.value, after);
    MemberReads(ms[0], after);
    assert Join(texts) + ("}" + rest) == MemberText(ms[0]) + after by { AllTexts(ms); }
    OneMember(e.key, ms[0].text, Denote(e.value), after, Join(texts) + ("}" + rest));
    if |es| > 1 {
      KeysRead(v, es[1..], rest);
      assert after[1..] == Join(texts[1..]) + ("}" + rest);
    } else {
      assert es[1..] == [] && [e.key] + [] == [e.key];
    }
  }

  lemma {:induction false} AllTexts(ms: seq<Member>)
    ensures |MemberTexts(ms)| == |ms| && (ms != [] ==> MemberTexts(ms)[0] == MemberText(ms[0]))
  {
    hide Quoted;
    if ms != [] { AllTexts(ms[1..]); }
  }

  lemma OneMember(key: string, text: string, m: Meaning, after: string, s: string)
    requires s != [] && s[0] == '"' && ReadString(s[1..]) == Some((key, ":" + (text + after)))
    requires Parse(text + after) == Some((m, after)) && after != []
    ensures after[0] == '}' ==> MemberKeys(s) == Some([key])
    ensures after[0] == ',' ==>
            MemberKeys(s) == match MemberKeys(after[1..]) case None => None case Some(keys) => Some([key] + keys)
  {
    hide Parse, ReadString;
    assert (":" + (text + after))[1..] == text + after;
  }

  /** Both are valid UTF-8, and the code points of a come before those of b in UTF-16. */
  ghost predicate KeysAscend(a: string, b: string) {
    && ValidUtf8(a) && ValidUtf8(b)
    && forall cs, ds | AllScalars(cs) && AllScalars(ds) && Encode8(cs) == a && Encode8(ds) == b ::
         UnitsAscend(Encode16(cs), Encode16(ds))
  }

  lemma LessAscends(a: string, b: string)
    requires ValidUtf8(a) && ValidUtf8(b) && KeyLess(a, b)
    ensures KeysAscend(a, b)
  {
    hide KeyLess, ValidUtf8, UnitsAscend, Encode16, Encode8;
    forall cs, ds | AllScalars(cs) && AllScalars(ds) && Encode8(cs) == a && Encode8(ds) == b
      ensures UnitsAscend(Encode16(cs), Encode16(ds))
    {
      KeyOrder(cs, ds);
    }
  }

  lemma SortedKeys(es: seq<Entry>)
    requires ValidKeys(es)
    ensures Sorting.Increasing(EntryLess, Sorting.Sort(EntryLess, es))
  {
    hide KeyLess, ValidUtf8;
    EntriesStrict();
    forall i, j | 0 <= i < j < |es| ensures EntryLess(es[i], es[j]) || EntryLess(es[j], es[i]) {
      KeysComparable(es[i].key, es[j].key);
    }
    Sorting.SortIncreasing(EntryLess, es);
  }

  /**
   * In the text of every accepted object a reader that keeps the order of the members finds each key
   * of the object once, in ascending order of UTF-16 code units.
   */
  lemma MembersAscend(v: Json, rest: string) returns (keys: seq<string>)
    requires v.Object? && v.entries != [] && Canon(v).Some? && WellFormed(v)
    ensures var s := Canon(v).value + rest; s != [] && s[0] == '{' && MemberKeys(s[1..]) == Some(keys)
    ensures |keys| == |v.entries| && (forall e | e in v.entries :: e.key in keys)
    ensures forall i, j | 0 <= i < j < |keys| :: KeysAscend(keys[i], keys[j])
  {
    hide MemberKeys, Join, MemberTexts, Sorting.Sort, KeysAscend, KeyLess, ValidUtf8;
    var es, s := Sorting.Sort(EntryLess, v.entries), Canon(v).value + rest;
    SortCommutes(v.entries);
    SortedMembers(v.entries);
    KeysRead(v, es, rest);
    assert s[1..] == Join(MemberTexts(CanonEntries(es).value)) + ("}" + rest);
    keys := Keys(es);
    EntriesWellFormed(v);
    SortedKeys(v.entries);
    forall i | 0 <= i < |es| ensures |keys| == |es| && keys[i] == es[i].key && ValidUtf8(keys[i]) {
      KeysAt(es, i);
      assert es[i] in es && es[i] in v.entries;
    }
    forall i, j | 0 <= i < j < |keys| ensures KeysAscend(keys[i], keys[j]) {
      assert EntryLess(es[i], es[j]);
      LessAscends(keys[i], keys[j]);
    }
    forall e | e in v.entries ensures e.key in keys {
      Sorting.SortPermutes(EntryLess, v.entries);
      Sorting.InMultiset(es, e);
      Sorting.InMultiset(v.entries, e);
      var i :| 0 <= i < |es| && es[i] == e;
      assert keys[i] == e.key;
    }
  }

  // ---- The choice of escapes ----

  predicate NoUpperCase(s: string) {
    forall i | 0 <= i < |s| :: !('A' <= s[i] <= 'F')
  }

  /**
   * Section 3.2.2.2 of RFC 8785: a byte is written in the shortest way in which it can be read, and in
   * lower case where only a hexadecimal escape is left.
   */
  lemma EscapeIsShortest(c: char, e: string)
    requires IsByte(c) && e != [] && e[0] != '"' && ReadChar(e) == Some((c, |e|))
    ensures |EscapeChar(c)| <= |e|
    ensures |EscapeChar(c)| == |e| && (|e| > 1 ==> NoUpperCase(e)) ==> e == EscapeChar(c)
  {
    if |e| == 6 {
      HexPair(e[4], e[5], c);
    }
  }

  lemma HexPair(h: char, l: char, c: char)
    requires 0 <= Hex.Value(h as int) < 8 && 0 <= Hex.Value(l as int)
    requires c == (Hex.Value(h as int) * 16 + Hex.Value(l as int)) as char
    ensures c as int / 16 == Hex.Value(h as int) && c as int % 16 == Hex.Value(l as int)
    ensures !('A' <= h <= 'F') ==> h == Hex.Digit(c as int / 16)
    ensures !('A' <= l <= 'F') ==> l == Hex.Digit(c as int % 16)
  {
  }

  // ---- The form of numbers ----

  /** An integer is written without leading zeros and without a sign unless it is negative: the only such text. */
  lemma NumberIsShortest(n: int, s: string)
    requires ParseNumber(s) == Some((MNumber(n), []))
    ensures |Number(n)| <= |s|
    ensures |Number(n)| == |s| ==> s == Number(n)
  {
    hide Decimal.Digits, Decimal.DigitRun, Decimal.Value;
    var negative := s[0] == '-';
    var body := if negative then s[1..] else s;
    assert Decimal.DigitRun(body) == |body| && body[..|body|] == body;
    Decimal.DigitsShortest(body);
    if negative { assert s == "-" + body; }
  }
}
