/** The Gregorian date and time of a 32-bit second count, and its 19 character text. */
module CivilDate {
  import opened Common
  import opened Lexicographic
  import Decimal

  datatype Civil = Civil(year: int, month: int, day: int, hour: int, minute: int, second: int)

  const DAY := 86400

  predicate IsCount(t: int) {
    0 <= t < 0x1_0000_0000
  }

  // ---- The conversion ----

  function YearOfEra(doe: nat): int {
    (doe - doe / 1460 + doe / 36524 - doe / 146096) / 365
  }

  /** Days of an era before its k-th year, which begins in March. */
  function YearStart(k: int): int {
    365 * k + k / 4 - k / 100
  }

  function MonthOfYear(doy: nat): int {
    (5 * doy + 2) / 153
  }

  function MonthStart(mp: int): int {
    (153 * mp + 2) / 5
  }

  function ToCivil(t: nat): Civil {
    var z := t / DAY + 719468;
    var era := z / 146097;
    var doe := z - era * 146097;
    var yoe := YearOfEra(doe);
    var y := yoe + era * 400;
    var doy := doe - YearStart(yoe);
    var mp := if doy >= 0 then MonthOfYear(doy) else 0;
    var d := doy - MonthStart(mp) + 1;
    var m := mp + (if mp < 10 then 3 else -9);
    var sec := t % DAY;
    Civil(y + (if m <= 2 then 1 else 0), m, d, sec / 3600, sec % 3600 / 60, sec % 3600 % 60)
  }

  // ---- The calendar ----

  predicate IsLeap(y: int) {
    y % 4 == 0 && (y % 100 != 0 || y % 400 == 0)
  }

  function MonthDays(y: int, m: int): int {
    if m == 2 then (if IsLeap(y) then 29 else 28)
    else if m == 4 || m == 6 || m == 9 || m == 11 then 30
    else 31
  }

  function YearDays(y: int): int {
    if IsLeap(y) then 366 else 365
  }

  /** Days from the first day of 1970 to the first day of year y. */
  function DaysBeforeYear(y: int): int {
    if y <= 1970 then 0 else DaysBeforeYear(y - 1) + YearDays(y - 1)
  }

  function DaysBeforeMonth(y: int, m: int): int {
    if m <= 1 then 0 else DaysBeforeMonth(y, m - 1) + MonthDays(y, m - 1)
  }

  function DayNumber(y: int, m: int, d: int): int {
    DaysBeforeYear(y) + DaysBeforeMonth(y, m) + d - 1
  }

  predicate Valid(c: Civil) {
    && 1970 <= c.year && 1 <= c.month <= 12 && 1 <= c.day <= MonthDays(c.year, c.month)
    && 0 <= c.hour < 24 && 0 <= c.minute < 60 && 0 <= c.second < 60
  }

  function Seconds(c: Civil): int {
    DayNumber(c.year, c.month, c.day) * DAY + c.hour * 3600 + c.minute * 60 + c.second
  }

  // ---- Years ----

  /** Every day of an era is century c, leap cycle a, year b of the cycle and day doy of that year. */
  lemma EraSplit(doe: nat) returns (c: int, a: int, b: int, doy: int)
    requires doe < 146097
    ensures 0 <= c <= 3 && 0 <= a <= 24 && 0 <= b <= 3 && 0 <= doy <= 365
    ensures doe == 36524 * c + 1461 * a + 365 * b + doy
    ensures doy == 365 ==> b == 3 && (a == 24 ==> c == 3)
  {
    c := if doe / 36524 < 3 then doe / 36524 else 3;
    var r := doe - 36524 * c;
    a := if r / 1461 < 24 then r / 1461 else 24;
    var s := r - 1461 * a;
    b := if s / 365 < 3 then s / 365 else 3;
    doy := s - 365 * b;
  }

  lemma EraQuotients(c: int, a: int, b: int, doy: int) returns (e: int)
    requires 0 <= c <= 3 && 0 <= a <= 24 && 0 <= b <= 3 && 0 <= doy <= 365
    requires doy == 365 ==> b == 3 && (a == 24 ==> c == 3)
    ensures e == if 24 * c + a + 365 * b + doy >= 1460 then 1 else 0
    ensures var doe := 36524 * c + 1461 * a + 365 * b + doy;
            doe / 1460 == 25 * c + a + e && doe / 36524 == c + doe / 146096
  {
    var doe := 36524 * c + 1461 * a + 365 * b + doy;
    e := if 24 * c + a + 365 * b + doy >= 1460 then 1 else 0;
    assert doe / 1460 == 25 * c + a + e by { Quotients(doe, 25 * c + a + e); }
    var last := if c == 3 && a == 24 && doy == 365 then 1 else 0;
    Quotients(doe, c + last);
    Quotients(doe, last);
  }

  lemma YearFound(c: int, a: int, b: int, doy: int)
    requires 0 <= c <= 3 && 0 <= a <= 24 && 0 <= b <= 3 && 0 <= doy <= 365
    requires doy == 365 ==> b == 3 && (a == 24 ==> c == 3)
    ensures var doe := 36524 * c + 1461 * a + 365 * b + doy;
            YearOfEra(doe) == 100 * c + 4 * a + b && YearStart(100 * c + 4 * a + b) == doe - doy
  {
    hide YearOfEra, YearStart;
    var e := EraQuotients(c, a, b, doy);
    YearOfEraIs(36524 * c + 1461 * a + 365 * b + doy, 100 * c + 4 * a + b);
    YearStartIs(c, a, b);
  }

  lemma YearOfEraIs(doe: nat, k: int)
    requires 365 * k <= doe - doe / 1460 + doe / 36524 - doe / 146096 < 365 * k + 365
    ensures YearOfEra(doe) == k
  {
  }

  lemma YearStartIs(c: int, a: int, b: int)
    requires 0 <= a <= 24 && 0 <= b <= 3
    ensures YearStart(100 * c + 4 * a + b) == 36524 * c + 1461 * a + 365 * b
  {
    var k := 100 * c + 4 * a + b;
    Quarters(k, 25 * c + a);
    Hundreds(k, c);
  }

  lemma Quarters(x: int, q: int)
    requires 4 * q <= x < 4 * q + 4
    ensures x / 4 == q
  {
  }

  lemma Hundreds(x: int, q: int)
    requires 100 * q <= x < 100 * q + 100
    ensures x / 100 == q
  {
  }

  lemma Quotients(x: int, q: int)
    ensures 1460 * q <= x < 1460 * q + 1460 ==> x / 1460 == q
    ensures 36524 * q <= x < 36524 * q + 36524 ==> x / 36524 == q
    ensures 146096 * q <= x < 146096 * q + 146096 ==> x / 146096 == q
  {
  }

  function Leaps(y: int): int {
    y / 4 - y / 100 + y / 400
  }

  lemma Steps(y: int)
    ensures y / 4 - (y - 1) / 4 == if y % 4 == 0 then 1 else 0
    ensures y / 100 - (y - 1) / 100 == if y % 100 == 0 then 1 else 0
    ensures y / 400 - (y - 1) / 400 == if y % 400 == 0 then 1 else 0
  {
  }

  lemma Multiples(y: int)
    ensures y % 400 == 0 ==> y % 100 == 0
    ensures y % 100 == 0 ==> y % 4 == 0
  {
    if y % 400 == 0 { Hundreds(y, 4 * (y / 400)); }
    if y % 100 == 0 { Quarters(y, 25 * (y / 100)); }
  }

  lemma LeapCount(y: int)
    ensures Leaps(y) - Leaps(y - 1) == if IsLeap(y) then 1 else 0
  {
    Steps(y);
    Multiples(y);
  }

  lemma {:induction false} YearsClosed(y: int)
    requires y >= 1970
    ensures DaysBeforeYear(y) == 365 * (y - 1970) + Leaps(y - 1) - 477
  {
    if y > 1970 {
      YearsClosed(y - 1);
      LeapCount(y - 1);
    }
  }

  /** The months of a year, March first. */
  lemma MonthFound(doy: nat)
    requires doy <= 365
    ensures var mp := MonthOfYear(doy); 0 <= mp <= 11 && MonthStart(mp) <= doy
    ensures var mp := MonthOfYear(doy); doy < MonthStart(mp) + (if mp == 1 || mp == 3 || mp == 6
            || mp == 8 then 30 else if mp == 11 then 29 else 31)
    ensures MonthOfYear(doy) == 11 <==> doy >= 337
    ensures MonthOfYear(doy) >= 10 <==> doy >= 306
  {
  }

  lemma MonthsClosed(y: int, m: int)
    requires 1 <= m <= 12
    ensures m >= 3 ==> DaysBeforeMonth(y, m) == MonthStart(m - 3) + 59 + (if IsLeap(y) then 1 else 0)
    ensures m <= 2 ==> DaysBeforeMonth(y, m) == MonthStart(m + 9) - 306
  {
    assert DaysBeforeMonth(y, 1) == 0;
    assert DaysBeforeMonth(y, 2) == 31;
    assert DaysBeforeMonth(y, 3) == 31 + MonthDays(y, 2);
    assert DaysBeforeMonth(y, 4) == DaysBeforeMonth(y, 3) + 31;
    assert DaysBeforeMonth(y, 5) == DaysBeforeMonth(y, 4) + 30;
    assert DaysBeforeMonth(y, 6) == DaysBeforeMonth(y, 5) + 31;
    assert DaysBeforeMonth(y, 7) == DaysBeforeMonth(y, 6) + 30;
    assert DaysBeforeMonth(y, 8) == DaysBeforeMonth(y, 7) + 31;
    assert DaysBeforeMonth(y, 9) == DaysBeforeMonth(y, 8) + 31;
    assert DaysBeforeMonth(y, 10) == DaysBeforeMonth(y, 9) + 30;
    assert DaysBeforeMonth(y, 11) == DaysBeforeMonth(y, 10) + 31;
    assert DaysBeforeMonth(y, 12) == DaysBeforeMonth(y, 11) + 30;
  }

  /** The last day of a March-based year is 29 February of the following civil year. */
  lemma LeapDay(era: int, c: int, a: int, b: int)
    requires 0 <= c <= 3 && 0 <= a <= 24 && b == 3 && (a == 24 ==> c == 3)
    ensures IsLeap(400 * era + 100 * c + 4 * a + b + 1)
  {
    var y := 400 * era + 100 * c + 4 * a + 4;
    assert y % 4 == 0 by { assert y == 4 * (100 * era + 25 * c + a + 1); }
    if a == 24 {
      assert y == 400 * (era + 1);
    } else {
      assert y == 100 * (4 * era + c) + 4 * (a + 1);
      assert y % 100 == 4 * (a + 1);
    }
  }

  lemma EraLeaps(era: int, k: int)
    requires 0 <= k < 400
    ensures 365 * (400 * era + k) + Leaps(400 * era + k) == 146097 * era + YearStart(k)
  {
    var y := 400 * era + k;
    assert y / 4 == 100 * era + k / 4;
    assert y / 100 == 4 * era + k / 100;
    assert y / 400 == era;
  }

  /** The day number of day doy of the March-based year Y, from 1 March 1970 on or in its first two months. */
  lemma MarchDay(y: int, doy: nat)
    requires y >= 1969 && doy <= 365 && (y == 1969 ==> doy >= 306) && (doy == 365 ==> IsLeap(y + 1))
    ensures var mp := MonthOfYear(doy);
            var m := mp + (if mp < 10 then 3 else -9);
            var d := doy - MonthStart(mp) + 1;
            var y' := y + (if m <= 2 then 1 else 0);
            && 1970 <= y' && 1 <= m <= 12 && 1 <= d <= MonthDays(y', m)
            && DayNumber(y', m, d) == 365 * y + Leaps(y) + doy - 719468
  {
    hide DaysBeforeMonth, DaysBeforeYear, IsLeap;
    MonthFound(doy);
    var mp := MonthOfYear(doy);
    var m := mp + (if mp < 10 then 3 else -9);
    var y' := y + (if m <= 2 then 1 else 0);
    MonthsClosed(y', m);
    YearsClosed(y');
    LeapCount(y');
  }

  lemma DateOfDay(t: nat)
    requires IsCount(t)
    ensures var c := ToCivil(t);
            && 1970 <= c.year && 1 <= c.month <= 12 && 1 <= c.day <= MonthDays(c.year, c.month)
            && DayNumber(c.year, c.month, c.day) == t / DAY
  {
    hide DayNumber, MonthDays, IsLeap, Leaps, YearStart, YearOfEra, MonthOfYear, MonthStart;
    var z := t / DAY + 719468;
    var era := z / 146097;
    var doe := z - era * 146097;
    var c, a, b, doy := EraSplit(doe);
    YearFound(c, a, b, doy);
    var k := 100 * c + 4 * a + b;
    EraLeaps(era, k);
    if doy == 365 { LeapDay(era, c, a, b); }
    MarchBound(era, k, doy, t / DAY);
    MarchDay(400 * era + k, doy);
  }

  lemma MarchBound(era: int, k: int, doy: int, days: int)
    requires 0 <= k < 400 && 0 <= doy <= 365 && days >= 0 && 146097 * era + YearStart(k) + doy == days + 719468
    ensures 400 * era + k >= 1969 && (400 * era + k == 1969 ==> doy >= 306)
  {
  }

  /** Every 32-bit count gives a date and time of the Gregorian calendar whose second count it is. */
  lemma RoundTrip(t: nat)
    requires IsCount(t)
    ensures Valid(ToCivil(t)) && Seconds(ToCivil(t)) == t && ToCivil(t).year <= 2106
  {
    DateOfDay(t);
    hide DayNumber, MonthDays, IsLeap, YearStart, YearOfEra, MonthOfYear, MonthStart;
    var sec := t % DAY;
    assert sec / 3600 * 3600 + sec % 3600 == sec;
  }

  // ---- Order ----

  /** Compared from the year down to the second. */
  predicate Earlier(c: Civil, e: Civil) {
    c.year < e.year || (c.year == e.year &&
    (c.month < e.month || (c.month == e.month &&
    (c.day < e.day || (c.day == e.day &&
    (c.hour < e.hour || (c.hour == e.hour &&
    (c.minute < e.minute || (c.minute == e.minute && c.second < e.second)))))))))
  }

  lemma {:induction false} YearsGrow(y: int, z: int)
    requires 1970 <= y <= z
    ensures DaysBeforeYear(y) <= DaysBeforeYear(z)
    decreases z - y
  {
    if y < z { YearsGrow(y, z - 1); }
  }

  lemma {:induction false} MonthsGrow(y: int, m: int, n: int)
    requires 1 <= m <= n <= 13
    ensures DaysBeforeMonth(y, m) <= DaysBeforeMonth(y, n) && 0 <= DaysBeforeMonth(y, m)
    decreases n - m, m
  {
    if m < n { MonthsGrow(y, m, n - 1); } else if m > 1 { MonthsGrow(y, m - 1, m - 1); }
  }

  lemma WholeYear(y: int)
    ensures DaysBeforeMonth(y, 13) == YearDays(y)
  {
    MonthsClosed(y, 12);
  }

  lemma DaysOrder(c: Civil, e: Civil)
    requires Valid(c) && Valid(e)
    requires c.year < e.year || (c.year == e.year && (c.month < e.month || (c.month == e.month && c.day < e.day)))
    ensures DayNumber(c.year, c.month, c.day) < DayNumber(e.year, e.month, e.day)
  {
    hide IsLeap, MonthDays;
    MonthsGrow(e.year, 1, e.month);
    if c.year < e.year {
      YearsGrow(c.year + 1, e.year);
      MonthsGrow(c.year, c.month + 1, 13);
      WholeYear(c.year);
    } else if c.month < e.month {
      MonthsGrow(c.year, c.month + 1, e.month);
    }
  }

  lemma SecondsOrder(c: Civil, e: Civil)
    requires Valid(c) && Valid(e) && Earlier(c, e)
    ensures Seconds(c) < Seconds(e)
  {
    hide DayNumber, MonthDays;
    if c.year != e.year || c.month != e.month || c.day != e.day {
      DaysOrder(c, e);
    }
  }

  lemma EarlierTotal(c: Civil, e: Civil)
    requires c != e
    ensures Earlier(c, e) || Earlier(e, c)
  {
  }

  /** Dates come in the order of their counts. */
  lemma EarlierIff(t: nat, u: nat)
    requires IsCount(t) && IsCount(u)
    ensures Earlier(ToCivil(t), ToCivil(u)) <==> t < u
  {
    hide ToCivil, Valid, Seconds, Earlier;
    RoundTrip(t);
    RoundTrip(u);
    if Earlier(ToCivil(t), ToCivil(u)) {
      SecondsOrder(ToCivil(t), ToCivil(u));
    } else if ToCivil(t) != ToCivil(u) {
      EarlierTotal(ToCivil(t), ToCivil(u));
      SecondsOrder(ToCivil(u), ToCivil(t));
    }
  }

  // ---- The text ----

  predicate Below(m: int, n: int) {
    m < n
  }

  predicate TwoDigit(n: int) {
    0 <= n < 100
  }

  function Digit(n: int): char
    requires 0 <= n < 10
  {
    ('0' as int + n) as char
  }

  function Pair(n: int): (s: string)
    requires TwoDigit(n)
    ensures |s| == 2
  {
    [Digit(n / 10), Digit(n % 10)]
  }

  function Fields(c: Civil): seq<int> {
    [c.year / 100, c.year % 100, c.month, c.day, c.hour, c.minute, c.second]
  }

  /** What stands before each field. */
  const SEPARATORS := ["", "", "-", "-", "T", ":", ":"]

  predicate AllTwoDigit(fs: seq<int>) {
    forall i | 0 <= i < |fs| :: TwoDigit(fs[i])
  }

  function Render(fs: seq<int>, separators: seq<string>): string
    requires AllTwoDigit(fs) && |fs| == |separators|
  {
    if fs == [] then [] else separators[0] + (Pair(fs[0]) + Render(fs[1..], separators[1..]))
  }

  lemma PairCompare(m: int, n: int)
    requires TwoDigit(m) && TwoDigit(n)
    ensures TextLess(Pair(m), Pair(n)) <==> m < n
    ensures Pair(m) == Pair(n) <==> m == n
  {
    var a, b := Pair(m), Pair(n);
    assert a[1..] == [a[1]] && b[1..] == [b[1]];
    assert LexLess(CharLess, [a[1]], [b[1]]) <==> a[1] < b[1];
  }

  /** Texts with the same separators compare as their fields do, first to last. */
  lemma {:induction false} RenderCompare(fs: seq<int>, gs: seq<int>, separators: seq<string>)
    requires AllTwoDigit(fs) && AllTwoDigit(gs) && |fs| == |gs| == |separators|
    ensures TextLess(Render(fs, separators), Render(gs, separators)) <==> LexLess(Below, fs, gs)
  {
    if fs != [] {
      hide Pair;
      CharsTotal();
      var sep, x, y := separators[0], Render(fs[1..], separators[1..]), Render(gs[1..], separators[1..]);
      RenderCompare(fs[1..], gs[1..], separators[1..]);
      PairCompare(fs[0], gs[0]);
      LexConcat(CharLess, sep, sep, Pair(fs[0]) + x, Pair(gs[0]) + y);
      TextIrreflexive(sep);
      LexConcat(CharLess, Pair(fs[0]), Pair(gs[0]), x, y);
    }
  }

  lemma FieldsInRange(c: Civil)
    requires Valid(c) && c.year <= 9999
    ensures AllTwoDigit(Fields(c))
  {
  }

  function DateText(fs: seq<int>): (s: string)
    requires |fs| == 7 && AllTwoDigit(fs)
    ensures |s| == 10
  {
    Pair(fs[0]) + (Pair(fs[1]) + ("-" + (Pair(fs[2]) + ("-" + Pair(fs[3])))))
  }

  function TimeText(fs: seq<int>): (s: string)
    requires |fs| == 7 && AllTwoDigit(fs)
    ensures |s| == 8
  {
    Pair(fs[4]) + (":" + (Pair(fs[5]) + (":" + Pair(fs[6]))))
  }

  /** YYYY-MM-DDThh:mm:ss */
  function Text(c: Civil): (s: string)
    requires Valid(c) && c.year <= 9999
    ensures |s| == 19
  {
    FieldsInRange(c);
    DateText(Fields(c)) + ("T" + TimeText(Fields(c)))
  }

  lemma TextIsRender(c: Civil)
    requires Valid(c) && c.year <= 9999
    ensures AllTwoDigit(Fields(c)) && Text(c) == Render(Fields(c), SEPARATORS)
  {
    hide Pair, Render;
    FieldsInRange(c);
    var fs, ss := Fields(c), SEPARATORS;
    NoFields(fs[7..], ss[7..]);
    Unfold(fs, ss, 6);
    Unfold(fs, ss, 5);
    Unfold(fs, ss, 4);
    Unfold(fs, ss, 3);
    Unfold(fs, ss, 2);
    Unfold(fs, ss, 1);
    Unfold(fs, ss, 0);
    assert fs[0..] == fs && ss[0..] == ss;
    assert forall x: string :: "" + x == x;
    assert Pair(c.second) + [] == Pair(c.second);
    var time := "T" + TimeText(fs);
    DateRegroups(Pair(fs[0]), Pair(fs[1]), Pair(fs[2]), Pair(fs[3]), time);
  }

  lemma DateRegroups(a: string, b: string, c: string, d: string, time: string)
    ensures a + (b + ("-" + (c + ("-" + d)))) + time == a + (b + ("-" + (c + ("-" + (d + time)))))
  {
    assert ("-" + d) + time == "-" + (d + time);
    assert (c + ("-" + d)) + time == c + ("-" + (d + time));
    assert ("-" + (c + ("-" + d))) + time == "-" + (c + ("-" + (d + time)));
  }

  lemma NoFields(fs: seq<int>, ss: seq<string>)
    requires fs == [] && ss == []
    ensures Render(fs, ss) == []
  {
  }

  lemma Unfold(fs: seq<int>, ss: seq<string>, i: nat)
    requires AllTwoDigit(fs) && |fs| == |ss| && i < |fs|
    ensures Render(fs[i..], ss[i..]) == ss[i] + (Pair(fs[i]) + Render(fs[i + 1..], ss[i + 1..]))
  {
    hide Pair;
    assert fs[i..][1..] == fs[i + 1..] && ss[i..][1..] == ss[i + 1..];
  }

  lemma FieldsCompare(c: Civil, e: Civil)
    requires Valid(c) && Valid(e)
    ensures LexLess(Below, Fields(c), Fields(e)) <==> Earlier(c, e)
  {
    hide LexLess;
    var x, y := [c.month, c.day, c.hour, c.minute, c.second], [e.month, e.day, e.hour, e.minute, e.second];
    assert Fields(c) == [c.year / 100] + ([c.year % 100] + x) && Fields(e) == [e.year / 100] + ([e.year % 100] + y);
    NextField(c.year / 100, e.year / 100, [c.year % 100] + x, [e.year % 100] + y);
    NextField(c.year % 100, e.year % 100, x, y);
    assert x == [c.month] + [c.day, c.hour, c.minute, c.second] && y == [e.month] + [e.day, e.hour, e.minute, e.second];
    assert [c.day, c.hour, c.minute, c.second] == [c.day] + [c.hour, c.minute, c.second];
    assert [e.day, e.hour, e.minute, e.second] == [e.day] + [e.hour, e.minute, e.second];
    assert [c.hour, c.minute, c.second] == [c.hour] + [c.minute, c.second]
        && [c.minute, c.second] == [c.minute] + [c.second];
    assert [e.hour, e.minute, e.second] == [e.hour] + [e.minute, e.second]
        && [e.minute, e.second] == [e.minute] + [e.second];
    assert [c.second] + [] == [c.second] && [e.second] + [] == [e.second];
    NextField(c.month, e.month, [c.day, c.hour, c.minute, c.second], [e.day, e.hour, e.minute, e.second]);
    NextField(c.day, e.day, [c.hour, c.minute, c.second], [e.hour, e.minute, e.second]);
    NextField(c.hour, e.hour, [c.minute, c.second], [e.minute, e.second]);
    NextField(c.minute, e.minute, [c.second], [e.second]);
    NextField(c.second, e.second, [], []);
  }

  lemma NextField(m: int, n: int, x: seq<int>, y: seq<int>)
    ensures LexLess(Below, [m] + x, [n] + y) <==> m < n || (m == n && LexLess(Below, x, y))
    ensures !LexLess(Below, [], [])
  {
    assert ([m] + x)[1..] == x && ([n] + y)[1..] == y;
  }

  /** The 19 character texts of two counts compare as the counts do. */
  lemma TextOrder(t: nat, u: nat)
    requires IsCount(t) && IsCount(u)
    ensures Valid(ToCivil(t)) && Valid(ToCivil(u)) && ToCivil(t).year <= 9999 && ToCivil(u).year <= 9999
    ensures |Text(ToCivil(t))| == 19
    ensures TextLess(Text(ToCivil(t)), Text(ToCivil(u))) <==> t < u
  {
    hide ToCivil, Valid, Earlier, Seconds, Render, LexLess;
    RoundTrip(t);
    RoundTrip(u);
    var c, e := ToCivil(t), ToCivil(u);
    TextIsRender(c);
    TextIsRender(e);
    RenderCompare(Fields(c), Fields(e), SEPARATORS);
    FieldsCompare(c, e);
    EarlierIff(t, u);
  }

  /** The characters from i to before j are the decimal digits of n. */
  predicate Reads(s: string, i: nat, j: nat, n: int) {
    && i <= j <= |s| && (forall k | 0 <= k < |s[i..j]| :: Decimal.IsDigit(s[i..j][k]))
    && Decimal.Value(s[i..j]) == n
  }

  lemma PairReads(n: int)
    requires TwoDigit(n)
    ensures Decimal.IsDigit(Pair(n)[0]) && Decimal.IsDigit(Pair(n)[1])
    ensures 10 * (Pair(n)[0] as int - '0' as int) + (Pair(n)[1] as int - '0' as int) == n
  {
  }

  lemma TwoReads(s: string, i: nat, n: int)
    requires TwoDigit(n) && i + 2 <= |s| && s[i] == Pair(n)[0] && s[i + 1] == Pair(n)[1]
    ensures Reads(s, i, i + 2, n)
  {
    hide Pair;
    PairReads(n);
    var d := s[i..i + 2];
    assert d == [s[i], s[i + 1]] && d[..1] == [s[i]] && d[..1][..0] == [];
    assert Decimal.Value(d[..1]) == s[i] as int - '0' as int;
  }

  lemma FourReads(s: string, i: nat, m: int, n: int)
    requires TwoDigit(m) && TwoDigit(n) && i + 4 <= |s|
    requires Reads(s, i, i + 2, m) && s[i + 2] == Pair(n)[0] && s[i + 3] == Pair(n)[1]
    ensures Reads(s, i, i + 4, m * 100 + n)
  {
    hide Pair;
    PairReads(n);
    var d := s[i..i + 4];
    assert d[..3] == s[i..i + 3] && d[..3][..2] == s[i..i + 2];
    assert forall k | 0 <= k < 2 :: d[k] == s[i..i + 2][k];
    assert Decimal.IsDigit(d[2]) && Decimal.IsDigit(d[3]);
    assert Decimal.Value(d[..3]) == Decimal.Value(s[i..i + 2]) * 10 + (d[2] as int - '0' as int);
    assert Decimal.Value(d) == Decimal.Value(d[..3]) * 10 + (d[3] as int - '0' as int);
  }

  lemma TextChars(c: Civil)
    requires Valid(c) && c.year <= 9999
    ensures AllTwoDigit(Fields(c))
    ensures var s, fs := Text(c), Fields(c);
            && s[0..2] == Pair(fs[0]) && s[2..4] == Pair(fs[1]) && s[4] == '-' && s[5..7] == Pair(fs[2]) && s[7] == '-'
            && s[8..10] == Pair(fs[3]) && s[10] == 'T' && s[11..13] == Pair(fs[4]) && s[13] == ':'
            && s[14..16] == Pair(fs[5]) && s[16] == ':' && s[17..19] == Pair(fs[6])
  {
    hide Pair, Valid;
    FieldsInRange(c);
    var s, fs := Text(c), Fields(c);
    assert s[..10] == DateText(fs) && s[11..] == TimeText(fs);
    DateChars(fs);
    TimeChars(fs);
    assert forall i, j | 0 <= i <= j <= 10 :: s[i..j] == s[..10][i..j];
    assert s[11..13] == s[11..][0..2] && s[14..16] == s[11..][3..5] && s[17..19] == s[11..][6..8];
    assert s[4] == s[..10][4] && s[7] == s[..10][7] && s[13] == s[11..][2] && s[16] == s[11..][5];
  }

  lemma DateChars(fs: seq<int>)
    requires |fs| == 7 && AllTwoDigit(fs)
    ensures var s := DateText(fs);
            && s[0..2] == Pair(fs[0]) && s[2..4] == Pair(fs[1]) && s[4] == '-' && s[5..7] == Pair(fs[2]) && s[7] == '-'
            && s[8..10] == Pair(fs[3])
  {
    hide Pair;
  }

  lemma TimeChars(fs: seq<int>)
    requires |fs| == 7 && AllTwoDigit(fs)
    ensures var s := TimeText(fs);
            && s[0..2] == Pair(fs[4]) && s[2] == ':' && s[3..5] == Pair(fs[5]) && s[5] == ':' && s[6..8] == Pair(fs[6])
  {
    hide Pair;
  }

  lemma FieldReads(s: string, i: nat, n: int)
    requires TwoDigit(n) && i + 2 <= |s| && s[i..i + 2] == Pair(n)
    ensures Reads(s, i, i + 2, n)
  {
    hide Pair;
    assert s[i] == s[i..i + 2][0] && s[i + 1] == s[i..i + 2][1];
    TwoReads(s, i, n);
  }

  /** The text of every count, character by character: the date's numbers in decimal, and what stands between them. */
  lemma TextReads(t: nat)
    requires IsCount(t)
    ensures Valid(ToCivil(t)) && ToCivil(t).year <= 9999
    ensures var c, s := ToCivil(t), Text(ToCivil(t));
            && |s| == 19 && Reads(s, 0, 4, c.year) && s[4] == '-' && Reads(s, 5, 7, c.month) && s[7] == '-'
            && Reads(s, 8, 10, c.day) && s[10] == 'T' && Reads(s, 11, 13, c.hour) && s[13] == ':'
            && Reads(s, 14, 16, c.minute) && s[16] == ':' && Reads(s, 17, 19, c.second)
  {
    hide ToCivil, Valid, Text, Reads, Pair, Seconds;
    TextOrder(t, t);
    var c, s := ToCivil(t), Text(ToCivil(t));
    TextChars(c);
    var fs := Fields(c);
    FieldReads(s, 0, fs[0]);
    assert s[2] == s[2..4][0] && s[3] == s[2..4][1];
    FourReads(s, 0, fs[0], fs[1]);
    FieldReads(s, 5, fs[2]);
    FieldReads(s, 8, fs[3]);
    FieldReads(s, 11, fs[4]);
    FieldReads(s, 14, fs[5]);
    FieldReads(s, 17, fs[6]);
  }

  method WriteTwoDigits(out: array<char>, at: nat, n: int)
    requires TwoDigit(n) && at + 2 <= out.Length
    modifies out
    ensures out[at] == Pair(n)[0] && out[at + 1] == Pair(n)[1]
    ensures forall i | 0 <= i < out.Length && i != at && i != at + 1 :: out[i] == old(out[i])
  {
    out[at] := Digit(n / 10);
    out[at + 1] := Digit(n % 10);
  }

  method WriteDate(out: array<char>, at: nat, fs: seq<int>)
    requires |fs| == 7 && AllTwoDigit(fs) && at + 10 <= out.Length
    modifies out
    ensures out[at..at + 10] == DateText(fs)
    ensures forall i | 0 <= i < out.Length && !(at <= i < at + 10) :: out[i] == old(out[i])
  {
    hide Pair;
    WriteTwoDigits(out, at, fs[0]);
    WriteTwoDigits(out, at + 2, fs[1]);
    out[at + 4] := '-';
    WriteTwoDigits(out, at + 5, fs[2]);
    out[at + 7] := '-';
    WriteTwoDigits(out, at + 8, fs[3]);
    DateBytes(out[at..at + 10], fs);
  }

  lemma DateBytes(o: string, fs: seq<int>)
    requires |o| == 10 && |fs| == 7 && AllTwoDigit(fs)
    requires o[0] == Pair(fs[0])[0] && o[1] == Pair(fs[0])[1] && o[2] == Pair(fs[1])[0] && o[3] == Pair(fs[1])[1]
    requires o[4] == '-' && o[5] == Pair(fs[2])[0] && o[6] == Pair(fs[2])[1]
    requires o[7] == '-' && o[8] == Pair(fs[3])[0] && o[9] == Pair(fs[3])[1]
    ensures o == DateText(fs)
  {
    hide Pair;
    assert o[7..] == "-" + Pair(fs[3]);
    assert o[5..] == Pair(fs[2]) + o[7..];
    assert o[4..] == "-" + o[5..];
    assert o[2..] == Pair(fs[1]) + o[4..];
    assert o == Pair(fs[0]) + o[2..];
  }

  method WriteTime(out: array<char>, at: nat, fs: seq<int>)
    requires |fs| == 7 && AllTwoDigit(fs) && at + 8 <= out.Length
    modifies out
    ensures out[at..at + 8] == TimeText(fs)
    ensures forall i | 0 <= i < out.Length && !(at <= i < at + 8) :: out[i] == old(out[i])
  {
    hide Pair;
    WriteTwoDigits(out, at, fs[4]);
    out[at + 2] := ':';
    WriteTwoDigits(out, at + 3, fs[5]);
    out[at + 5] := ':';
    WriteTwoDigits(out, at + 6, fs[6]);
    TimeBytes(out[at..at + 8], fs);
  }

  lemma TimeBytes(o: string, fs: seq<int>)
    requires |o| == 8 && |fs| == 7 && AllTwoDigit(fs)
    requires o[0] == Pair(fs[4])[0] && o[1] == Pair(fs[4])[1] && o[2] == ':'
    requires o[3] == Pair(fs[5])[0] && o[4] == Pair(fs[5])[1] && o[5] == ':'
    requires o[6] == Pair(fs[6])[0] && o[7] == Pair(fs[6])[1]
    ensures o == TimeText(fs)
  {
    hide Pair;
    assert o[5..] == ":" + Pair(fs[6]);
    assert o[3..] == Pair(fs[5]) + o[5..];
    assert o[2..] == ":" + o[3..];
    assert o == Pair(fs[4]) + o[2..];
  }

  /** into_buf: None where the buffer has less than 20 bytes left. */
  method IntoBuf(out: array<char>, begin: nat, t: nat) returns (next: Option<nat>)
    requires IsCount(t) && begin <= out.Length
    modifies out
    ensures next.None? <==> out.Length - begin < 20
    ensures next.None? ==> out[..] == old(out[..])
    ensures next.Some? ==>
      && Valid(ToCivil(t)) && ToCivil(t).year <= 9999
      && next.value == begin + 20 && out[begin..begin + 19] == Text(ToCivil(t)) && out[begin + 19] == '\0'
      && out[..begin] == old(out[..begin]) && out[begin + 20..] == old(out[begin + 20..])
  {
    hide ToCivil, Valid, Seconds, DateText, TimeText;
    if out.Length - begin < 20 {
      return None;
    }
    RoundTrip(t);
    var c := ToCivil(t);
    FieldsInRange(c);
    var fs := Fields(c);
    WriteDate(out, begin, fs);
    ghost var date := out[begin..begin + 10];
    out[begin + 10] := 'T';
    WriteTime(out, begin + 11, fs);
    out[begin + 19] := '\0';
    assert out[begin..begin + 19] == date + ("T" + out[begin + 11..begin + 19]);
    next := Some(begin + 20);
  }
}
