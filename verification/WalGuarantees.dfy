/** What the log manager guarantees about the records it keeps, whatever their numbers wrapped to. */
module WalGuarantees {
  import opened Common
  import opened WalRecord
  import opened WalLog
  import opened Lexicographic
  import Decimal
  import Sorting

  /** All records of a list of files, oldest first. */
  function Retained(files: seq<LogFile>): seq<Record> {
    if files == [] then [] else files[0].records + Retained(files[1..])
  }

  ghost predicate Consecutive(rs: seq<Record>) {
    && (forall i | 0 <= i < |rs| :: IsNum(rs[i].num))
    && (forall i | 0 <= i < |rs| - 1 :: rs[i + 1].num == After(rs[i].num))
  }

  /** No file has grown to a multiple of 4 GiB, where its size field reads 0. */
  ghost predicate SizesShow(files: seq<LogFile>) {
    forall i | 0 <= i < |files| :: IsEmpty(files[i]) <==> files[i].records == []
  }

  /** num lies just before position k: exactly the records from k on are newer. */
  ghost predicate Precedes(num: int, rs: seq<Record>, k: int) {
    forall i | 0 <= i < |rs| :: Less(num, rs[i].num) <==> i >= k
  }

  // ---- Numbers of retained records ----

  lemma {:induction false} NumAt(rs: seq<Record>, i: nat, j: nat)
    requires Consecutive(rs) && i <= j < |rs| && j - i < MODULUS
    ensures Distance(rs[i].num, rs[j].num) == j - i
    decreases j
  {
    if i < j {
      NumAt(rs, i, j - 1);
    }
  }

  /** Within the window the comparison of numbers is the order in the log. */
  lemma LessInLog(rs: seq<Record>, i: nat, j: nat)
    requires Consecutive(rs) && |rs| <= HALF && i < |rs| && j < |rs|
    ensures Less(rs[i].num, rs[j].num) <==> i < j
    ensures rs[i].num == rs[j].num <==> i == j
  {
    if i <= j { NumAt(rs, i, j); } else { NumAt(rs, j, i); }
    LessIsCircular(rs[i].num, rs[j].num);
    LessIsCircular(rs[j].num, rs[i].num);
  }

  lemma MemberPrecedes(rs: seq<Record>, k: nat)
    requires Consecutive(rs) && |rs| <= HALF && 0 < k <= |rs|
    ensures Precedes(rs[k - 1].num, rs, k)
  {
    forall i | 0 <= i < |rs| ensures Less(rs[k - 1].num, rs[i].num) <==> i >= k {
      LessInLog(rs, k - 1, i);
    }
  }

  lemma PredecessorPrecedes(num: int, rs: seq<Record>)
    requires Consecutive(rs) && |rs| < HALF && IsNum(num) && (rs != [] ==> rs[0].num == After(num))
    ensures Precedes(num, rs, 0)
  {
    var extended := [Record(num, [])] + rs;
    assert Consecutive(extended);
    forall i | 0 <= i < |rs| ensures Less(num, rs[i].num) {
      LessInLog(extended, 0, i + 1);
      assert extended[i + 1] == rs[i];
    }
  }

  // ---- Replay ----

  lemma {:induction false} NewerIsSuffix(rs: seq<Record>, num: int, k: int)
    requires Precedes(num, rs, k) && 0 <= k <= |rs|
    ensures NewerThan(rs, num) == rs[k..]
  {
    if rs != [] {
      var k' := if k == 0 then 0 else k - 1;
      assert Precedes(num, rs[1..], k') by {
        forall i | 0 <= i < |rs[1..]| ensures Less(num, rs[1..][i].num) <==> i >= k' {
          assert rs[1..][i] == rs[i + 1];
        }
      }
      NewerIsSuffix(rs[1..], num, k');
      if k == 0 {
        assert [rs[0]] + rs[1..] == rs;
      } else {
        assert rs[1..][k'..] == rs[k..];
      }
    }
  }

  lemma {:induction false} NewerConcat(a: seq<Record>, b: seq<Record>, num: int)
    ensures NewerThan(a + b, num) == NewerThan(a, num) + NewerThan(b, num)
  {
    hide Less;
    if a == [] {
      assert a + b == b;
    } else {
      NewerConcat(a[1..], b, num);
      var rs, rest := a + b, NewerThan(a[1..], num);
      assert rs[0] == a[0] && rs[1..] == a[1..] + b;
      var first := if Less(num, a[0].num) then [a[0]] else [];
      assert first + (rest + NewerThan(b, num)) == first + rest + NewerThan(b, num);
    }
  }

  /** Skipping whole files by their last number loses nothing. */
  lemma {:induction false} ReplayIsNewer(files: seq<LogFile>, num: int, k: int)
    requires SizesShow(files) && Precedes(num, Retained(files), k)
    requires IsNum(num) && forall i | 0 <= i < |Retained(files)| :: IsNum(Retained(files)[i].num)
    ensures ReplayAfter(files, num) == NewerThan(Retained(files), num)
  {
    if files != [] {
      var rs, rest := files[0].records, Retained(files[1..]);
      var all := Retained(files);
      forall i | 0 <= i < |rest| ensures rest[i] == all[|rs| + i] {
      }
      assert Precedes(num, rest, k - |rs|);
      ReplayIsNewer(files[1..], num, k - |rs|);
      NewerConcat(rs, rest, num);
      if rs != [] && Less(LastNum(files[0]), num) {
        assert all[|rs| - 1] == rs[|rs| - 1];
        LessIsCircular(LastNum(files[0]), num);
        assert k >= |rs|;
        assert Precedes(num, rs, |rs|) by {
          assert forall i | 0 <= i < |rs| :: rs[i] == all[i];
        }
        NewerIsSuffix(rs, num, |rs|);
      }
    }
  }

  lemma {:induction false} NewerOnly(rs: seq<Record>, num: int, r: Record)
    requires r in NewerThan(rs, num)
    ensures Less(num, r.num)
  {
    if rs != [] && r in NewerThan(rs[1..], num) {
      NewerOnly(rs[1..], num, r);
    }
  }

  lemma {:induction false} ReplayedAreNewer(files: seq<LogFile>, num: int, r: Record)
    requires r in ReplayAfter(files, num)
    ensures Less(num, r.num)
  {
    if r in ReplayAfter(files[1..], num) {
      ReplayedAreNewer(files[1..], num, r);
    } else {
      NewerOnly(files[0].records, num, r);
    }
  }

  /** A log as it is right after opening: numbered without gaps, inside the window, sizes honest. */
  ghost predicate Sound(log: Log) {
    var rs := Retained(log.files);
    && Consecutive(rs) && |rs| < HALF && SizesShow(log.files)
    && (rs != [] ==> log.last == Some(rs[|rs| - 1].num))
  }

  lemma {:induction false} NothingRetained(files: seq<LogFile>, num: int)
    requires Retained(files) == [] && SizesShow(files)
    ensures ReplayAfter(files, num) == []
  {
    if files != [] {
      NothingRetained(files[1..], num);
    }
  }

  lemma ReplayFrom(log: Log, num: int, k: nat)
    requires Sound(log) && IsNum(num) && k <= |Retained(log.files)| && Precedes(num, Retained(log.files), k)
    ensures ReplayList(log, Some(num)) == Retained(log.files)[k..]
  {
    var rs := Retained(log.files);
    ReplayIsNewer(log.files, num, k);
    NewerIsSuffix(rs, num, k);
    if rs == [] {
      NothingRetained(log.files, num);
    } else if k == |rs| {
      assert rs[k..] == [];
    } else {
      assert Less(num, rs[|rs| - 1].num);
    }
  }

  /**
   * The database has executed the first k retained records and none after them, and its number is
   * that of the last one it executed (any number at all when k == 0). Start-up then replays
   * exactly the missing records if and only if some retained record was executed, or nothing is
   * retained, or the database's number comes before every retained record.
   */
  lemma ReplayExactIff(log: Log, db: Option<int>, k: nat)
    requires Sound(log) && k <= |Retained(log.files)|
    requires k > 0 ==> db == Some(Retained(log.files)[k - 1].num)
    requires db.Some? ==> IsNum(db.value)
    ensures var rs := Retained(log.files);
            ReplayList(log, db) == rs[k..] <==>
            k > 0 || rs == [] || (db.Some? && forall i | 0 <= i < |rs| :: Less(db.value, rs[i].num))
  {
    var rs := Retained(log.files);
    if k > 0 {
      MemberPrecedes(rs, k);
      ReplayFrom(log, db.value, k);
    } else if rs == [] {
      if db.Some? { NothingRetained(log.files, db.value); }
    } else {
      assert rs[k..] == rs;
      if db.Some? && forall i | 0 <= i < |rs| :: Less(db.value, rs[i].num) {
        ReplayFrom(log, db.value, 0);
      }
      if ReplayList(log, db) == rs {
        forall i | 0 <= i < |rs| ensures Less(db.value, rs[i].num) {
          assert rs[i] in ReplayAfter(log.files, db.value);
          ReplayedAreNewer(log.files, db.value, rs[i]);
        }
      }
    }
  }

  /** The log of a life that numbers from 0 while the database still holds number n of an earlier one. */
  ghost predicate NumberedFromZero(rs: seq<Record>) {
    forall i | 0 <= i < |rs| :: rs[i].num == i
  }

  /**
   * With no record of this life executed, replay skips the first n + 1 of them when n is in the lower
   * half of the numbers (a hole, not a lost tail, when more are retained). From the upper half it
   * replays all of them, or none when n is too near the middle.
   */
  lemma NewLifeReplays(log: Log, n: int)
    requires Sound(log) && NumberedFromZero(Retained(log.files)) && IsNum(n)
    ensures var rs := Retained(log.files);
            ReplayList(log, Some(n))
            == if n > HALF then (if n - HALF >= |rs| then rs else [])
               else if n + 1 < |rs| then rs[n + 1..] else []
  {
    hide Retained;
    var rs := Retained(log.files);
    if n <= HALF {
      var k := if n + 1 < |rs| then n + 1 else |rs|;
      assert Precedes(n, rs, k);
      ReplayFrom(log, n, k);
      assert rs[|rs|..] == [];
    } else if n - HALF >= |rs| {
      assert Precedes(n, rs, 0);
      ReplayFrom(log, n, 0);
      assert rs[0..] == rs;
    }
  }

  // ---- Garbage collection ----

  lemma {:induction false} RetainedConcat(a: seq<LogFile>, b: seq<LogFile>)
    ensures Retained(a + b) == Retained(a) + Retained(b)
  {
    if a == [] {
      assert a + b == b;
    } else {
      assert (a + b)[1..] == a[1..] + b;
      RetainedConcat(a[1..], b);
    }
  }

  /** A file holding rs[m..q + 1] may go exactly when its last record is not after the completed one. */
  lemma RemovableIff(rs: seq<Record>, f: LogFile, m: nat, p: nat)
    requires Consecutive(rs) && |rs| <= HALF && p < |rs|
    requires IsEmpty(f) <==> f.records == []
    requires m + |f.records| <= |rs| && f.records == rs[m..m + |f.records|]
    ensures Removable(f, rs[p].num) <==> f.records == [] || m + |f.records| <= p + 1
  {
    if f.records != [] {
      assert LastNum(f) == rs[m + |f.records| - 1].num;
      LessInLog(rs, m + |f.records| - 1, p);
    }
  }

  /** The records of files are the last ones of rs. */
  ghost predicate Suffix(rs: seq<Record>, files: seq<LogFile>) {
    |Retained(files)| <= |rs| && Retained(files) == rs[|rs| - |Retained(files)|..]
  }

  /**
   * transaction_completed removes leading files only: none of them holds a record after the
   * completed one, and it stops at the first file that does, or at a running node's last file.
   */
  lemma {:induction false} CollectsOnlyCompleted(rs: seq<Record>, files: seq<LogFile>, p: nat, shuttingDown: bool)
    requires Consecutive(rs) && |rs| <= HALF && p < |rs| && SizesShow(files)
    requires Suffix(rs, files) && |Retained(files)| >= |rs| - p - 1
    ensures var kept := Completed(files, rs[p].num, shuttingDown);
            && Suffix(rs, kept) && |Retained(kept)| >= |rs| - p - 1
            && (kept != [] && (|kept| > 1 || shuttingDown) ==> |Retained(kept[1..])| < |rs| - p - 1)
    decreases |files|
  {
    if files != [] {
      var m := |rs| - |Retained(files)|;
      var n := m + |files[0].records|;
      assert rs[m..n] == rs[m..][..n - m] == files[0].records;
      assert Retained(files[1..]) == rs[m..][n - m..] == rs[n..];
      RemovableIff(rs, files[0], m, p);
      hide Removable, Consecutive, Retained;
      if (|files| > 1 || shuttingDown) && Removable(files[0], rs[p].num) {
        CollectsOnlyCompleted(rs, files[1..], p, shuttingDown);
      }
    }
  }

  // ---- File names ----

  lemma NamesStrict()
    ensures Sorting.StrictOrder(NamedBefore)
  {
    CharsTotal();
    forall f, g | NamedBefore(f, g) ensures !NamedBefore(g, f) {
      LexAsymmetric(CharLess, Name(f.time, f.serial), Name(g.time, g.serial));
    }
    forall f, g, h | NamedBefore(f, g) && NamedBefore(g, h) ensures NamedBefore(f, h) {
      LexTransitive(CharLess, Name(f.time, f.serial), Name(g.time, g.serial), Name(h.time, h.serial));
    }
  }

  lemma SerialValue(n: nat)
    requires n < 1000
    ensures |Serial(n)| == 3 && (forall i | 0 <= i < 3 :: Decimal.IsDigit(Serial(n)[i]))
            && Decimal.Value(Serial(n)) == n
  {
    Decimal.DigitsValue(n);
    Decimal.DigitsWidth(n, 3);
    LeadingZeros(3 - |Decimal.Digits(n)|, Decimal.Digits(n), Serial(n));
  }

  lemma {:induction false} LeadingZeros(k: nat, s: string, t: string)
    requires (forall i | 0 <= i < |s| :: Decimal.IsDigit(s[i])) && t == seq(k, _ => '0') + s
    ensures (forall i | 0 <= i < |t| :: Decimal.IsDigit(t[i])) && Decimal.Value(t) == Decimal.Value(s)
  {
    if s != [] {
      assert Decimal.IsDigit(s[|s| - 1]);
      LeadingZeros(k, s[..|s| - 1], t[..|t| - 1]);
    } else if k > 0 {
      LeadingZeros(k - 1, s, t[..k - 1]);
    }
  }

  lemma NameOrder(t: string, m: nat, u: string, n: nat)
    requires |t| == |u| && m < 1000 && n < 1000
    ensures TextLess(Name(t, m), Name(u, n)) <==> TextLess(t, u) || (t == u && m < n)
  {
    CharsTotal();
    SerialValue(m);
    SerialValue(n);
    DigitsCompare(Serial(m), Serial(n));
    hide Serial;
    LexConcat(CharLess, t, u, "." + Serial(m) + ".wal", "." + Serial(n) + ".wal");
    assert "." + Serial(m) + ".wal" == "." + (Serial(m) + ".wal")
        && "." + Serial(n) + ".wal" == "." + (Serial(n) + ".wal");
    LexConcat(CharLess, ".", ".", Serial(m) + ".wal", Serial(n) + ".wal");
    LexConcat(CharLess, Serial(m), Serial(n), ".wal", ".wal");
    TextIrreflexive(".");
    TextIrreflexive(".wal");
  }

  /** The thousandth file of a second gets a four digit serial number, which sorts before 999. */
  lemma SerialOverflows(t: string, u: string)
    requires |t| == |u|
    ensures TextLess(Name(t, 999), Name(u, 1000)) <==> TextLess(t, u)
  {
    CharsTotal();
    assert Decimal.Digits(9) == "9" && Decimal.Digits(99) == "99" && Decimal.Digits(999) == "999";
    assert Decimal.Digits(1) == "1" && Decimal.Digits(10) == "10" && Decimal.Digits(100) == "100";
    assert Serial(999) == "999" && Serial(1000) == "1000";
    hide Serial, Decimal.Digits;
    var x, y := "." + Serial(999) + ".wal", "." + Serial(1000) + ".wal";
    assert x == "." + "999.wal" && y == "." + "1000.wal";
    LexConcat(CharLess, t, u, x, y);
    LexConcat(CharLess, ".", ".", "999.wal", "1000.wal");
    TextIrreflexive(".");
  }

  /**
   * A new file sorts after the newest one exactly when the clock has not gone back and, within
   * one second, fewer than 1000 files have been made.
   */
  lemma NewNameIff(files: seq<LogFile>, now: string)
    requires files != [] && |files[|files| - 1].time| == |now| && files[|files| - 1].serial < 1000
    ensures var f := files[|files| - 1];
            NamedBefore(f, LogFile(now, NextSerial(files, now), [])) <==>
            TextLess(f.time, now) || (f.time == now && f.serial < 999)
  {
    hide Name;
    var f := files[|files| - 1];
    var serial := NextSerial(files, now);
    if serial < 1000 {
      NameOrder(f.time, f.serial, now, serial);
    } else {
      SerialOverflows(f.time, now);
    }
  }
}
