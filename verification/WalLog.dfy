/** The write-ahead log manager: sequence numbers, rotating files, garbage collection and replay. */
module WalLog {
  import opened Common
  import opened WalRecord
  import opened Lexicographic
  import Decimal

  // ---- Sequence numbers: 31 bits that wrap to 0 ----

  const MODULUS := MAX_SEQUENCE + 1
  const HALF := MAX_SEQUENCE / 2

  predicate IsNum(n: int) {
    0 <= n <= MAX_SEQUENCE
  }

  function After(n: int): int {
    if n == MAX_SEQUENCE then 0 else n + 1
  }

  /** is_less_than: the shorter way around the circle decides. */
  predicate Less(a: int, b: int) {
    (a < b && b - a < HALF) || (a > b && a - b > HALF)
  }

  /** Steps from a forward to b. */
  function Distance(a: int, b: int): int {
    (b - a) % MODULUS
  }

  /**
   * Never both ways; equal to circular order up to HALF - 1 steps; and two different numbers are
   * left undecided exactly when they differ by HALF.
   */
  lemma LessIsCircular(a: int, b: int)
    requires IsNum(a) && IsNum(b)
    ensures !(Less(a, b) && Less(b, a))
    ensures 0 < Distance(a, b) < HALF ==> Less(a, b)
    ensures Less(a, b) <==> 0 < Distance(a, b) < HALF || (a > b && Distance(a, b) <= HALF + 1)
    ensures a != b ==> (!Less(a, b) && !Less(b, a) <==> a - b == HALF || b - a == HALF)
  {
    if a <= b {
      assert Distance(a, b) == b - a;
    } else {
      assert Distance(a, b) == b - a + MODULUS;
    }
  }

  // ---- Files ----

  /** An open log file; its name is made of the creation second and a serial number. */
  datatype LogFile = LogFile(time: string, serial: nat, records: seq<Record>)

  const MAX_LOG_SIZE := 100 * 0x10_0000

  function Bytes(rs: seq<Record>): nat {
    if rs == [] then 0 else LINE + |rs[0].sql| + LINE + Bytes(rs[1..])
  }

  /** _file_size is a uint32 that wraps. */
  function Size(f: LogFile): nat {
    Bytes(f.records) % 0x1_0000_0000
  }

  predicate IsEmpty(f: LogFile) {
    Size(f) == 0
  }

  function LastNum(f: LogFile): int {
    if f.records == [] then 0 else f.records[|f.records| - 1].num
  }

  function Serial(n: nat): string {
    (if |Decimal.Digits(n)| < 3 then seq(3 - |Decimal.Digits(n)|, _ => '0') else []) + Decimal.Digits(n)
  }

  function Name(time: string, serial: nat): string {
    time + ("." + Serial(serial) + ".wal")
  }

  predicate NamedBefore(f: LogFile, g: LogFile) {
    TextLess(Name(f.time, f.serial), Name(g.time, g.serial))
  }

  datatype Log = Log(files: seq<LogFile>, last: Option<int>)

  /** The first serial number not used by the newest file in this second. */
  function NextSerial(files: seq<LogFile>, now: string): nat {
    if files == [] || TextLess(files[|files| - 1].time, now) then 0 else files[|files| - 1].serial + 1
  }

  /** A file of the name chosen next exists already. */
  predicate NameTaken(files: seq<LogFile>, now: string) {
    exists i :: 0 <= i < |files| && Name(files[i].time, files[i].serial) == Name(now, NextSerial(files, now))
  }

  predicate NeedsNewFile(files: seq<LogFile>) {
    files == [] || Size(files[|files| - 1]) > MAX_LOG_SIZE
  }

  function FilesForStore(files: seq<LogFile>, now: string): (r: seq<LogFile>)
    ensures r != []
  {
    if NeedsNewFile(files) then files + [LogFile(now, NextSerial(files, now), [])] else files
  }

  function NextNum(log: Log): int {
    match log.last
    case None => 0
    case Some(n) => After(n)
  }

  function Append(files: seq<LogFile>, r: Record): seq<LogFile>
    requires files != []
  {
    var i := |files| - 1;
    files[i := files[i].(records := files[i].records + [r])]
  }

  function Store(log: Log, now: string, sql: string): Log {
    Log(Append(FilesForStore(log.files, now), Record(NextNum(log), sql)), Some(NextNum(log)))
  }

  predicate Removable(f: LogFile, num: int) {
    IsEmpty(f) || num == LastNum(f) || Less(LastNum(f), num)
  }

  function Completed(files: seq<LogFile>, num: int, shuttingDown: bool): (r: seq<LogFile>)
    ensures |r| <= |files| && r == files[|files| - |r|..]
    ensures !shuttingDown && files != [] ==> r != []
  {
    if files != [] && (|files| > 1 || shuttingDown) && Removable(files[0], num)
    then Completed(files[1..], num, shuttingDown)
    else files
  }

  function NewerThan(rs: seq<Record>, num: int): seq<Record> {
    if rs == [] then [] else (if Less(num, rs[0].num) then [rs[0]] else []) + NewerThan(rs[1..], num)
  }

  function ReplayAfter(files: seq<LogFile>, num: int): seq<Record> {
    if files == [] then []
    else
      (if IsEmpty(files[0]) || Less(LastNum(files[0]), num) then [] else NewerThan(files[0].records, num))
      + ReplayAfter(files[1..], num)
  }

  function LastSequence(files: seq<LogFile>): Option<int> {
    if files == [] then None
    else if !IsEmpty(files[|files| - 1]) then Some(LastNum(files[|files| - 1]))
    else LastSequence(files[..|files| - 1])
  }

  /** replay_wal_if_necessary: what is run at start-up, given the number stored in the database. */
  function ReplayList(log: Log, db: Option<int>): seq<Record> {
    if db.Some? && log.last.Some? && Less(db.value, log.last.value)
    then ReplayAfter(log.files, db.value)
    else []
  }

  /** The manager object; the log files are kept as values in its deque. */
  class Manager {
    var files: seq<LogFile>
    var last: Option<int>
    var lastCompleted: Option<int>

    constructor ()
      ensures files == [] && last == None && lastCompleted == None
    {
      files, last, lastCompleted := [], None, None;
    }

    /** None where the source's assertion that the new file does not exist yet throws. */
    method StoreTransaction(now: string, sql: string) returns (num: Option<int>)
      modifies this
      ensures lastCompleted == old(lastCompleted)
      ensures num.None? <==> NeedsNewFile(old(files)) && NameTaken(old(files), now)
      ensures num.None? ==> files == old(files) && last == old(last)
      ensures num.Some? ==>
        && Log(files, last) == Store(Log(old(files), old(last)), now, sql)
        && num.value == NextNum(Log(old(files), old(last)))
    {
      if files == [] || Size(files[|files| - 1]) > MAX_LOG_SIZE {
        var serial := 0;
        if files != [] && !TextLess(files[|files| - 1].time, now) {
          while !(files[|files| - 1].serial < serial)
            invariant serial <= files[|files| - 1].serial + 1
            decreases files[|files| - 1].serial + 1 - serial
          {
            serial := serial + 1;
          }
        }
        if exists i :: 0 <= i < |files| && Name(files[i].time, files[i].serial) == Name(now, serial) {
          return None;
        }
        files := files + [LogFile(now, serial, [])];
      }
      var next := if last == None then 0 else After(last.value);
      last := Some(next);
      var back := files[|files| - 1];
      files := files[|files| - 1 := back.(records := back.records + [Record(next, sql)])];
      num := Some(next);
    }

    /** False where the source's assertion on an empty log throws. */
    method TransactionCompleted(num: int, shuttingDown: bool) returns (ok: bool)
      modifies this
      ensures ok == (old(files) != []) && last == old(last)
      ensures files == Completed(old(files), num, shuttingDown)
      ensures lastCompleted == if ok then Some(num) else old(lastCompleted)
    {
      if files == [] {
        return false;
      }
      lastCompleted := Some(num);
      var removeFile := true;
      while removeFile && (|files| > 1 || (shuttingDown && files != []))
        invariant Completed(files, num, shuttingDown) == Completed(old(files), num, shuttingDown)
        invariant !removeFile ==> files == Completed(files, num, shuttingDown)
        invariant last == old(last) && lastCompleted == Some(num)
        decreases |files|, removeFile
      {
        removeFile := IsEmpty(files[0]) || num == LastNum(files[0]) || Less(LastNum(files[0]), num);
        if removeFile {
          files := files[1..];
        }
      }
      return true;
    }

    method ReplayTransactionsAfter(num: int) returns (replayed: seq<Record>)
      ensures replayed == ReplayAfter(files, num)
    {
      hide IsEmpty, Less, NewerThan, LastNum;
      replayed := [];
      for i := 0 to |files|
        invariant replayed + ReplayAfter(files[i..], num) == ReplayAfter(files, num)
      {
        assert files[i..][0] == files[i] && files[i..][1..] == files[i + 1..];
        var found: seq<Record> := [];
        if !IsEmpty(files[i]) && !Less(LastNum(files[i]), num) {
          found := SelectNewer(files[i].records, num);
        }
        assert replayed + (found + ReplayAfter(files[i + 1..], num))
            == (replayed + found) + ReplayAfter(files[i + 1..], num);
        replayed := replayed + found;
      }
    }
  }

  /** The callback of replay_transactions_after over the records of one file. */
  method SelectNewer(rs: seq<Record>, num: int) returns (found: seq<Record>)
    ensures found == NewerThan(rs, num)
  {
    found := [];
    for j := 0 to |rs|
      invariant found + NewerThan(rs[j..], num) == NewerThan(rs, num)
    {
      assert rs[j..][0] == rs[j] && rs[j..][1..] == rs[j + 1..];
      if Less(num, rs[j].num) {
        found := found + [rs[j]];
      }
    }
  }
}
