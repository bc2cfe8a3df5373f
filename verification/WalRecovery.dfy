/**
 * Crash recovery. The live dumper stores each command in the write-ahead log, queues it and lets
 * the processing thread execute it; the database runs a command and records its number in one
 * transaction. A run may crash anywhere, also in the middle of writing a record or of a replay.
 */
module WalRecovery {
  import opened Common
  import opened WalRecord
  import opened WalLog
  import opened WalGuarantees
  import opened Lexicographic
  import Sorting

  /** Every command the database has executed, in order, and the number it has recorded. */
  datatype Db = Db(executed: seq<string>, num: Option<int>)

  datatype DiskFile = DiskFile(time: string, serial: nat, bytes: string)

  /** `stored` is the history of commands whose record reached the disk whole. */
  datatype State =
    | Running(
        log: Log, queue: seq<Record>, pending: Option<Record>, finished: Option<int>, lastCompleted: Option<int>,
        db: Db, stored: seq<string>)
    | Replaying(log: Log, todo: seq<Record>, db: Db, stored: seq<string>)
    | Down(disk: seq<DiskFile>, files: seq<LogFile>, db: Db, stored: seq<string>)
    | Refused(disk: seq<DiskFile>, files: seq<LogFile>, db: Db, stored: seq<string>)

  datatype Action =
    | StoreCommand(now: string, sql: string)
    | Enqueue
    | Execute
    | Complete
    | Crash
    | CrashStoring(now: string, sql: string, written: nat)
    | CrashCompleting(removed: nat)
    | Shutdown(removed: nat)
    | Restart(listing: seq<DiskFile>)
    | ReplayOne
    | FinishReplay

  const TIME_WIDTH := 15

  // ---- The disk ----

  predicate DiskBefore(f: DiskFile, g: DiskFile) {
    TextLess(Name(f.time, f.serial), Name(g.time, g.serial))
  }

  function OnDisk(f: LogFile): DiskFile
    requires AllStorable(f.records)
  {
    DiskFile(f.time, f.serial, EncodeAll(f.records))
  }

  predicate Writable(files: seq<LogFile>) {
    forall i | 0 <= i < |files| :: AllStorable(files[i].records)
  }

  function DiskOf(files: seq<LogFile>): seq<DiskFile>
    requires Writable(files)
  {
    seq(|files|, i requires 0 <= i < |files| => OnDisk(files[i]))
  }

  function ReadFiles(disk: seq<DiskFile>): Option<seq<LogFile>> {
    if disk == [] then Some([])
    else
      match ReadAll(disk[0].bytes)
      case None => None
      case Some(rs) =>
        match ReadFiles(disk[1..])
        case None => None
        case Some(files) => Some([LogFile(disk[0].time, disk[0].serial, rs)] + files)
  }

  /** write_ahead_log_manager::open: files in name order, every one of them readable to its end. */
  function Open(listing: seq<DiskFile>): Option<Log> {
    match ReadFiles(Sorting.Sort(DiskBefore, listing))
    case None => None
    case Some(files) => Some(Log(files, LastSequence(files)))
  }

  // ---- Steps ----

  /** What is assumed of the clock, the size of commands and the number of retained records. */
  predicate WithinLimits(log: Log, now: string, sql: string) {
    && |now| == TIME_WIDTH
    && MAX_LOG_SIZE + LINE + |sql| + LINE < 0x1_0000_0000
    && |Retained(log.files)| + 1 < HALF
    && (log.files != [] && NeedsNewFile(log.files) ==>
          var f := log.files[|log.files| - 1];
          TextLess(f.time, now) || (f.time == now && f.serial < 999))
  }

  /** The crash left only `written` bytes of the record being stored. */
  function TornDisk(log: Log, now: string, sql: string, written: nat): seq<DiskFile>
    requires Writable(FilesForStore(log.files, now)) && NextNum(log) >= 0
    requires written <= |Encode(Record(NextNum(log), sql))|
  {
    var disk := DiskOf(FilesForStore(log.files, now));
    var i := |disk| - 1;
    disk[i := disk[i].(bytes := disk[i].bytes + Encode(Record(NextNum(log), sql))[..written])]
  }

  function Run1(db: Db, r: Record): Db {
    Db(db.executed + [r.sql], Some(r.num))
  }

  function Step(s: State, a: Action): Option<State> {
    match a
    case StoreCommand(now, sql) =>
      if s.Running? && s.pending == None && WithinLimits(s.log, now, sql)
      then Some(s.(log := Store(s.log, now, sql), pending := Some(Record(NextNum(s.log), sql)),
          stored := s.stored + [sql]))
      else None
    case Enqueue =>
      if s.Running? && s.pending.Some? then Some(s.(queue := s.queue + [s.pending.value], pending := None)) else None
    case Execute =>
      if s.Running? && s.queue != [] && s.finished == None
      then Some(s.(queue := s.queue[1..], finished := Some(s.queue[0].num), db := Run1(s.db, s.queue[0])))
      else None
    case Complete =>
      if s.Running? && s.finished.Some?
      then Some(s.(log := s.log.(files := Completed(s.log.files, s.finished.value, false)), finished := None,
                   lastCompleted := s.finished))
      else None
    case Crash =>
      if (s.Running? || s.Replaying?) && Writable(s.log.files)
      then Some(Down(DiskOf(s.log.files), s.log.files, s.db, s.stored))
      else None
    case CrashStoring(now, sql, written) =>
      if s.Running? && s.pending == None && WithinLimits(s.log, now, sql) && NextNum(s.log) >= 0
         && Writable(FilesForStore(s.log.files, now)) && written < |Encode(Record(NextNum(s.log), sql))|
      then Some(Down(TornDisk(s.log, now, sql, written), s.log.files, s.db, s.stored))
      else None
    case CrashCompleting(removed) =>
      if s.Running? && s.finished.Some? && Writable(s.log.files)
         && removed <= |s.log.files| - |Completed(s.log.files, s.finished.value, false)|
      then Some(Down(DiskOf(s.log.files[removed..]), s.log.files[removed..], s.db, s.stored))
      else None
    case Shutdown(removed) =>
      if s.Running? && Writable(s.log.files)
         && removed <= (if s.lastCompleted.None? then 0
                        else |s.log.files| - |Completed(s.log.files, s.lastCompleted.value, true)|)
      then Some(Down(DiskOf(s.log.files[removed..]), s.log.files[removed..], s.db, s.stored))
      else None
    case Restart(listing) =>
      if s.Down? && multiset(listing) == multiset(s.disk)
      then
        match Open(listing)
        case None => Some(Refused(s.disk, s.files, s.db, s.stored))
        case Some(log) => Some(Replaying(log, ReplayList(log, s.db.num), s.db, s.stored))
      else None
    case ReplayOne =>
      if s.Replaying? && s.todo != [] then Some(s.(todo := s.todo[1..], db := Run1(s.db, s.todo[0]))) else None
    case FinishReplay =>
      if s.Replaying? && s.todo == [] then Some(Running(s.log, [], None, None, None, s.db, s.stored)) else None
  }

  function Run(s: State, run: seq<Action>): Option<State>
    decreases |run|
  {
    if run == [] then Some(s)
    else
      match Step(s, run[0])
      case None => None
      case Some(t) => Run(t, run[1..])
  }

  function GivenBy(a: Action): seq<string> {
    if a.StoreCommand? then [a.sql] else []
  }

  /** The commands a run was given and stored whole. */
  function Given(run: seq<Action>): seq<string>
    decreases |run|
  {
    if run == [] then [] else GivenBy(run[0]) + Given(run[1..])
  }

  /** A fresh node: empty log, any number (or none) left in the database by an earlier life. */
  function Init(num: Option<int>): State {
    Running(Log([], None), [], None, None, None, Db([], num), [])
  }

  // ---- What every step keeps ----

  /** 100 MiB. */
  const FILE_LIMIT := 100 * 1024 * 1024

  /** Every file but the last has been filled. */
  ghost predicate Rotated(files: seq<LogFile>) {
    forall i | 0 <= i < |files| - 1 :: Bytes(files[i].records) > FILE_LIMIT
  }

  ghost predicate FileOk(f: LogFile) {
    && f.records != [] && AllStorable(f.records) && Bytes(f.records) < 0x1_0000_0000
    && Bytes(f.records[..|f.records| - 1]) <= FILE_LIMIT
    && |f.time| == TIME_WIDTH && f.serial < 1000
  }

  ghost predicate AllFilesOk(files: seq<LogFile>)
    ensures AllFilesOk(files) ==> Writable(files)
  {
    forall i | 0 <= i < |files| :: FileOk(files[i])
  }

  /** The retained records are the last stored commands, numbered without gaps. */
  ghost predicate FilesOk(files: seq<LogFile>, stored: seq<string>) {
    var rs := Retained(files);
    && AllFilesOk(files)
    && Sorting.Increasing(NamedBefore, files) && Rotated(files)
    && Consecutive(rs) && |rs| < HALF && |rs| <= |stored|
    && (forall i | 0 <= i < |rs| :: rs[i].sql == stored[|stored| - |rs| + i])
  }

  function LastOf(rs: seq<Record>): Option<int> {
    if rs == [] then None else Some(rs[|rs| - 1].num)
  }

  ghost predicate LogOk(log: Log, stored: seq<string>) {
    FilesOk(log.files, stored) && log.last == LastOf(Retained(log.files))
  }

  /** How many of the retained records have been executed. */
  function Done(files: seq<LogFile>, db: Db, stored: seq<string>): int {
    |db.executed| - (|stored| - |Retained(files)|)
  }

  ghost predicate Prefix(db: Db, stored: seq<string>) {
    |db.executed| <= |stored| && db.executed == stored[..|db.executed|]
  }

  /** The database's number is that of the k-th retained record. */
  ghost predicate NumberOf(num: Option<int>, rs: seq<Record>, k: int) {
    && 0 <= k <= |rs|
    && (k > 0 ==> num == Some(rs[k - 1].num))
    && (num.Some? ==> IsNum(num.value))
  }

  ghost predicate DbOk(files: seq<LogFile>, db: Db, stored: seq<string>) {
    Prefix(db, stored) && NumberOf(db.num, Retained(files), Done(files, db, stored))
  }

  function AsSeq(r: Option<Record>): seq<Record> {
    if r.None? then [] else [r.value]
  }

  function Front(files: seq<LogFile>): int {
    if Retained(files) == [] then 0 else Retained(files)[0].num
  }

  /** The database's number is in the retained log or comes just before the next record to run. */
  ghost predicate AnchoredAt(files: seq<LogFile>, db: Db, stored: seq<string>) {
    db.num.Some? && (Done(files, db, stored) > 0 || Front(files) == After(db.num.value))
  }

  ghost predicate Torn(disk: seq<DiskFile>) {
    exists i :: 0 <= i < |disk| && ReadAll(disk[i].bytes) == None
  }

  /** Every file is on the disk, with all its records at the front. */
  ghost predicate Covers(disk: seq<DiskFile>, files: seq<LogFile>) {
    && Writable(files) && |files| <= |disk|
    && forall i | 0 <= i < |files| ::
         && disk[i].time == files[i].time && disk[i].serial == files[i].serial
         && EncodeAll(files[i].records) <= disk[i].bytes
  }

  /** The database as it was when the last command was completed: without one executed since. */
  function AtCompletion(db: Db, finished: Option<int>, lastCompleted: Option<int>): Db {
    if finished.None? || db.executed == [] then db else Db(db.executed[..|db.executed| - 1], lastCompleted)
  }

  ghost predicate CompletedOk(files: seq<LogFile>, db: Db, lastCompleted: Option<int>, stored: seq<string>) {
    files != [] && db.num == lastCompleted && DbOk(files, db, stored) && AnchoredAt(files, db, stored)
  }

  ghost predicate Ok(s: State) {
    match s
    case Running(log, queue, pending, finished, lastCompleted, db, stored) =>
      && LogOk(log, stored) && DbOk(log.files, db, stored)
      && queue + AsSeq(pending) == Retained(log.files)[Done(log.files, db, stored)..]
      && (finished.Some? ==> db.num == finished && Done(log.files, db, stored) > 0)
      && (lastCompleted.Some? ==>
            CompletedOk(log.files, AtCompletion(db, finished, lastCompleted), lastCompleted, stored))
    case Replaying(log, todo, db, stored) =>
      && LogOk(log, stored) && DbOk(log.files, db, stored)
      && todo == Retained(log.files)[Done(log.files, db, stored)..]
    case Down(disk, files, db, stored) =>
      && FilesOk(files, stored) && DbOk(files, db, stored) && Covers(disk, files)
      && (disk == DiskOf(files) || Torn(disk))
    case Refused(disk, files, db, stored) => FilesOk(files, stored) && DbOk(files, db, stored) && Covers(disk, files)
  }

  /**
   * The condition on a restart: some retained record was executed, or none is retained, or the
   * database's number comes before every one of them.
   */
  ghost predicate Recoverable(s: State) {
    s.Down? ==>
      var rs := Retained(s.files);
      || Done(s.files, s.db, s.stored) > 0
      || rs == []
      || (s.db.num.Some? && forall i | 0 <= i < |rs| :: Less(s.db.num.value, rs[i].num))
  }

  ghost predicate AlwaysRecoverable(s: State, run: seq<Action>)
    decreases |run|
  {
    run != [] ==>
      && (run[0].Restart? ==> Recoverable(s))
      && (Step(s, run[0]).Some? ==> AlwaysRecoverable(Step(s, run[0]).value, run[1..]))
  }

  // ---- What a run is given ----

  lemma StepGives(s: State, a: Action)
    requires Step(s, a).Some?
    ensures Step(s, a).value.stored == s.stored + GivenBy(a)
  {
    hide WithinLimits, Store, Open, ReplayList, TornDisk, FilesForStore, Completed, DiskOf, Writable, Encode;
  }

  lemma {:induction false} RunGives(s: State, run: seq<Action>)
    requires Run(s, run).Some?
    ensures Run(s, run).value.stored == s.stored + Given(run)
    decreases |run|
  {
    hide Step, GivenBy;
    if run != [] {
      StepGives(s, run[0]);
      RunGives(Step(s, run[0]).value, run[1..]);
    }
  }

  // ---- Storing and torn writes ----

  lemma {:induction false} BytesAppend(rs: seq<Record>, r: Record)
    ensures Bytes(rs + [r]) == Bytes(rs) + LINE + |r.sql| + LINE
  {
    if rs == [] {
      assert rs + [r] == [r];
    } else {
      assert (rs + [r])[1..] == rs[1..] + [r];
      BytesAppend(rs[1..], r);
    }
  }

  lemma RetainedOne(f: LogFile)
    ensures Retained([f]) == f.records
  {
    assert [f][1..] == [];
    assert f.records + [] == f.records;
  }

  lemma RetainedLast(files: seq<LogFile>, f: LogFile)
    ensures Retained(files + [f]) == Retained(files) + f.records
  {
    RetainedConcat(files, [f]);
    RetainedOne(f);
  }

  /** The file that receives the record, and the files before it. */
  lemma StoreRetains(files: seq<LogFile>, now: string, r: Record) returns (before: seq<LogFile>, f: LogFile)
    ensures FilesForStore(files, now) == before + [f]
    ensures Append(FilesForStore(files, now), r) == before + [f.(records := f.records + [r])]
    ensures Retained(before) + f.records == Retained(files)
    ensures Retained(Append(FilesForStore(files, now), r)) == Retained(files) + [r]
    ensures NeedsNewFile(files) ==> before == files && f == LogFile(now, NextSerial(files, now), [])
    ensures !NeedsNewFile(files) ==> files == before + [f]
  {
    hide NeedsNewFile, NextSerial, Retained;
    var all := FilesForStore(files, now);
    before, f := all[..|all| - 1], all[|all| - 1];
    RetainedLast(before, f);
    RetainedLast(before, f.(records := f.records + [r]));
    assert Retained(before) + (f.records + [r]) == Retained(before) + f.records + [r];
    if NeedsNewFile(files) {
      assert before == files;
      assert Retained(files) + [] == Retained(files);
    }
  }

  lemma NewFileSorts(files: seq<LogFile>, f: LogFile)
    requires Sorting.Increasing(NamedBefore, files) && (files != [] ==> NamedBefore(files[|files| - 1], f))
    ensures Sorting.Increasing(NamedBefore, files + [f])
  {
    hide NamedBefore;
    NamesStrict();
    forall i | 0 <= i < |files| ensures NamedBefore(files[i], f) {
      if i < |files| - 1 { assert NamedBefore(files[i], files[|files| - 1]); }
    }
  }

  /** Files in name order and a clock within limits: the next name is never taken. */
  lemma NameIsFree(log: Log, now: string, sql: string, stored: seq<string>)
    requires LogOk(log, stored) && WithinLimits(log, now, sql) && NeedsNewFile(log.files)
    ensures !NameTaken(log.files, now)
  {
    hide NeedsNewFile, Retained, FileOk, Name;
    var f := LogFile(now, NextSerial(log.files, now), []);
    SerialInRange(log, now, sql);
    NewFileSorts(log.files, f);
    var all := log.files + [f];
    forall i | 0 <= i < |log.files| ensures Name(log.files[i].time, log.files[i].serial) != Name(f.time, f.serial) {
      assert NamedBefore(all[i], all[|log.files|]);
      TextIrreflexive(Name(f.time, f.serial));
    }
  }

  lemma StoredFileOk(files: seq<LogFile>, now: string, r: Record, before: seq<LogFile>, f: LogFile)
    requires Storable(r) && |now| == TIME_WIDTH && MAX_LOG_SIZE + LINE + |r.sql| + LINE < 0x1_0000_0000
    requires AllFilesOk(files)
    requires NeedsNewFile(files) ==> f == LogFile(now, NextSerial(files, now), []) && NextSerial(files, now) < 1000
    requires !NeedsNewFile(files) ==> files == before + [f]
    ensures FileOk(f.(records := f.records + [r]))
  {
    BytesAppend(f.records, r);
    assert (f.records + [r])[..|f.records|] == f.records;
    if !NeedsNewFile(files) {
      assert f == files[|files| - 1];
    }
  }

  lemma SerialInRange(log: Log, now: string, sql: string)
    requires WithinLimits(log, now, sql) && NeedsNewFile(log.files)
    requires AllFilesOk(log.files)
    ensures NextSerial(log.files, now) < 1000
    ensures log.files != [] ==> NamedBefore(log.files[|log.files| - 1], LogFile(now, NextSerial(log.files, now), []))
  {
    hide NeedsNewFile, NamedBefore, AllStorable;
    if log.files != [] {
      assert FileOk(log.files[|log.files| - 1]);
      NewNameIff(log.files, now);
    }
  }

  lemma NextConsecutive(rs: seq<Record>, r: Record)
    requires Consecutive(rs) && IsNum(r.num) && (rs != [] ==> r.num == After(rs[|rs| - 1].num))
    ensures Consecutive(rs + [r])
  {
  }

  /** Names do not depend on the records. */
  lemma SameNames(before: seq<LogFile>, f: LogFile, g: LogFile)
    requires Sorting.Increasing(NamedBefore, before + [f]) && f.time == g.time && f.serial == g.serial
    ensures Sorting.Increasing(NamedBefore, before + [g])
  {
    hide Name;
    var a, b := before + [f], before + [g];
    forall i, j | 0 <= i < j < |b| ensures NamedBefore(b[i], b[j]) {
      assert NamedBefore(a[i], a[j]);
    }
  }

  lemma LastIsFull(files: seq<LogFile>)
    requires AllFilesOk(files) && files != []
    ensures NeedsNewFile(files) <==> Bytes(files[|files| - 1].records) > FILE_LIMIT
  {
    assert FileOk(files[|files| - 1]);
  }

  lemma StoreKeepsFiles(log: Log, now: string, sql: string, stored: seq<string>)
    requires LogOk(log, stored) && WithinLimits(log, now, sql)
    ensures var after := Store(log, now, sql);
            && AllFilesOk(after.files)
            && Sorting.Increasing(NamedBefore, after.files) && Rotated(after.files)
            && Storable(Record(NextNum(log), sql))
            && Retained(after.files) == Retained(log.files) + [Record(NextNum(log), sql)]
  {
    hide FileOk, Retained, NamedBefore, NeedsNewFile;
    var r := Record(NextNum(log), sql);
    var before, f := StoreRetains(log.files, now, r);
    if NeedsNewFile(log.files) {
      SerialInRange(log, now, sql);
      NewFileSorts(log.files, f);
    }
    StoredFileOk(log.files, now, r, before, f);
    if log.files != [] { LastIsFull(log.files); }
    SameNames(before, f, f.(records := f.records + [r]));
  }

  lemma StoreKeepsLog(log: Log, now: string, sql: string, stored: seq<string>)
    requires LogOk(log, stored) && WithinLimits(log, now, sql)
    ensures LogOk(Store(log, now, sql), stored + [sql])
    ensures Retained(Store(log, now, sql).files) == Retained(log.files) + [Record(NextNum(log), sql)]
  {
    hide FileOk, Retained, NamedBefore;
    StoreKeepsFiles(log, now, sql, stored);
    NextConsecutive(Retained(log.files), Record(NextNum(log), sql));
  }

  lemma {:induction false} TornTail(rs: seq<Record>, r: Record, n: nat)
    requires AllStorable(rs) && Storable(r) && n < |Encode(r)| && (n > 0 || rs == [])
    ensures ReadAll(EncodeAll(rs) + Encode(r)[..n]) == None
  {
    hide ReadRecord, Encode;
    TornRecord(r, n);
    if rs == [] {
      assert EncodeAll(rs) + Encode(r)[..n] == Encode(r)[..n];
    } else {
      var rest := EncodeAll(rs[1..]) + Encode(r)[..n];
      assert EncodeAll(rs) + Encode(r)[..n] == Encode(rs[0]) + rest;
      ReadWritten(rs[0], rest);
      TornTail(rs[1..], r, n);
    }
  }

  /** Where something was written or a file begun, some file ends inside a record or holds none. */
  lemma TornDiskUnreadable(log: Log, now: string, sql: string, written: nat)
    requires Writable(FilesForStore(log.files, now)) && Storable(Record(NextNum(log), sql))
    requires written < |Encode(Record(NextNum(log), sql))|
    ensures var disk := TornDisk(log, now, sql, written);
            if written > 0 || NeedsNewFile(log.files) then Torn(disk)
            else Writable(log.files) && disk == DiskOf(log.files)
  {
    hide ReadAll, Encode, NeedsNewFile;
    var files, r := FilesForStore(log.files, now), Record(NextNum(log), sql);
    var disk := TornDisk(log, now, sql, written);
    var f := files[|files| - 1];
    if written > 0 || NeedsNewFile(log.files) {
      TornTail(f.records, r, written);
      assert disk[|disk| - 1].bytes == EncodeAll(f.records) + Encode(r)[..written];
    } else {
      assert Encode(r)[..written] == [];
      assert EncodeAll(f.records) + [] == EncodeAll(f.records);
      assert disk == DiskOf(files);
    }
  }

  // ---- Reopening ----

  lemma DiskStrict()
    ensures Sorting.StrictOrder(DiskBefore)
  {
    CharsTotal();
    forall f, g | DiskBefore(f, g) ensures !DiskBefore(g, f) {
      LexAsymmetric(CharLess, Name(f.time, f.serial), Name(g.time, g.serial));
    }
    forall f, g, h | DiskBefore(f, g) && DiskBefore(g, h) ensures DiskBefore(f, h) {
      LexTransitive(CharLess, Name(f.time, f.serial), Name(g.time, g.serial), Name(h.time, h.serial));
    }
  }

  lemma {:induction false} ReadFilesBack(files: seq<LogFile>)
    requires AllFilesOk(files)
    ensures ReadFiles(DiskOf(files)) == Some(files)
  {
    hide EncodeAll, ReadAll, Bytes;
    if files != [] {
      RoundTrip(files[0].records);
      ReadFilesBack(files[1..]);
      assert DiskOf(files)[1..] == DiskOf(files[1..]);
      assert [files[0]] + files[1..] == files;
    }
  }

  lemma {:induction false} UnreadableFile(disk: seq<DiskFile>, i: nat)
    requires i < |disk| && ReadAll(disk[i].bytes) == None
    ensures ReadFiles(disk) == None
  {
    hide ReadAll;
    if i > 0 {
      UnreadableFile(disk[1..], i - 1);
    }
  }

  lemma TornRefused(disk: seq<DiskFile>, listing: seq<DiskFile>)
    requires Torn(disk) && multiset(listing) == multiset(disk)
    ensures Open(listing) == None
  {
    hide ReadAll, DiskBefore;
    var i :| 0 <= i < |disk| && ReadAll(disk[i].bytes) == None;
    var sorted := Sorting.Sort(DiskBefore, listing);
    Sorting.SortPermutes(DiskBefore, listing);
    Sorting.InMultiset(sorted, disk[i]);
    assert disk[i] in multiset(disk);
    var j :| 0 <= j < |sorted| && sorted[j] == disk[i];
    UnreadableFile(sorted, j);
  }

  lemma NotEmpty(f: LogFile)
    requires FileOk(f)
    ensures !IsEmpty(f)
  {
    hide AllStorable;
  }

  lemma LastRetained(files: seq<LogFile>)
    requires AllFilesOk(files)
    ensures LastSequence(files) == LastOf(Retained(files)) && SizesShow(files)
    ensures files != [] ==> Retained(files) != []
  {
    assert files == [] ==> Retained(files) == [];
    hide Retained;
    forall i | 0 <= i < |files| ensures !IsEmpty(files[i]) && files[i].records != [] {
      assert FileOk(files[i]);
      NotEmpty(files[i]);
    }
    hide FileOk, IsEmpty, AllFilesOk;
    if files != [] {
      var n := |files| - 1;
      assert files == files[..n] + [files[n]];
      RetainedLast(files[..n], files[n]);
    }
  }

  /** Whatever order the directory lists the files in, opening rebuilds the same log. */
  lemma Reopened(files: seq<LogFile>, listing: seq<DiskFile>, stored: seq<string>)
    requires FilesOk(files, stored) && multiset(listing) == multiset(DiskOf(files))
    ensures Open(listing) == Some(Log(files, LastOf(Retained(files))))
  {
    hide ReadFiles, Name, FileOk, Retained;
    DiskStrict();
    var disk := DiskOf(files);
    forall i, j | 0 <= i < j < |disk| ensures DiskBefore(disk[i], disk[j]) {
      assert NamedBefore(files[i], files[j]);
    }
    Sorting.SortFindsOrder(DiskBefore, disk, listing);
    ReadFilesBack(files);
    LastRetained(files);
  }

  /**
   * After a crash while storing, the log opens again exactly when not one byte of the record was
   * written and no new file had been begun for it.
   */
  lemma TornOpensIff(
    log: Log, now: string, sql: string, written: nat, stored: seq<string>, listing: seq<DiskFile>)
    requires LogOk(log, stored) && Storable(Record(NextNum(log), sql)) && Writable(FilesForStore(log.files, now))
    requires written < |Encode(Record(NextNum(log), sql))|
    requires multiset(listing) == multiset(TornDisk(log, now, sql, written))
    ensures Open(listing).Some? <==> written == 0 && !NeedsNewFile(log.files)
  {
    hide Open, Torn, TornDisk, FilesOk, NeedsNewFile, Encode;
    TornDiskUnreadable(log, now, sql, written);
    if written > 0 || NeedsNewFile(log.files) {
      TornRefused(TornDisk(log, now, sql, written), listing);
    } else {
      Reopened(log.files, listing, stored);
    }
  }

  // ---- What every step keeps ----

  lemma RetainedDrop(files: seq<LogFile>, n: nat) returns (m: nat)
    requires n <= |files|
    ensures m + |Retained(files[n..])| == |Retained(files)| && Retained(files[n..]) == Retained(files)[m..]
  {
    hide Retained;
    assert files == files[..n] + files[n..];
    RetainedConcat(files[..n], files[n..]);
    m := |Retained(files[..n])|;
  }

  lemma DropRecords(rs: seq<Record>, m: nat)
    requires Consecutive(rs) && m <= |rs|
    ensures Consecutive(rs[m..])
  {
    hide After, IsNum;
    var kept := rs[m..];
    forall i | 0 <= i < |kept| - 1 ensures kept[i + 1].num == After(kept[i].num) {
      assert rs[m + i + 1].num == After(rs[m + i].num);
    }
  }

  lemma DropFilesOk(files: seq<LogFile>, n: nat, stored: seq<string>)
    requires FilesOk(files, stored) && n <= |files|
    ensures FilesOk(files[n..], stored)
  {
    hide FileOk, NamedBefore, Retained, Bytes;
    var m := RetainedDrop(files, n);
    DropRecords(Retained(files), m);
    hide Consecutive;
    forall i, j | 0 <= i < j < |files[n..]| ensures NamedBefore(files[n..][i], files[n..][j]) {
      assert NamedBefore(files[n + i], files[n + j]);
    }
  }

  lemma DropNumber(num: Option<int>, rs: seq<Record>, k: int, m: nat)
    requires NumberOf(num, rs, k) && m <= k
    ensures NumberOf(num, rs[m..], k - m)
  {
  }

  lemma DropTwice(rs: seq<Record>, m: nat, k: nat)
    requires m <= k <= |rs|
    ensures rs[m..][k - m..] == rs[k..] && (rs[m..] != [] ==> LastOf(rs[m..]) == LastOf(rs))
  {
  }

  lemma DropDb(files: seq<LogFile>, n: nat, db: Db, stored: seq<string>) returns (m: nat)
    requires DbOk(files, db, stored) && n <= |files| && Done(files[n..], db, stored) >= 0
    ensures DbOk(files[n..], db, stored)
    ensures m <= Done(files, db, stored) <= |Retained(files)| && Retained(files[n..]) == Retained(files)[m..]
    ensures Done(files[n..], db, stored) == Done(files, db, stored) - m
  {
    hide Retained, Prefix, NumberOf;
    m := RetainedDrop(files, n);
    var k := Done(files, db, stored);
    assert 0 <= k <= |Retained(files)| by { NumberInRange(db.num, Retained(files), k); }
    DropNumber(db.num, Retained(files), k, m);
  }

  lemma NumberInRange(num: Option<int>, rs: seq<Record>, k: int)
    requires NumberOf(num, rs, k)
    ensures 0 <= k <= |rs|
  {
  }

  /** Dropping leading files whose records have all been executed keeps everything. */
  lemma DropFiles(files: seq<LogFile>, n: nat, db: Db, stored: seq<string>)
    requires FilesOk(files, stored) && DbOk(files, db, stored)
    requires n <= |files| && Done(files[n..], db, stored) >= 0
    ensures FilesOk(files[n..], stored) && DbOk(files[n..], db, stored)
    ensures Retained(files[n..])[Done(files[n..], db, stored)..] == Retained(files)[Done(files, db, stored)..]
    ensures Retained(files[n..]) != [] ==> LastOf(Retained(files[n..])) == LastOf(Retained(files))
  {
    hide Retained, FilesOk, DbOk, Done;
    DropFilesOk(files, n, stored);
    var m := DropDb(files, n, db, stored);
    DropTwice(Retained(files), m, Done(files, db, stored));
  }

  /** The number just before the first retained record selects no file at all. */
  lemma NothingCollected(files: seq<LogFile>, num: int, shuttingDown: bool)
    requires AllFilesOk(files) && Consecutive(Retained(files)) && |Retained(files)| < HALF && IsNum(num)
    requires files != [] && Front(files) == After(num)
    ensures |Retained(Completed(files, num, shuttingDown))| == |Retained(files)|
  {
    hide AllFilesOk, Completed, Retained;
    LastRetained(files);
    var rs := Retained(files);
    var all := [Record(num, "")] + rs;
    assert Consecutive(all);
    assert all[1..] == rs;
    CollectsOnlyCompleted(all, files, 0, shuttingDown);
    var n := |files| - |Completed(files, num, shuttingDown)|;
    var m := RetainedDrop(files, n);
  }

  /** Deleting any number of the files that garbage collection selects keeps every unexecuted record. */
  lemma CollectKeeps(files: seq<LogFile>, num: int, shuttingDown: bool, n: nat, db: Db, stored: seq<string>)
    requires FilesOk(files, stored) && DbOk(files, db, stored)
    requires n <= |files| - |Completed(files, num, shuttingDown)|
    requires db.num == Some(num) && (files != [] ==> AnchoredAt(files, db, stored))
    ensures Done(files[n..], db, stored) >= 0
  {
    hide AllFilesOk, NamedBefore, Retained, Completed, Consecutive, Front;
    var kept := Completed(files, num, shuttingDown);
    var c := |files| - |kept|;
    if files == [] {
      assert files[n..] == files;
    } else {
      LastRetained(files);
      var rs := Retained(files);
      if Done(files, db, stored) > 0 {
        assert rs[0..] == rs;
        CollectsOnlyCompleted(rs, files, Done(files, db, stored) - 1, shuttingDown);
      } else {
        NothingCollected(files, num, shuttingDown);
      }
      assert files[n..][c - n..] == files[c..] == kept;
      var m := RetainedDrop(files[n..], c - n);
    }
  }

  /** Dropping executed files that are not all the files keeps the database's number in place. */
  lemma DropAnchored(files: seq<LogFile>, n: nat, db: Db, stored: seq<string>)
    requires FilesOk(files, stored) && DbOk(files, db, stored) && AnchoredAt(files, db, stored)
    requires n < |files| && Done(files[n..], db, stored) >= 0
    ensures AnchoredAt(files[n..], db, stored)
  {
    var m := RetainedDrop(files, n);
    assert FileOk(files[n..][0]);
    LastRetained(files[n..]) by { DropFilesOk(files, n, stored); }
    hide Retained, AllFilesOk, NamedBefore;
    var rs := Retained(files);
    if m > 0 && Done(files[n..], db, stored) == 0 {
      assert rs[m].num == After(rs[m - 1].num);
    }
  }

  lemma StoreAnchored(log: Log, now: string, sql: string, db: Db, stored: seq<string>)
    requires LogOk(log, stored) && WithinLimits(log, now, sql) && AnchoredAt(log.files, db, stored)
    ensures AnchoredAt(Store(log, now, sql).files, db, stored + [sql])
  {
    hide FilesOk, Retained, Store, WithinLimits;
    StoreKeepsLog(log, now, sql, stored);
  }

  lemma StoreMakesAFile(log: Log, now: string, sql: string)
    ensures Store(log, now, sql).files != []
  {
  }

  lemma StoreKeepsCompleted(
    log: Log, now: string, sql: string, db: Db, lastCompleted: Option<int>, stored: seq<string>)
    requires LogOk(log, stored) && WithinLimits(log, now, sql) && CompletedOk(log.files, db, lastCompleted, stored)
    ensures CompletedOk(Store(log, now, sql).files, db, lastCompleted, stored + [sql])
  {
    hide FilesOk, Retained, Store, WithinLimits, AnchoredAt;
    StoreKeepsLog(log, now, sql, stored);
    StoreAnchored(log, now, sql, db, stored);
    StoreMakesAFile(log, now, sql);
  }

  lemma StoreKeeps(s: State, now: string, sql: string)
    requires Ok(s) && Step(s, StoreCommand(now, sql)).Some?
    ensures Ok(Step(s, StoreCommand(now, sql)).value)
  {
    hide LogOk, Retained, Store, WithinLimits, AnchoredAt, CompletedOk;
    StoreKeepsLog(s.log, now, sql, s.stored);
    if s.lastCompleted.Some? {
      StoreKeepsCompleted(s.log, now, sql, AtCompletion(s.db, s.finished, s.lastCompleted), s.lastCompleted, s.stored);
    }
    var rs, r, k := Retained(s.log.files), Record(NextNum(s.log), sql), Done(s.log.files, s.db, s.stored);
    assert k <= |rs|;
    assert s.queue + [] == s.queue;
    assert (rs + [r])[k..] == rs[k..] + [r];
  }

  lemma ExecuteKeepsDb(files: seq<LogFile>, db: Db, stored: seq<string>)
    requires FilesOk(files, stored) && DbOk(files, db, stored) && Done(files, db, stored) < |Retained(files)|
    ensures var r := Retained(files)[Done(files, db, stored)];
            && DbOk(files, Run1(db, r), stored)
            && Done(files, Run1(db, r), stored) == Done(files, db, stored) + 1
  {
    hide Retained, AllFilesOk, NamedBefore;
    var rs, k := Retained(files), Done(files, db, stored);
    assert rs[k].sql == stored[|db.executed|];
    assert stored[..|db.executed| + 1] == stored[..|db.executed|] + [stored[|db.executed|]];
  }

  lemma ExecuteKeeps(s: State)
    requires Ok(s) && Step(s, Execute).Some?
    ensures Ok(Step(s, Execute).value)
  {
    hide Retained, FilesOk, WithinLimits, Store, Open, ReplayList, TornDisk, FilesForStore, Completed, DiskOf, Writable;
    var rs, k := Retained(s.log.files), Done(s.log.files, s.db, s.stored);
    assert rs[k..] == s.queue + AsSeq(s.pending);
    assert s.queue[0] == rs[k];
    ExecuteKeepsDb(s.log.files, s.db, s.stored);
    assert rs[k + 1..] == rs[k..][1..] == s.queue[1..] + AsSeq(s.pending);
    assert (s.db.executed + [rs[k].sql])[..|s.db.executed|] == s.db.executed;
  }

  lemma ReplayKeeps(s: State)
    requires Ok(s) && Step(s, ReplayOne).Some?
    ensures Ok(Step(s, ReplayOne).value)
  {
    hide Retained, FilesOk, WithinLimits, Store, Open, ReplayList, TornDisk, FilesForStore, Completed, DiskOf, Writable;
    var rs, k := Retained(s.log.files), Done(s.log.files, s.db, s.stored);
    assert s.todo[0] == rs[k];
    ExecuteKeepsDb(s.log.files, s.db, s.stored);
    assert rs[k + 1..] == s.todo[1..];
  }

  lemma FilesParts(files: seq<LogFile>, stored: seq<string>)
    requires FilesOk(files, stored)
    ensures AllFilesOk(files)
  {
    hide AllFilesOk, NamedBefore, Retained;
  }

  /** Garbage collection during operation: the invariant of log, database and queue. */
  lemma CollectLog(log: Log, num: int, db: Db, stored: seq<string>)
    requires LogOk(log, stored) && DbOk(log.files, db, stored)
    requires db.num == Some(num) && Done(log.files, db, stored) > 0
    ensures var kept := Completed(log.files, num, false);
            && LogOk(log.(files := kept), stored) && DbOk(kept, db, stored)
            && 0 <= Done(kept, db, stored) <= |Retained(kept)| && kept != [] && AnchoredAt(kept, db, stored)
            && Retained(kept)[Done(kept, db, stored)..] == Retained(log.files)[Done(log.files, db, stored)..]
  {
    assert log.files == [] ==> Retained(log.files) == [];
    hide FilesOk, DbOk, Completed, Retained;
    var files := log.files;
    assert files != [] by { DoneInRange(files, db, stored); }
    var kept := Completed(files, num, false);
    var n := |files| - |kept|;
    CollectKeeps(files, num, false, n, db, stored);
    DropFiles(files, n, db, stored);
    DropAnchored(files, n, db, stored);
    FilesParts(files, stored);
    FilesParts(kept, stored);
    LastRetained(files);
    LastRetained(kept);
    DoneInRange(kept, db, stored);
  }

  lemma DoneInRange(files: seq<LogFile>, db: Db, stored: seq<string>)
    requires DbOk(files, db, stored)
    ensures 0 <= Done(files, db, stored) <= |Retained(files)|
  {
    hide Retained;
  }

  /** After a completion at most one file is left, or the first one still holds a command to be executed. */
  lemma CompleteCollects(s: State)
    requires Ok(s) && Step(s, Complete).Some?
    ensures var t := Step(s, Complete).value;
            && t.log.files == s.log.files[|s.log.files| - |t.log.files|..]
            && (|t.log.files| > 1 ==> |Retained(t.log.files[1..])| < |s.stored| - |s.db.executed|)
  {
    hide NamedBefore, Retained, Consecutive, Completed, Rotated, CompletedOk, WithinLimits, Store, Open, ReplayList,
        TornDisk, FilesForStore, DiskOf, Writable, Encode;
    var files := s.log.files;
    var rs, k := Retained(files), Done(files, s.db, s.stored);
    LastRetained(files);
    assert rs[0..] == rs;
    CollectsOnlyCompleted(rs, files, k - 1, false);
  }

  lemma CompleteKeeps(s: State)
    requires Ok(s) && Step(s, Complete).Some?
    ensures Ok(Step(s, Complete).value)
  {
    hide LogOk, DbOk, Done, Completed, Retained, WithinLimits, Store, Open, ReplayList, TornDisk, FilesForStore,
        DiskOf, Writable, AnchoredAt;
    CollectLog(s.log, s.finished.value, s.db, s.stored);
  }

  /** What was in the files before a torn write is still in front. */
  lemma TornCovers(log: Log, now: string, sql: string, written: nat)
    requires Writable(FilesForStore(log.files, now)) && NextNum(log) >= 0
    requires written <= |Encode(Record(NextNum(log), sql))|
    ensures Covers(TornDisk(log, now, sql, written), log.files)
  {
    hide NeedsNewFile, EncodeAll, Encode, NextSerial;
    var all := FilesForStore(log.files, now);
    forall i | 0 <= i < |log.files| ensures AllStorable(log.files[i].records) {
      assert all[i] == log.files[i] && AllStorable(all[i].records);
    }
  }

  lemma CrashStoringKeeps(s: State, now: string, sql: string, written: nat)
    requires Ok(s) && Step(s, CrashStoring(now, sql, written)).Some?
    ensures Ok(Step(s, CrashStoring(now, sql, written)).value)
  {
    hide TornDisk, Torn, FilesOk, DbOk, WithinLimits, Encode, Retained, AllFilesOk, Covers;
    StoreKeepsFiles(s.log, now, sql, s.stored);
    TornCovers(s.log, now, sql, written);
    TornDiskUnreadable(s.log, now, sql, written);
  }

  lemma FinishedAnchored(s: State)
    requires Ok(s) && s.Running? && s.finished.Some?
    ensures FilesOk(s.log.files, s.stored) && DbOk(s.log.files, s.db, s.stored)
    ensures s.db.num == s.finished && AnchoredAt(s.log.files, s.db, s.stored)
  {
    hide FilesOk, DbOk, Done, Retained, Front;
  }

  lemma CrashCompletingKeeps(s: State, removed: nat)
    requires Ok(s) && Step(s, CrashCompleting(removed)).Some?
    ensures Ok(Step(s, CrashCompleting(removed)).value)
  {
    hide Completed, LogOk, FilesOk, DbOk, Retained, Done, AnchoredAt, WithinLimits, Store, Open, ReplayList, TornDisk,
        FilesForStore;
    FinishedAnchored(s);
    CollectKeeps(s.log.files, s.finished.value, false, removed, s.db, s.stored);
    DropFiles(s.log.files, removed, s.db, s.stored);
  }

  lemma ShutdownCollects(s: State, removed: nat)
    requires Ok(s) && Step(s, Shutdown(removed)).Some?
    ensures removed <= |s.log.files| && Done(s.log.files[removed..], s.db, s.stored) >= 0
  {
    hide FilesOk, Completed, Retained, WithinLimits, Store, Open, ReplayList, TornDisk, FilesForStore, DiskOf,
        Writable, Prefix;
    var files := s.log.files;
    FilesParts(files, s.stored);
    LastRetained(files);
    if s.lastCompleted.Some? {
      var db := AtCompletion(s.db, s.finished, s.lastCompleted);
      CollectKeeps(files, s.lastCompleted.value, true, removed, db, s.stored);
    } else {
      assert files[0..] == files;
    }
  }

  lemma ShutdownKeeps(s: State, removed: nat)
    requires Ok(s) && Step(s, Shutdown(removed)).Some?
    ensures Ok(Step(s, Shutdown(removed)).value)
  {
    hide FilesOk, DbOk, Done, Completed, Retained, WithinLimits, Store, Open, ReplayList, TornDisk, FilesForStore;
    ShutdownCollects(s, removed);
    DropFiles(s.log.files, removed, s.db, s.stored);
  }

  lemma ReplaysTheMissing(s: State)
    requires s.Down? && FilesOk(s.files, s.stored) && DbOk(s.files, s.db, s.stored) && Recoverable(s)
    ensures ReplayList(Log(s.files, LastOf(Retained(s.files))), s.db.num)
         == Retained(s.files)[Done(s.files, s.db, s.stored)..]
  {
    hide AllFilesOk, NamedBefore, Retained, Consecutive, SizesShow, ReplayList;
    LastRetained(s.files);
    ReplayExactIff(Log(s.files, LastOf(Retained(s.files))), s.db.num, Done(s.files, s.db, s.stored));
  }

  lemma RestartKeeps(s: State, listing: seq<DiskFile>)
    requires Ok(s) && Recoverable(s) && Step(s, Restart(listing)).Some?
    ensures Ok(Step(s, Restart(listing)).value)
  {
    hide Open, Torn, FilesOk, Retained, ReplayList, Recoverable;
    if Torn(s.disk) {
      TornRefused(s.disk, listing);
    } else {
      Reopened(s.files, listing, s.stored);
      ReplaysTheMissing(s);
      hide DbOk;
    }
  }

  lemma EnqueueKeeps(s: State)
    requires Ok(s) && Step(s, Enqueue).Some?
    ensures Ok(Step(s, Enqueue).value)
  {
    hide LogOk, DbOk, Retained, AnchoredAt;
    assert s.queue + [s.pending.value] + [] == s.queue + [s.pending.value];
  }

  lemma RestKeeps(s: State, a: Action)
    requires Ok(s) && Step(s, a).Some? && (a.FinishReplay? || a.Crash?)
    ensures Ok(Step(s, a).value)
  {
    hide FilesOk, DbOk, Retained, AnchoredAt, WithinLimits, Store, Open, ReplayList, TornDisk, Completed;
  }

  lemma StepKeeps(s: State, a: Action)
    requires Ok(s) && Step(s, a).Some? && (a.Restart? ==> Recoverable(s))
    ensures Ok(Step(s, a).value)
  {
    hide Ok, WithinLimits, Store, Open, ReplayList, TornDisk, FilesForStore, Completed;
    match a
    case StoreCommand(now, sql) => StoreKeeps(s, now, sql);
    case Enqueue => EnqueueKeeps(s);
    case Execute => ExecuteKeeps(s);
    case Complete => CompleteKeeps(s);
    case Restart(listing) => RestartKeeps(s, listing);
    case ReplayOne => ReplayKeeps(s);
    case FinishReplay => RestKeeps(s, a);
    case Crash => RestKeeps(s, a);
    case CrashStoring(now, sql, written) => CrashStoringKeeps(s, now, sql, written);
    case CrashCompleting(removed) => CrashCompletingKeeps(s, removed);
    case Shutdown(removed) => ShutdownKeeps(s, removed);
  }

  /** A crash that leaves a file begun or a record cut. */
  predicate Breaks(s: State, a: Action) {
    a.CrashStoring? && s.Running? && (a.written > 0 || NeedsNewFile(s.log.files))
  }

  /** The run crashes in that way and then restarts. */
  predicate RestartsBroken(s: State, run: seq<Action>)
    decreases |run|
  {
    |run| > 1 && (Breaks(s, run[0]) || (Step(s, run[0]).Some? && RestartsBroken(Step(s, run[0]).value, run[1..])))
  }

  ghost predicate Intact(s: State) {
    !s.Refused? && (s.Down? ==> Writable(s.files) && s.disk == DiskOf(s.files))
  }

  lemma StepIntact(s: State, a: Action)
    requires Ok(s) && Intact(s) && Step(s, a).Some? && !Breaks(s, a)
    ensures Intact(Step(s, a).value)
  {
    hide WithinLimits, Store, Open, ReplayList, TornDisk, FilesForStore, Completed, Retained, DbOk;
    if a.CrashStoring? {
      StoreKeepsFiles(s.log, a.now, a.sql, s.stored);
      TornDiskUnreadable(s.log, a.now, a.sql, a.written);
    } else if a.Restart? {
      Reopened(s.files, a.listing, s.stored);
    }
  }

  lemma BrokenRefused(s: State, a: Action, b: Action)
    requires Ok(s) && Breaks(s, a) && Step(s, a).Some? && Step(Step(s, a).value, b).Some?
    ensures Step(Step(s, a).value, b).value.Refused?
  {
    hide WithinLimits, Store, Open, ReplayList, TornDisk, FilesForStore, Completed, Retained, DbOk, Torn;
    StoreKeepsFiles(s.log, a.now, a.sql, s.stored);
    TornDiskUnreadable(s.log, a.now, a.sql, a.written);
    TornRefused(Step(s, a).value.disk, b.listing);
  }

  lemma RefusedStays(s: State, run: seq<Action>)
    requires s.Refused?
    ensures Run(s, run) == if run == [] then Some(s) else None
  {
  }

  lemma {:induction false} RefusedIff(s: State, run: seq<Action>)
    requires Ok(s) && Intact(s) && AlwaysRecoverable(s, run) && Run(s, run).Some?
    ensures Run(s, run).value.Refused? <==> RestartsBroken(s, run)
    decreases |run|
  {
    hide Ok, Step, Recoverable, Breaks;
    if run != [] {
      var t := Step(s, run[0]).value;
      StepKeeps(s, run[0]);
      if !Breaks(s, run[0]) {
        StepIntact(s, run[0]);
        RefusedIff(t, run[1..]);
      } else {
        BreaksDown(s, run[0]);
        if |run| > 1 {
          BrokenRefused(s, run[0], run[1]);
          var u := Step(t, run[1]).value;
          assert Run(t, run[1..]) == Run(u, run[1..][1..]);
          RefusedStays(u, run[1..][1..]);
        }
      }
    }
  }

  lemma BreaksDown(s: State, a: Action)
    requires Breaks(s, a) && Step(s, a).Some?
    ensures Step(s, a).value.Down?
  {
    hide WithinLimits, TornDisk;
  }

  lemma {:induction false} RunKeeps(s: State, run: seq<Action>)
    requires Ok(s) && AlwaysRecoverable(s, run) && Run(s, run).Some?
    ensures Ok(Run(s, run).value)
    decreases |run|
  {
    hide Ok, Step, Recoverable;
    if run != [] {
      StepKeeps(s, run[0]);
      RunKeeps(Step(s, run[0]).value, run[1..]);
    }
  }

  lemma InitOk(num: Option<int>)
    requires num.Some? ==> IsNum(num.value)
    ensures Ok(Init(num))
  {
  }

  function FilesOf(s: State): seq<LogFile> {
    if s.Down? || s.Refused? then s.files else s.log.files
  }

  /** The records end with every stored command from the k-th on. */
  ghost predicate HoldsFrom(rs: seq<Record>, k: nat, stored: seq<string>) {
    forall i | k <= i < |stored| :: |stored| - i <= |rs| && rs[|rs| - (|stored| - i)].sql == stored[i]
  }

  /**
   * Executed commands are the first given ones, each once and in order; every other one is in a whole
   * record of a retained file, which is on the disk if the node is down; and nothing is missing once
   * nothing is queued.
   */
  ghost predicate Recovered(s: State, given: seq<string>) {
    && s.db.executed <= given && HoldsFrom(Retained(FilesOf(s)), |s.db.executed|, given)
    && (s.Down? || s.Refused? ==> Covers(s.disk, s.files))
    && (s.Running? && s.queue == [] && s.pending == None ==> s.db.executed == given)
    && (s.Replaying? && s.todo == [] ==> s.db.executed == given)
  }

  lemma UnexecutedRetained(files: seq<LogFile>, db: Db, stored: seq<string>)
    requires FilesOk(files, stored) && DbOk(files, db, stored)
    ensures db.executed <= stored
    ensures HoldsFrom(Retained(files), |db.executed|, stored)
    ensures Done(files, db, stored) <= |Retained(files)|
    ensures Done(files, db, stored) == |Retained(files)| ==> db.executed == stored
  {
    hide Retained, AllFilesOk, NamedBefore, Consecutive;
    assert stored[..|stored|] == stored;
  }

  lemma OkRecovered(s: State)
    requires Ok(s)
    ensures Recovered(s, s.stored)
  {
    hide Retained, FilesOk, DbOk, Done, AnchoredAt, Covers;
    UnexecutedRetained(FilesOf(s), s.db, s.stored);
    if (s.Running? && s.queue == [] && s.pending == None) || (s.Replaying? && s.todo == []) {
      var rs, k := Retained(FilesOf(s)), Done(FilesOf(s), s.db, s.stored);
      assert 0 <= k by { DoneInRange(FilesOf(s), s.db, s.stored); }
      assert |rs[k..]| == 0;
    }
  }

  /**
   * Whatever is given, executed, completed, crashed, torn, shut down, reopened and replayed, in any
   * order and any number of times: Recovered holds, and the node ends up refusing to start exactly
   * when it was restarted after a crash that had begun a record or a file.
   */
  lemma CrashRecovery(num: Option<int>, run: seq<Action>)
    requires num.Some? ==> IsNum(num.value)
    requires AlwaysRecoverable(Init(num), run) && Run(Init(num), run).Some?
    ensures Recovered(Run(Init(num), run).value, Given(run))
    ensures Run(Init(num), run).value.Refused? <==> RestartsBroken(Init(num), run)
  {
    hide Ok, Step, Run, Given, AlwaysRecoverable, Recovered, RestartsBroken;
    InitOk(num);
    RunKeeps(Init(num), run);
    RunGives(Init(num), run);
    assert [] + Given(run) == Given(run);
    OkRecovered(Run(Init(num), run).value);
    RefusedIff(Init(num), run);
  }

  /** Over every such run a file is closed exactly when it has grown past 100 MiB. */
  lemma FilesAreFilled(num: Option<int>, run: seq<Action>)
    requires num.Some? ==> IsNum(num.value)
    requires AlwaysRecoverable(Init(num), run) && Run(Init(num), run).Some?
    ensures var files := FilesOf(Run(Init(num), run).value);
            && Rotated(files)
            && forall i | 0 <= i < |files| ::
                 files[i].records != [] && Bytes(files[i].records[..|files[i].records| - 1]) <= FILE_LIMIT
  {
    hide Step, Run, AlwaysRecoverable, Retained, DbOk, Bytes, Rotated, Covers, Torn, AnchoredAt;
    InitOk(num);
    RunKeeps(Init(num), run);
    var files := FilesOf(Run(Init(num), run).value);
    assert AllFilesOk(files) && Rotated(files);
    forall i | 0 <= i < |files| ensures FileOk(files[i]) {
    }
  }

  // ---- When restarts are recoverable ----

  ghost predicate Anchored(s: State) {
    AnchoredAt(FilesOf(s), s.db, s.stored)
  }

  lemma AnchoredRecoverable(s: State)
    requires Ok(s) && Anchored(s)
    ensures Recoverable(s)
  {
    if s.Down? && Done(s.files, s.db, s.stored) == 0 {
      PredecessorPrecedes(s.db.num.value, Retained(s.files));
    }
  }

  lemma CompleteAnchored(s: State, n: nat)
    requires Ok(s) && Anchored(s) && s.Running? && s.finished.Some?
    requires n <= |s.log.files| - |Completed(s.log.files, s.finished.value, false)|
    ensures AnchoredAt(s.log.files[n..], s.db, s.stored)
  {
    var files := s.log.files;
    CollectKeeps(files, s.finished.value, false, n, s.db, s.stored);
    assert files == [] ==> Retained(files) == [];
    hide FilesOk, DbOk, Retained, Completed;
    DropAnchored(files, n, s.db, s.stored);
  }

  lemma RestartAnchored(s: State, listing: seq<DiskFile>)
    requires Ok(s) && Anchored(s) && Step(s, Restart(listing)).Some?
    ensures Anchored(Step(s, Restart(listing)).value)
  {
    hide Open, Torn, FilesOk, Retained, ReplayList;
    if Torn(s.disk) { TornRefused(s.disk, listing); } else { Reopened(s.files, listing, s.stored); }
  }

  /** An execution anchors the database's number, whatever it was before. */
  lemma ExecuteAnchors(s: State, a: Action)
    requires Ok(s) && Step(s, a).Some? && (a.Execute? || a.ReplayOne?)
    ensures Anchored(Step(s, a).value)
  {
    hide FilesOk, Retained, WithinLimits, Store, Open, ReplayList, TornDisk, FilesForStore, Completed, DiskOf, Writable;
  }

  /** A shutdown that leaves no file. */
  predicate Empties(s: State, a: Action) {
    a.Shutdown? && s.Running? && 0 < a.removed == |s.log.files|
  }

  lemma ShutdownAnchored(s: State, removed: nat)
    requires Ok(s) && Anchored(s) && Step(s, Shutdown(removed)).Some? && !Empties(s, Shutdown(removed))
    ensures Anchored(Step(s, Shutdown(removed)).value)
  {
    hide LogOk, FilesOk, DbOk, Done, Retained, AnchoredAt, Completed, WithinLimits, Store, Open, ReplayList, TornDisk,
        FilesForStore, DiskOf, Writable;
    ShutdownCollects(s, removed);
    RunningFiles(s);
    if removed == 0 {
      assert s.log.files[0..] == s.log.files;
    } else {
      DropAnchored(s.log.files, removed, s.db, s.stored);
    }
  }

  lemma RunningFiles(s: State)
    requires Ok(s) && s.Running?
    ensures FilesOk(s.log.files, s.stored) && DbOk(s.log.files, s.db, s.stored)
  {
    hide FilesOk, DbOk, Done, Retained, AnchoredAt;
  }

  /** Only a shutdown that deletes every file can lose the anchor. */
  lemma StepAnchored(s: State, a: Action)
    requires Ok(s) && Anchored(s) && Step(s, a).Some? && !Empties(s, a)
    ensures Anchored(Step(s, a).value)
  {
    hide WithinLimits, Store, Open, ReplayList, TornDisk, FilesForStore, LogOk, DbOk, Retained, Completed,
        DiskOf, Writable, AnchoredAt, Empties;
    match a
    case StoreCommand(now, sql) => StoreAnchored(s.log, now, sql, s.db, s.stored);
    case Complete =>
      var files := s.log.files;
      CompleteAnchored(s, |files| - |Completed(files, s.finished.value, false)|);
    case CrashCompleting(removed) => CompleteAnchored(s, removed);
    case Restart(listing) => RestartAnchored(s, listing);
    case Execute => ExecuteAnchors(s, a);
    case ReplayOne => ExecuteAnchors(s, a);
    case Shutdown(removed) => ShutdownAnchored(s, removed);
    case _ =>
  }

  predicate NeverEmptied(s: State, run: seq<Action>)
    decreases |run|
  {
    run != [] ==>
      && !Empties(s, run[0])
      && (Step(s, run[0]).Some? ==> NeverEmptied(Step(s, run[0]).value, run[1..]))
  }

  /** From an anchored state every run that never empties the log is recoverable. */
  lemma {:induction false} CrashesStayRecoverable(s: State, run: seq<Action>)
    requires Ok(s) && Anchored(s) && NeverEmptied(s, run)
    ensures AlwaysRecoverable(s, run)
    decreases |run|
  {
    hide Ok, Anchored, Step, Recoverable, Empties;
    if run != [] {
      AnchoredRecoverable(s);
      if Step(s, run[0]).Some? {
        StepKeeps(s, run[0]);
        StepAnchored(s, run[0]);
        CrashesStayRecoverable(Step(s, run[0]).value, run[1..]);
      }
    }
  }

  lemma {:induction false} RunConcat(s: State, run: seq<Action>, more: seq<Action>)
    requires AlwaysRecoverable(s, run) && Run(s, run).Some? && AlwaysRecoverable(Run(s, run).value, more)
    ensures AlwaysRecoverable(s, run + more) && Run(s, run + more) == Run(Run(s, run).value, more)
    decreases |run|
  {
    hide Step, Recoverable;
    if run == [] {
      assert run + more == more;
    } else {
      assert (run + more)[1..] == run[1..] + more;
      RunConcat(Step(s, run[0]).value, run[1..], more);
    }
  }

  /**
   * No hypothesis on restarts is needed from an execution on: after any recoverable beginning, a
   * continuation that starts with an executed or replayed command and never empties the log
   * executes the given commands, each once and in order.
   */
  lemma RecoveryFromExecution(num: Option<int>, run: seq<Action>, more: seq<Action>)
    requires num.Some? ==> IsNum(num.value)
    requires AlwaysRecoverable(Init(num), run) && Run(Init(num), run).Some?
    requires more != [] && (more[0].Execute? || more[0].ReplayOne?)
    requires NeverEmptied(Run(Init(num), run).value, more) && Run(Run(Init(num), run).value, more).Some?
    ensures Run(Init(num), run + more).Some? && Recovered(Run(Init(num), run + more).value, Given(run + more))
    ensures AlwaysRecoverable(Init(num), run + more)
  {
    hide Step, Ok, Init, Given, Recovered, Empties, Recoverable, Anchored;
    InitOk(num);
    RunKeeps(Init(num), run);
    var s := Run(Init(num), run).value;
    var t := Step(s, more[0]).value;
    ExecuteAnchors(s, more[0]);
    StepKeeps(s, more[0]);
    CrashesStayRecoverable(t, more[1..]);
    RunConcat(Init(num), run, more);
    CrashRecovery(num, run + more);
  }

  // ---- Nothing is stuck ----

  function PendingCount(s: State): nat
    requires s.Running?
  {
    3 * |s.queue| + (if s.pending.Some? then 4 else 0) + (if s.finished.Some? then 1 else 0)
  }

  predicate Drained(s: State) {
    s.Running? && s.queue == [] && s.pending == None && s.finished == None
  }

  /** What the two threads do next when nobody stores a command and nothing crashes. */
  function NextWork(s: State): Action
    requires s.Running?
  {
    if s.finished.Some? then Complete else if s.queue != [] then Execute else Enqueue
  }

  lemma WorkAdvances(s: State)
    requires s.Running? && !Drained(s)
    ensures var t := Step(s, NextWork(s)); t.Some? && t.value.Running? && PendingCount(t.value) < PendingCount(s)
  {
    hide WithinLimits, Store, Open, ReplayList, TornDisk, FilesForStore, Completed, DiskOf, Writable, Encode;
  }

  /** The run continues by itself: no further command is given and every restart in it is recoverable. */
  ghost predicate Continues(s: State, run: seq<Action>, t: State) {
    Run(s, run) == Some(t) && AlwaysRecoverable(s, run) && Given(run) == []
  }

  lemma ContinueOne(s: State, a: Action, run: seq<Action>, t: State)
    requires Step(s, a).Some? && Continues(Step(s, a).value, run, t) && !a.StoreCommand?
    requires a.Restart? ==> Recoverable(s)
    ensures Continues(s, [a] + run, t)
  {
    hide Step, Recoverable;
    assert ([a] + run)[1..] == run;
  }

  lemma {:induction false} WorkDrains(s: State) returns (run: seq<Action>, t: State)
    requires s.Running?
    ensures Continues(s, run, t) && Drained(t)
    decreases PendingCount(s)
  {
    hide Step, PendingCount, Drained, NextWork, Continues;
    if Drained(s) {
      run, t := [], s;
      NothingMore(s);
    } else {
      WorkAdvances(s);
      var a := NextWork(s);
      run, t := WorkDrains(Step(s, a).value);
      WorkIsNoInput(s);
      ContinueOne(s, a, run, t);
      run := [a] + run;
    }
  }

  lemma NothingMore(s: State)
    ensures Continues(s, [], s)
  {
  }

  lemma WorkIsNoInput(s: State)
    requires s.Running?
    ensures !NextWork(s).StoreCommand? && !NextWork(s).Restart?
  {
  }

  lemma {:induction false} ReplayDrains(s: State) returns (run: seq<Action>, t: State)
    requires s.Replaying?
    ensures Continues(s, run, t) && Drained(t)
    decreases |s.todo|
  {
    hide Continues, WithinLimits, Store, Open, ReplayList, TornDisk, FilesForStore, Completed, DiskOf, Writable, Encode;
    var a := if s.todo == [] then FinishReplay else ReplayOne;
    if s.todo == [] {
      run, t := WorkDrains(Step(s, a).value);
    } else {
      run, t := ReplayDrains(Step(s, a).value);
    }
    ContinueOne(s, a, run, t);
    run := [a] + run;
  }

  /**
   * From every state that is not broken the node gets to execute every command it was given: there is
   * a continuation, without further commands, after which nothing is queued and all of them have been
   * executed, each once and in order.
   */
  lemma CanCatchUp(num: Option<int>, run: seq<Action>) returns (more: seq<Action>, t: State)
    requires num.Some? ==> IsNum(num.value)
    requires AlwaysRecoverable(Init(num), run) && Run(Init(num), run).Some?
    requires Intact(Run(Init(num), run).value) && Recoverable(Run(Init(num), run).value)
    ensures Run(Init(num), run + more) == Some(t) && Drained(t) && t.db.executed == Given(run)
  {
    hide Ok, Step, Init, Given, Recoverable;
    InitOk(num);
    RunKeeps(Init(num), run);
    var s := Run(Init(num), run).value;
    if s.Running? {
      more, t := WorkDrains(s);
    } else if s.Replaying? {
      more, t := ReplayDrains(s);
    } else {
      var a := Restart(s.disk);
      RestartReplays(s);
      more, t := ReplayDrains(Step(s, a).value);
      ContinueOne(s, a, more, t);
      more := [a] + more;
    }
    RunConcat(Init(num), run, more);
    GivenConcat(run, more);
    CrashRecovery(num, run + more);
  }

  lemma RestartReplays(s: State)
    requires Ok(s) && s.Down? && Intact(s)
    ensures Step(s, Restart(s.disk)).Some? && Step(s, Restart(s.disk)).value.Replaying?
  {
    hide Open, FilesOk, DbOk, Covers, ReplayList, Torn;
    Reopened(s.files, s.disk, s.stored);
  }

  lemma {:induction false} GivenConcat(run: seq<Action>, more: seq<Action>)
    requires Given(more) == []
    ensures Given(run + more) == Given(run)
    decreases |run|
  {
    if run == [] {
      assert run + more == more;
    } else {
      assert (run + more)[1..] == run[1..] + more;
      GivenConcat(run[1..], more);
    }
  }

  // ---- A clean shutdown restarts the numbering, the database keeps its number ----

  /** Executed something since start-up, drained: a clean shutdown deletes every file. */
  lemma ShutdownEmpties(s: State)
    requires Ok(s) && s.Running? && s.queue == [] && s.pending == None && s.finished == None && s.lastCompleted.Some?
    ensures Completed(s.log.files, s.lastCompleted.value, true) == []
  {
    hide AllFilesOk, NamedBefore, Retained, Consecutive, Completed;
    var files := s.log.files;
    var rs, k := Retained(files), Done(files, s.db, s.stored);
    assert k == |rs| by { assert |rs[k..]| == 0; }
    LastRetained(files);
    assert rs[0..] == rs;
    CollectsOnlyCompleted(rs, files, k - 1, true);
  }

  lemma EmptyRestart(db: Db, stored: seq<string>)
    ensures Run(Down([], [], db, stored), [Restart([]), FinishReplay])
         == Some(Running(Log([], None), [], None, None, None, db, stored))
  {
    var down := Down([], [], db, stored);
    assert Open([]) == Some(Log([], None));
    hide Open;
    assert Step(down, Restart([])) == Some(Replaying(Log([], None), [], db, stored));
    assert [Restart([]), FinishReplay][1..] == [FinishReplay];
  }

  lemma OkWritable(s: State)
    requires Ok(s) && s.Running?
    ensures Writable(s.log.files) && (s.finished.None? && s.lastCompleted.Some? ==> s.db.num == s.lastCompleted)
  {
    hide Retained, DbOk, NamedBefore;
  }

  lemma ShutdownStep(s: State)
    requires Ok(s) && s.Running? && s.queue == [] && s.pending == None && s.finished == None && s.lastCompleted.Some?
    ensures Step(s, Shutdown(|s.log.files|)) == Some(Down([], [], s.db, s.stored)) && s.db.num == s.lastCompleted
  {
    hide Ok, Retained, Completed, WithinLimits, Store, Open, ReplayList, TornDisk, FilesForStore;
    ShutdownEmpties(s);
    OkWritable(s);
    assert s.log.files[|s.log.files|..] == [] && DiskOf([]) == [];
  }

  lemma RunFirst(s: State, run: seq<Action>)
    requires run != [] && Step(s, run[0]).Some?
    ensures Run(s, run) == Run(Step(s, run[0]).value, run[1..])
  {
    hide Step;
  }

  /** The next life numbers from 0 again while the database still holds the last life's number. */
  lemma NumberingRestarts(s: State)
    requires Ok(s) && s.Running? && s.queue == [] && s.pending == None && s.finished == None && s.lastCompleted.Some?
    ensures Run(s, [Shutdown(|s.log.files|), Restart([]), FinishReplay])
         == Some(Running(Log([], None), [], None, None, None, s.db, s.stored))
    ensures s.db.num == s.lastCompleted
  {
    hide Run, Ok, Step;
    ShutdownStep(s);
    EmptyRestart(s.db, s.stored);
    RunFirst(s, [Shutdown(|s.log.files|), Restart([]), FinishReplay]);
    assert [Shutdown(|s.log.files|), Restart([]), FinishReplay][1..] == [Restart([]), FinishReplay];
  }

  /**
   * The first command of a life, stored but not yet executed when the node crashes, is replayed
   * exactly when the database's number comes circularly before 0. It is lost when the database
   * holds no number, and when it holds a small one from an earlier life.
   */
  lemma FirstCommandIff(num: Option<int>, now: string, sql: string, listing: seq<DiskFile>)
    requires (num.Some? ==> IsNum(num.value)) && WithinLimits(Log([], None), now, sql)
    requires var files := Store(Log([], None), now, sql).files;
             Writable(files) && multiset(listing) == multiset(DiskOf(files))
    ensures Open(listing) == Some(Store(Log([], None), now, sql))
    ensures ReplayList(Store(Log([], None), now, sql), num)
         == if num.Some? && Less(num.value, 0) then [Record(0, sql)] else []
  {
    var rs := [Record(0, sql)];
    assert Retained([]) == [] && [] + rs == rs;
    hide Retained, WithinLimits;
    StoreKeepsLog(Log([], None), now, sql, []);
    var log := Store(Log([], None), now, sql);
    hide Store, Open;
    assert Retained(log.files) == rs && log.last == Some(0);
    Reopened(log.files, listing, [sql]) by { assert [] + [sql] == [sql]; }
    LastRetained(log.files);
    hide FilesOk, Consecutive, SizesShow;
    ReplayExactIff(log, num, 0);
    assert rs[0..] == rs;
  }
}
