/** The synchronisation state machine: when cached rows are flushed, rolled back or kept. */
module Synchronization {
  import opened Common
  import opened BlockCache

  datatype Mode = Start | Wait | ReindexWait | Reindex | P2P | Live | Interrupted | Stopped

  const NO_IRREVERSIBLE := 0x7fff_ffff
  const BLOCKS_PER_FLUSH := 1000

  /** What reaches the database: a massive flush, one live block, or a live rollback to a block. */
  datatype Entry = Massive(data: Tables, num: int) | LiveBlock(data: Tables, num: int) | Rewind(num: int)

  /** Options, and what the database said at start-up about an interrupted massive sync. */
  datatype Config = Config(first: int, interrupted: bool, psqlHead: int)

  /**
   * mode, cache, irreversible and lastFlushed are the serializer's. The rest is history: what the
   * database was sent, the collected rows of the current chain, the chain's head and last final
   * block, and a block number between the rows sent and the rows cached.
   */
  datatype Sync = Sync(
    mode: Mode, cache: Tables, irreversible: int, lastFlushed: int,
    log: seq<Entry>, chain: Tables, head: int, final: int, mark: int)

  /** The drain on the way into LIVE makes at most `rounds` rounds before an interrupt request is seen. */
  datatype Event =
    | Apply(num: int, rows: Tables, canLive: bool)
    | FailedBlock(rows: Tables)
    | Irreversible(num: int)
    | Fork(num: int)
    | PreReindex(canLive: bool)
    | PostReindex(stop: bool)
    | EndOfSyncing(rounds: nat)
    | Close

  function Init(head: int, final: int): Sync {
    Sync(Start, EMPTY, NO_IRREVERSIBLE, 0, [], EMPTY, head, final, final)
  }

  // ---- Flushing ----

  function Contents(log: seq<Entry>): Tables {
    if log == [] then EMPTY
    else
      var before := Contents(log[..|log| - 1]);
      match log[|log| - 1]
      case Massive(data, _) => Joined(before, data)
      case LiveBlock(data, _) => Joined(before, data)
      case Rewind(n) => Lower(before, n)
  }

  /** force_trigger_flush_with_all_data; None where the live dumper's assertion or a missing dumper stops the node. */
  function Dump(s: Sync, data: Tables, num: int): (r: Option<Sync>)
    ensures r.Some? ==> r.value == s.(log := r.value.log)
  {
    if data.blocks == [] then Some(s)
    else
      match s.mode
      case Start => None
      case Stopped => None
      case Wait => Some(s)
      case ReindexWait => Some(s)
      case Reindex => Some(s.(log := s.log + [Massive(data, num)]))
      case P2P => Some(s.(log := s.log + [Massive(data, num)]))
      case _ => if |data.blocks| == 1 then Some(s.(log := s.log + [LiveBlock(data, num)])) else None
  }

  /** The cache itself is handed over; a real dumper empties it. */
  function DumpCache(s: Sync, num: int): Option<Sync> {
    if s.cache.blocks == [] then Some(s)
    else
      match Dump(s, s.cache, num)
      case None => None
      case Some(t) => Some(if s.mode == Wait || s.mode == ReindexWait then t else t.(cache := EMPTY, mark := s.head))
  }

  function Later(m: int, n: int): int {
    if n > m then n else m
  }

  /** move_irreveresible_blocks followed by a flush of what was moved. */
  function DumpIrreversible(s: Sync): Option<Sync> {
    if s.irreversible == NO_IRREVERSIBLE then Some(s)
    else
      var n := s.irreversible;
      Dump(s.(cache := Upper(s.cache, n), mark := Later(s.mark, n)), Lower(s.cache, n), n)
  }

  /** flush_all_data_to_reversible: one block at a time, until none is left or the node is interrupted. */
  function DumpBlocks(s: Sync, rounds: nat): Option<Sync>
    decreases rounds
  {
    if s.cache.blocks == [] || rounds == 0 then Some(s)
    else
      var n := s.cache.blocks[0].block;
      match Dump(s.(cache := Upper(s.cache, n), mark := Later(s.mark, n)), Lower(s.cache, n), n)
      case None => None
      case Some(t) => DumpBlocks(t, rounds - 1)
  }

  function Trigger(s: Sync, num: int): Option<Sync> {
    match s.mode
    case Reindex => if num % BLOCKS_PER_FLUSH == 0 then DumpCache(s, num) else Some(s)
    case Live => DumpCache(s, num)
    case P2P =>
      if s.irreversible == NO_IRREVERSIBLE || s.irreversible - s.lastFlushed < BLOCKS_PER_FLUSH then Some(s)
      else
        (match DumpIrreversible(s)
         case None => None
         case Some(t) => Some(t.(lastFlushed := s.irreversible)))
    case _ => Some(s)
  }

  // ---- Changing state ----

  function EnterP2P(s: Sync): Sync {
    s.(mode := P2P, irreversible := NO_IRREVERSIBLE, lastFlushed := 0)
  }

  function EnterLive(s: Sync, rounds: nat): Option<Sync> {
    match if s.mode == Start then Some(s) else DumpIrreversible(s)
    case None => None
    case Some(t) =>
      match DumpBlocks(t.(mode := Live), rounds)
      case None => None
      case Some(u) => Some(if u.cache.blocks == [] then u else u.(mode := Interrupted))
  }

  /** on_block and on_first_block; both hand an empty cache to update_state. */
  function OnBlock(c: Config, s: Sync, num: int, canLive: bool): Option<Sync> {
    var t := if s.mode == Start then s.(mode := Wait) else s;
    if num < c.first then Some(t)
    else
      match t.mode
      case Wait =>
        if canLive then Some(t.(mode := Live))
        else if c.interrupted && num != c.psqlHead + 1 then None
        else Some(EnterP2P(t))
      case ReindexWait => Some(t.(mode := Reindex))
      case _ => Some(t)
  }

  predicate Collects(m: Mode) {
    m == Reindex || m == P2P || m == Live
  }

  /** Blocks replayed from the block log are final. */
  function Collect(s: Sync, num: int, rows: Tables): Sync {
    if Collects(s.mode) then
      var final := if s.mode == Reindex then num else s.final;
      s.(head := num, cache := Joined(s.cache, rows), chain := Joined(s.chain, rows), final := final)
    else s.(head := num)
  }

  /** revert_to_snapshot: cut every table back to its size before the block. */
  function Reverted(t: Tables, before: Tables): Tables
    requires forall w :: |Get(before, w)| <= |Get(t, w)|
  {
    assert forall w :: |Get(before, w)| <= |Get(t, w)|;
    assert |Get(before, Blocks)| <= |Get(t, Blocks)| && |Get(before, Transactions)| <= |Get(t, Transactions)|;
    assert |Get(before, Multisig)| <= |Get(t, Multisig)| && |Get(before, Operations)| <= |Get(t, Operations)|;
    assert |Get(before, Accounts)| <= |Get(t, Accounts)|
        && |Get(before, AccountOperations)| <= |Get(t, AccountOperations)|;
    assert |Get(before, Hardforks)| <= |Get(t, Hardforks)|;
    Tables(t.blocks[..|before.blocks|], t.transactions[..|before.transactions|], t.multisig[..|before.multisig|],
           t.operations[..|before.operations|], t.accounts[..|before.accounts|],
           t.accountOperations[..|before.accountOperations|], t.hardforks[..|before.hardforks|])
  }

  function Step(c: Config, s: Sync, e: Event): Option<Sync> {
    match e
    case Apply(num, rows, canLive) =>
      (match OnBlock(c, s, num, canLive)
       case None => None
       case Some(t) => Trigger(Collect(t, num, rows), num))
    case FailedBlock(rows) =>
      Some(if Collects(s.mode) then s.(cache := Reverted(Joined(s.cache, rows), s.cache)) else s)
    case Irreversible(n) => Some(s.(irreversible := n, final := n))
    case Fork(n) =>
      var t := s.(head := n, chain := Lower(s.chain, n));
      Some(if s.mode == P2P then t.(cache := Lower(s.cache, n))
           else if s.mode == Live then t.(log := s.log + [Rewind(n)], mark := n)
           else t)
    case PreReindex(canLive) => if s.mode == Live then None else Some(s.(mode := if canLive then Wait else ReindexWait))
    case PostReindex(stop) =>
      if s.mode == Reindex then
        match DumpCache(s, s.head)
        case None => None
        case Some(t) => Some(if stop then t.(mode := Stopped) else EnterP2P(t))
      else if s.mode == ReindexWait then
        match if stop then DumpCache(s, s.head) else Some(s)
        case None => None
        case Some(t) => Some(t.(mode := if stop then Stopped else Wait))
      else Some(s)
    case EndOfSyncing(rounds) => if s.mode == Live then Some(s) else EnterLive(s, rounds)
    case Close =>
      (match if s.mode == Live || s.mode == Interrupted then DumpIrreversible(s) else DumpCache(s, s.head)
       case None => None
       case Some(t) => Some(t.(mode := Stopped)))
  }

  /** An interrupted massive sync goes on only with the very next block, and LIVE is never left for a replay. */
  predicate Refuses(c: Config, s: Sync, e: Event) {
    match e
    case Apply(num, _, canLive) =>
      (s.mode == Start || s.mode == Wait) && !canLive && num >= c.first && c.interrupted && num != c.psqlHead + 1
    case PreReindex(_) => s.mode == Live
    case _ => false
  }

  // ---- What the chain promises ----

  predicate BlockRows(rows: Tables, num: int) {
    && |rows.blocks| == 1 && rows.blocks[0].block == num
    && forall w :: OfBlock(Get(rows, w), num)
  }

  predicate OfBlock(rows: seq<Row>, num: int) {
    forall i | 0 <= i < |rows| :: rows[i].block == num
  }

  /**
   * Blocks come one after another, finality only grows, forks keep final blocks, an interrupted node
   * only shuts down, and a replay begins with nothing cached.
   */
  predicate Legal(s: Sync, e: Event) {
    && s.mode != Stopped && (s.mode == Interrupted ==> e.Close?)
    && match e
       case Apply(num, rows, _) => num == s.head + 1 && BlockRows(rows, num)
       case FailedBlock(_) => true
       case Irreversible(n) => s.final <= n <= s.head && n < NO_IRREVERSIBLE
       case Fork(n) => s.final <= n <= s.head
       case PreReindex(_) => s.cache == EMPTY
       case PostReindex(_) => true
       case EndOfSyncing(_) => true
       case Close => true
  }

  function Run(c: Config, s: Sync, run: seq<Event>): Option<Sync>
    decreases |run|
  {
    if run == [] then Some(s)
    else if !Legal(s, run[0]) then None
    else
      match Step(c, s, run[0])
      case None => None
      case Some(t) => Run(c, t, run[1..])
  }

  // ---- The chain, from the events alone ----

  /**
   * What the events say of the chain: the rows of its blocks since collecting began, its head and its
   * last final block; the block last told to be irreversible, forgotten where a P2P sync begins;
   * whether blocks are collected, and whether they come from the block log.
   */
  datatype Chain = Chain(rows: Tables, head: int, final: int, told: int, collecting: bool, replaying: bool)

  function Begun(head: int, final: int): Chain {
    Chain(EMPTY, head, final, NO_IRREVERSIBLE, false, false)
  }

  /** Collecting begins with the configured first block, or with the end of the synchronisation. */
  function ChainAfter(first: int, h: Chain, e: Event): Chain {
    match e
    case Apply(num, rows, canLive) =>
      var collecting := h.collecting || num >= first;
      var syncBegins := collecting && !h.collecting && !h.replaying && !canLive;
      h.(head := num, collecting := collecting,
         rows := if collecting then Joined(h.rows, rows) else h.rows,
         final := if collecting && h.replaying then num else h.final,
         told := if syncBegins then NO_IRREVERSIBLE else h.told)
    case FailedBlock(_) => h
    case Irreversible(n) => h.(final := n, told := n)
    case Fork(n) => h.(head := n, rows := Lower(h.rows, n))
    case PreReindex(canLive) => h.(collecting := false, replaying := !canLive)
    case PostReindex(stop) =>
      h.(replaying := false, told := if h.replaying && h.collecting && !stop then NO_IRREVERSIBLE else h.told)
    case EndOfSyncing(_) => h.(collecting := true, replaying := false)
    case Close => h
  }

  function ChainFrom(first: int, h: Chain, run: seq<Event>): Chain
    decreases |run|
  {
    if run == [] then h else ChainFrom(first, ChainAfter(first, h, run[0]), run[1..])
  }

  function ChainOf(c: Config, head: int, final: int, run: seq<Event>): Chain {
    ChainFrom(c.first, Begun(head, final), run)
  }

  /** The node's history agrees with the events. */
  predicate Follows(s: Sync, h: Chain) {
    && s.chain == h.rows && s.head == h.head && s.final == h.final && s.irreversible == h.told
    && (s.mode != Stopped && s.mode != Interrupted ==>
          && (h.collecting <==> Collects(s.mode))
          && (h.replaying <==> s.mode == Reindex || s.mode == ReindexWait))
  }

  // ---- The invariant ----

  ghost predicate Below(t: Tables, n: int) {
    forall w :: AllUpTo(Get(t, w), n)
  }

  ghost predicate Above(t: Tables, n: int) {
    forall w :: AllBeyond(Get(t, w), n)
  }

  /** Rows sent, then rows cached, are the rows of the current chain; the mark separates them. */
  ghost predicate Conserved(s: Sync) {
    && Joined(Contents(s.log), s.cache) == s.chain && Ordered(s.chain) && Below(s.chain, s.head)
    && Below(Contents(s.log), s.mark) && Above(s.cache, s.mark) && s.mark <= s.head && s.final <= s.head
  }

  /** A live entry holds one block row and only rows of that block, a massive one only rows up to its number. */
  ghost predicate EntryOk(e: Entry) {
    (e.LiveBlock? ==> BlockRows(e.data, e.num)) && (e.Massive? ==> Below(e.data, e.num))
  }

  ghost predicate EntriesOk(log: seq<Entry>) {
    forall i | 0 <= i < |log| :: EntryOk(log[i])
  }

  ghost predicate ModeOk(s: Sync) {
    match s.mode
    case Reindex => s.final == s.head && s.mark <= s.final
    case P2P => s.mark <= s.final && s.lastFlushed <= s.mark
        && (s.irreversible == NO_IRREVERSIBLE || s.mark <= s.irreversible <= s.final)
    case Live => s.cache == EMPTY
    case Interrupted => s.irreversible == NO_IRREVERSIBLE || s.irreversible <= s.mark
    case Stopped => true
    case _ => s.cache == EMPTY && s.mark <= s.final
  }

  ghost predicate Good(s: Sync) {
    && Conserved(s) && ModeOk(s) && EntriesOk(s.log)
    && (s.irreversible == NO_IRREVERSIBLE || s.irreversible <= s.final) && 0 <= s.final && 0 <= s.mark
  }

  // ---- Flushes conserve rows ----

  lemma JoinedAssoc(a: Tables, b: Tables, c: Tables)
    ensures Joined(Joined(a, b), c) == Joined(a, Joined(b, c))
  {
    forall w ensures Get(Joined(Joined(a, b), c), w) == Get(Joined(a, Joined(b, c)), w) {
      assert Get(a, w) + Get(b, w) + Get(c, w) == Get(a, w) + (Get(b, w) + Get(c, w));
    }
    SameTables(Joined(Joined(a, b), c), Joined(a, Joined(b, c)));
  }

  lemma JoinedEmpty(a: Tables)
    ensures Joined(a, EMPTY) == a && Joined(EMPTY, a) == a
  {
    forall w ensures Get(Joined(a, EMPTY), w) == Get(a, w) == Get(Joined(EMPTY, a), w) {
      assert Get(a, w) + Get(EMPTY, w) == Get(a, w);
      assert Get(EMPTY, w) + Get(a, w) == Get(a, w);
    }
    SameTables(Joined(a, EMPTY), a);
    SameTables(Joined(EMPTY, a), a);
  }

  lemma ContentsAppend(log: seq<Entry>, e: Entry)
    ensures Contents(log + [e]) == if e.Rewind? then Lower(Contents(log), e.num) else Joined(Contents(log), e.data)
  {
    assert (log + [e])[..|log|] == log;
  }

  /** What is sent and what is cached are the two parts of the chain around the mark. */
  lemma CacheIsUpper(s: Sync)
    requires Conserved(s)
    ensures Ordered(s.cache) && s.cache == Upper(s.chain, s.mark) && Contents(s.log) == Lower(s.chain, s.mark)
  {
    hide UpTo, Ordered, Contents;
    forall w ensures Get(s.cache, w) == Get(Upper(s.chain, s.mark), w)
        && Get(Contents(s.log), w) == Get(Lower(s.chain, s.mark), w) {
      SplitUnique(Get(Contents(s.log), w), Get(s.cache, w), s.mark);
    }
    SameTables(s.cache, Upper(s.chain, s.mark));
    SameTables(Contents(s.log), Lower(s.chain, s.mark));
    SplitOrdered(s.chain, s.mark);
  }

  lemma JoinedBelow(a: Tables, b: Tables, n: int)
    requires Below(a, n) && Below(b, n)
    ensures Below(Joined(a, b), n)
  {
    hide Get;
    forall w ensures AllUpTo(Get(Joined(a, b), w), n) {
      assert AllUpTo(Get(a, w), n) && AllUpTo(Get(b, w), n);
    }
  }

  lemma BelowLater(a: Tables, m: int, n: int)
    requires Below(a, m) && m <= n
    ensures Below(a, n)
  {
    forall w ensures AllUpTo(Get(a, w), n) {
      assert AllUpTo(Get(a, w), m);
    }
  }

  lemma AboveBoth(t: Tables, m: int, n: int)
    requires Above(t, m) && Ordered(t)
    ensures Above(Upper(t, n), Later(m, n))
  {
    SplitOrdered(t, n);
    hide UpTo, Ordered, Get;
    forall w ensures AllBeyond(Get(Upper(t, n), w), Later(m, n)) {
      assert AllBeyond(Get(t, w), m) && AllBeyond(Get(Upper(t, n), w), n);
      assert Get(Upper(t, n), w) == Beyond(Get(t, w), n);
    }
  }

  /** Moving rows up to n from the cache to the database keeps the whole. */
  lemma MoveConserves(s: Sync, n: int, log: seq<Entry>)
    requires Conserved(s) && n <= s.head && Contents(log) == Joined(Contents(s.log), Lower(s.cache, n))
    ensures Conserved(s.(cache := Upper(s.cache, n), mark := Later(s.mark, n), log := log))
  {
    hide Lower, Upper, Contents, Joined, Ordered, Above, Below;
    CacheIsUpper(s);
    SplitOrdered(s.cache, n);
    JoinedAssoc(Contents(s.log), Lower(s.cache, n), Upper(s.cache, n));
    BelowLater(Contents(s.log), s.mark, Later(s.mark, n));
    LowerBelow(s.cache, n, Later(s.mark, n));
    JoinedBelow(Contents(s.log), Lower(s.cache, n), Later(s.mark, n));
    AboveBoth(s.cache, s.mark, n);
  }

  lemma LowerBelow(t: Tables, n: int, m: int)
    requires Ordered(t) && n <= m
    ensures Below(Lower(t, n), m)
  {
    SplitOrdered(t, n);
    hide Lower, Ordered, Get;
    BelowLater(Lower(t, n), n, m) by { assert Below(Lower(t, n), n); }
  }

  lemma DumpConserves(s: Sync, n: int, num: int)
    requires Conserved(s) && n <= s.head && n <= num && (s.mode == Reindex || s.mode == P2P)
    ensures var t := Dump(s.(cache := Upper(s.cache, n), mark := Later(s.mark, n)), Lower(s.cache, n), num);
            t.Some? && Conserved(t.value) && (EntriesOk(s.log) ==> EntriesOk(t.value.log))
  {
    hide Lower, Upper, Contents, Joined, Ordered, Above, Below, Conserved;
    var data := Lower(s.cache, n);
    if data.blocks == [] {
      LowerEmpty(s, n);
      JoinedEmpty(Contents(s.log));
      MoveConserves(s, n, s.log);
    } else {
      ContentsAppend(s.log, Massive(data, num));
      MoveConserves(s, n, s.log + [Massive(data, num)]);
      assert Below(data, num) by { CacheIsUpper(s); LowerBelow(s.cache, n, num); }
    }
  }

  lemma LowerEmpty(s: Sync, n: int)
    requires Conserved(s) && Lower(s.cache, n).blocks == []
    ensures Lower(s.cache, n) == EMPTY
  {
    hide Lower, Ordered;
    CacheIsUpper(s);
    SplitOrdered(s.cache, n);
    NoBlocksNoRows(Lower(s.cache, n));
  }

  /** Everything up to the first cached block is that block. */
  lemma FirstBlockRows(t: Tables)
    requires Ordered(t) && t.blocks != []
    ensures var n := t.blocks[0].block; BlockRows(Lower(t, n), n)
  {
    hide UpTo, Lower, Upper;
    var n := t.blocks[0].block;
    var low := Lower(t, n);
    SplitOrdered(t, n);
    FirstBlockStays(t);
    forall w ensures OfBlock(Get(low, w), n) {
      assert AllUpTo(Get(low, w), n) && Covered(Get(low, w), low.blocks);
      CoveredByOne(Get(low, w), low.blocks, n);
    }
  }

  lemma CoveredByOne(rows: seq<Row>, blocks: seq<Row>, n: int)
    requires Covered(rows, blocks) && |blocks| == 1 && blocks[0].block == n
    ensures OfBlock(rows, n)
  {
    forall i | 0 <= i < |rows| ensures rows[i].block == n {
      assert HasBlock(blocks, rows[i].block);
    }
  }

  lemma FirstBlockStays(t: Tables)
    requires Strict(t.blocks) && t.blocks != []
    ensures Lower(t, t.blocks[0].block).blocks == [t.blocks[0]]
  {
    var n := t.blocks[0].block;
    SplitUnique([t.blocks[0]], t.blocks[1..], n) by {
      assert AllBeyond(t.blocks[1..], n);
    }
    assert [t.blocks[0]] + t.blocks[1..] == t.blocks;
    assert Get(Lower(t, n), Blocks) == UpTo(Get(t, Blocks), n);
  }

  function Numbers(rows: seq<Row>): seq<int> {
    seq(|rows|, i requires 0 <= i < |rows| => rows[i].block)
  }

  /** The block numbers of the live flushes, in order. */
  function LiveNumbers(log: seq<Entry>): seq<int> {
    if log == [] then []
    else LiveNumbers(log[..|log| - 1]) + (if log[|log| - 1].LiveBlock? then [log[|log| - 1].num] else [])
  }

  lemma LiveNumbersAppend(log: seq<Entry>, e: Entry)
    ensures LiveNumbers(log + [e]) == LiveNumbers(log) + (if e.LiveBlock? then [e.num] else [])
  {
    assert (log + [e])[..|log|] == log;
  }

  lemma FirstBlockMoves(s: Sync)
    requires Conserved(s) && s.cache.blocks != []
    ensures var n := s.cache.blocks[0].block;
            && n <= s.head && BlockRows(Lower(s.cache, n), n) && |Lower(s.cache, n).blocks| == 1
            && Upper(s.cache, n).blocks == s.cache.blocks[1..]
  {
    hide Contents;
    CacheIsUpper(s);
    FirstBlockRows(s.cache);
    FirstBlockLeaves(s.cache.blocks);
    HeadBound(s);
    assert Get(Upper(s.cache, s.cache.blocks[0].block), Blocks)
        == Beyond(Get(s.cache, Blocks), s.cache.blocks[0].block);
  }

  /** One round of the loop: the first cached block leaves alone, in a live flush of its own. */
  lemma DumpBlockConserves(s: Sync)
    requires Conserved(s) && s.mode == Live && s.cache.blocks != []
    ensures var n := s.cache.blocks[0].block;
            var t := Dump(s.(cache := Upper(s.cache, n), mark := Later(s.mark, n)), Lower(s.cache, n), n);
            && t.Some? && Conserved(t.value) && (EntriesOk(s.log) ==> EntriesOk(t.value.log))
            && LiveNumbers(t.value.log) == LiveNumbers(s.log) + [n]
            && t.value.cache.blocks == s.cache.blocks[1..]
  {
    hide Lower, Upper, Contents, Conserved, BlockRows, LiveNumbers;
    var n := s.cache.blocks[0].block;
    FirstBlockMoves(s);
    var e := LiveBlock(Lower(s.cache, n), n);
    ContentsAppend(s.log, e);
    LiveNumbersAppend(s.log, e);
    MoveConserves(s, n, s.log + [e]);
  }

  lemma FirstBlockLeaves(blocks: seq<Row>)
    requires Strict(blocks) && blocks != []
    ensures Beyond(blocks, blocks[0].block) == blocks[1..]
  {
    assert [blocks[0]] + blocks[1..] == blocks;
    SplitUnique([blocks[0]], blocks[1..], blocks[0].block);
  }

  lemma HeadBound(s: Sync)
    requires Conserved(s) && s.cache.blocks != []
    ensures s.cache.blocks[0].block <= s.head
  {
    hide Contents;
    assert AllUpTo(Get(s.chain, Blocks), s.head);
    assert Get(s.chain, Blocks)[|Contents(s.log).blocks|] == s.cache.blocks[0];
  }

  function Fewer(m: nat, n: nat): nat {
    if m < n then m else n
  }

  /** Each cached block is flushed exactly once, alone and in order, until none is left or the node is interrupted. */
  lemma {:induction false} DumpBlocksConserves(s: Sync, rounds: nat)
    requires Conserved(s) && s.mode == Live
    ensures var t := DumpBlocks(s, rounds);
            var k := Fewer(rounds, |s.cache.blocks|);
            && t.Some? && Conserved(t.value) && (EntriesOk(s.log) ==> EntriesOk(t.value.log))
            && LiveNumbers(t.value.log) == LiveNumbers(s.log) + Numbers(s.cache.blocks[..k])
            && t.value.cache.blocks == s.cache.blocks[k..]
            && t.value == s.(log := t.value.log, mark := t.value.mark, cache := t.value.cache)
            && t.value.mark >= s.mark && (k == |s.cache.blocks| ==> t.value.cache == EMPTY)
    decreases rounds
  {
    hide Conserved, Lower, Upper, Contents, EntriesOk, LiveNumbers, Numbers;
    if s.cache.blocks == [] || rounds == 0 {
      assert s.cache.blocks == [] ==> s.cache == EMPTY by { CachedNothing(s); }
      NoNumbers(LiveNumbers(s.log), s.cache.blocks);
    } else {
      var n, blocks := s.cache.blocks[0].block, s.cache.blocks;
      DumpBlockConserves(s);
      var t := Dump(s.(cache := Upper(s.cache, n), mark := Later(s.mark, n)), Lower(s.cache, n), n).value;
      DumpBlocksConserves(t, rounds - 1);
      assert Fewer(rounds - 1, |t.cache.blocks|) == Fewer(rounds, |blocks|) - 1;
      FirstThenRest(LiveNumbers(s.log), blocks, Fewer(rounds, |blocks|));
    }
  }

  lemma FirstThenRest(numbers: seq<int>, blocks: seq<Row>, k: nat)
    requires 0 < k <= |blocks|
    ensures numbers + [blocks[0].block] + Numbers(blocks[1..][..k - 1]) == numbers + Numbers(blocks[..k])
    ensures blocks[1..][k - 1..] == blocks[k..]
  {
    assert Numbers(blocks[..k]) == [blocks[0].block] + Numbers(blocks[1..][..k - 1]);
  }

  lemma NoNumbers(numbers: seq<int>, blocks: seq<Row>)
    ensures numbers + Numbers(blocks[..0]) == numbers
  {
  }

  /** A round of the loop is one unfolding. */
  lemma DumpBlocksRound(s: Sync, rounds: nat)
    requires s.cache.blocks != [] && rounds > 0
    ensures var n := s.cache.blocks[0].block;
            var t := Dump(s.(cache := Upper(s.cache, n), mark := Later(s.mark, n)), Lower(s.cache, n), n);
            t.Some? ==> DumpBlocks(s, rounds) == DumpBlocks(t.value, rounds - 1)
  {
    hide Dump, Upper, Lower;
  }

  lemma DumpBlocksDone(s: Sync, rounds: nat)
    requires s.cache.blocks == [] || rounds == 0
    ensures DumpBlocks(s, rounds) == Some(s)
  {
  }

  lemma CachedNothing(s: Sync)
    requires Conserved(s)
    ensures s.cache.blocks == [] ==> s.cache == EMPTY
  {
    hide Contents, Ordered, Above, Below;
    CacheIsUpper(s);
    if s.cache.blocks == [] { NoBlocksNoRows(s.cache); }
  }

  /** Handing over the whole cache; a live node may only ever hold one block. */
  lemma DumpCacheConserves(s: Sync, num: int)
    requires Conserved(s) && EntriesOk(s.log) && Collects(s.mode)
    requires s.mode == Live ==> s.cache == EMPTY || BlockRows(s.cache, num)
    requires s.mode != Live ==> num == s.head
    ensures var t := DumpCache(s, num);
            && t.Some? && Conserved(t.value) && EntriesOk(t.value.log) && t.value.cache == EMPTY
            && t.value == s.(log := t.value.log, mark := t.value.mark, cache := EMPTY)
            && (t.value.mark == s.mark || t.value.mark == s.head)
  {
    hide Contents, Joined, Ordered, Above, Below, BlockRows;
    if s.cache.blocks == [] {
      CacheIsUpper(s);
      NoBlocksNoRows(s.cache);
    } else {
      assert BlockRows(s.cache, num) ==> |s.cache.blocks| == 1 by { OneRow(s.cache, num); }
      var e := if s.mode == Live then LiveBlock(s.cache, num) else Massive(s.cache, num);
      CacheBelowHead(s);
      ContentsAppend(s.log, e);
      JoinedEmpty(s.chain);
      EmptyAbove(s.head);
    }
  }

  lemma OneRow(t: Tables, num: int)
    ensures BlockRows(t, num) ==> |t.blocks| == 1
  {
  }

  lemma EmptyAbove(n: int)
    ensures Above(EMPTY, n)
  {
  }

  // ---- What every event keeps ----

  lemma IrreversibleKeeps(s: Sync)
    requires Conserved(s) && EntriesOk(s.log) && (s.irreversible == NO_IRREVERSIBLE || s.irreversible <= s.head)
    requires s.mode == Reindex || s.mode == P2P || s.cache == EMPTY || s.irreversible == NO_IRREVERSIBLE
          || s.irreversible <= s.mark
    ensures var t := DumpIrreversible(s);
            && t.Some? && Conserved(t.value) && EntriesOk(t.value.log)
            && t.value == s.(log := t.value.log, mark := t.value.mark, cache := t.value.cache)
            && (s.irreversible == NO_IRREVERSIBLE ==> t.value == s)
            && (s.irreversible != NO_IRREVERSIBLE ==> t.value.mark == Later(s.mark, s.irreversible))
            && (s.cache == EMPTY ==> t.value.cache == EMPTY && t.value.log == s.log)
            && LiveNumbers(t.value.log) == LiveNumbers(s.log)
  {
    hide Lower, Upper, Contents, Conserved, LiveNumbers;
    if s.irreversible != NO_IRREVERSIBLE {
      var n := s.irreversible;
      SplitEmpty(n);
      if s.mode == Reindex || s.mode == P2P {
        DumpConserves(s, n, n);
        LiveNumbersAppend(s.log, Massive(Lower(s.cache, n), n));
      } else {
        assert Lower(s.cache, n) == EMPTY by { if n <= s.mark { NothingLower(s, n); } }
        JoinedEmpty(Contents(s.log));
        MoveConserves(s, n, s.log);
      }
    }
  }

  /** What is cached lies above the mark. */
  lemma NothingLower(s: Sync, n: int)
    requires Conserved(s) && n <= s.mark
    ensures Lower(s.cache, n) == EMPTY
  {
    hide Contents, Ordered, Joined;
    forall w ensures Get(Lower(s.cache, n), w) == Get(EMPTY, w) {
      assert AllBeyond(Get(s.cache, w), s.mark);
      SplitUnique([], Get(s.cache, w), n);
      assert [] + Get(s.cache, w) == Get(s.cache, w);
    }
    SameTables(Lower(s.cache, n), EMPTY);
  }

  lemma SplitEmpty(n: int)
    ensures Lower(EMPTY, n) == EMPTY && Upper(EMPTY, n) == EMPTY
  {
    SameTables(Lower(EMPTY, n), EMPTY);
    SameTables(Upper(EMPTY, n), EMPTY);
  }

  /** Where the drain leaves the node. */
  lemma DrainKeeps(s: Sync, rounds: nat)
    requires Good(s.(mode := Stopped)) && s.mode == Live
    requires s.cache == EMPTY || s.irreversible == NO_IRREVERSIBLE || s.irreversible <= s.mark
    ensures var t := DumpBlocks(s, rounds);
            && t.Some? && (t.value.cache.blocks == [] ==> Good(t.value))
            && (t.value.cache.blocks != [] ==> Good(t.value.(mode := Interrupted)))
            && (rounds >= |s.cache.blocks| ==> t.value.cache.blocks == []) && t.value.mode == Live
  {
    hide Conserved, EntriesOk, DumpBlocks, LiveNumbers, Numbers;
    SameRows(s.(mode := Stopped), Live, s.irreversible, s.lastFlushed);
    DumpBlocksConserves(s, rounds);
    var t := DumpBlocks(s, rounds).value;
    CachedNothing(t);
    SameRows(t, Interrupted, t.irreversible, t.lastFlushed);
  }

  /** Before the drain the irreversible rows leave in the massive way. */
  lemma MoveKeeps(s: Sync)
    requires Good(s) && s.mode != Live && s.mode != Interrupted && s.mode != Stopped
    ensures var t := if s.mode == Start then Some(s) else DumpIrreversible(s);
            && t.Some? && Good(t.value.(mode := Stopped)) && |t.value.cache.blocks| <= |s.cache.blocks|
            && (t.value.cache == EMPTY || s.irreversible == NO_IRREVERSIBLE || s.irreversible <= t.value.mark)
            && t.value.irreversible == s.irreversible
  {
    hide Conserved, EntriesOk, DumpIrreversible, LiveNumbers;
    FinalBound(s);
    var t := s;
    if s.mode != Start {
      IrreversibleKeeps(s);
      IrreversibleBlocks(s);
      t := DumpIrreversible(s).value;
    }
    SameRows(t, Stopped, t.irreversible, t.lastFlushed);
  }

  /** The drain ends with an empty cache unless the node was interrupted first. */
  lemma EnterLiveKeeps(s: Sync, rounds: nat)
    requires Good(s) && s.mode != Live && s.mode != Interrupted && s.mode != Stopped
    ensures var t := EnterLive(s, rounds);
            && t.Some? && Good(t.value) && t.value.mode == (if t.value.cache.blocks == [] then Live else Interrupted)
            && (rounds >= |s.cache.blocks| ==> t.value.mode == Live)
  {
    hide Good, DumpIrreversible, DumpBlocks;
    MoveKeeps(s);
    var t := if s.mode == Start then s else DumpIrreversible(s).value;
    DrainKeeps(t.(mode := Live), rounds) by { assert t.(mode := Live).(mode := Stopped) == t.(mode := Stopped); }
  }

  lemma FinalBound(s: Sync)
    requires Conserved(s)
    ensures s.final <= s.head && s.mark <= s.head
  {
  }

  /** Conservation speaks of the rows only. */
  lemma SameRows(s: Sync, m: Mode, irreversible: int, lastFlushed: int)
    requires Conserved(s)
    ensures Conserved(s.(mode := m, irreversible := irreversible, lastFlushed := lastFlushed))
  {
  }

  // ---- Appending a block ----

  lemma AppendOrdered(t: Tables, rows: Tables, n: int)
    requires Ordered(t) && Below(t, n - 1) && BlockRows(rows, n)
    ensures Ordered(Joined(t, rows)) && Below(Joined(t, rows), n)
  {
    var all := Joined(t, rows);
    assert AllUpTo(Get(t, Blocks), n - 1);
    assert Get(all, Blocks) == Get(t, Blocks) + Get(rows, Blocks);
    assert all.blocks[|t.blocks|].block == n;
    assert HasBlock(all.blocks, n);
    forall w ensures Sorted(Get(all, w)) && Covered(Get(all, w), all.blocks) && AllUpTo(Get(all, w), n) {
      assert AllUpTo(Get(t, w), n - 1) && OfBlock(Get(rows, w), n);
      AppendTable(Get(t, w), Get(rows, w), t.blocks, all.blocks, n);
    }
  }

  lemma AppendTable(old': seq<Row>, rows: seq<Row>, before: seq<Row>, blocks: seq<Row>, n: int)
    requires Sorted(old') && AllUpTo(old', n - 1) && OfBlock(rows, n) && Covered(old', before)
    requires before <= blocks && HasBlock(blocks, n)
    ensures Sorted(old' + rows) && AllUpTo(old' + rows, n) && Covered(old' + rows, blocks)
  {
    forall i | 0 <= i < |old'| ensures HasBlock(blocks, old'[i].block) {
      var j :| 0 <= j < |before| && before[j].block == old'[i].block;
      assert blocks[j] == before[j];
    }
  }

  lemma CollectConserves(s: Sync, num: int, rows: Tables)
    requires Conserved(s) && Collects(s.mode) && num == s.head + 1 && BlockRows(rows, num)
    ensures Conserved(Collect(s, num, rows))
  {
    hide Contents, Ordered, Joined, BlockRows, Below, Above;
    AppendOrdered(s.chain, rows, num);
    JoinedAssoc(Contents(s.log), s.cache, rows);
    AboveJoined(s.cache, rows, s.mark, num);
  }

  lemma AboveJoined(t: Tables, rows: Tables, m: int, num: int)
    requires Above(t, m) && BlockRows(rows, num) && m < num
    ensures Above(Joined(t, rows), m)
  {
    forall w ensures AllBeyond(Get(Joined(t, rows), w), m) {
      assert AllBeyond(Get(t, w), m) && OfBlock(Get(rows, w), num);
    }
  }

  /** Between on_block and collecting: a node about to replay may still be behind its head. */
  ghost predicate Ready(s: Sync) {
    && Conserved(s) && EntriesOk(s.log)
    && (s.mode == Reindex || ModeOk(s)) && s.mark <= Later(s.final, if s.mode == Live then s.head else 0)
    && (s.irreversible == NO_IRREVERSIBLE || s.irreversible <= s.final) && 0 <= s.final && 0 <= s.mark
  }

  lemma OnBlockReady(c: Config, s: Sync, num: int, canLive: bool)
    requires Good(s) && s.mode != Interrupted && s.mode != Stopped
    ensures var t := OnBlock(c, s, num, canLive);
            && (t.None? <==> Refuses(c, s, Apply(num, EMPTY, canLive)))
            && (t.Some? ==> Ready(t.value) && t.value.head == s.head)
            && (t.Some? ==> t.value.mode != Start && t.value.mode != Stopped)
  {
    hide Contents, Joined, Ordered, Above, Below, EntriesOk;
  }

  lemma CollectReady(s: Sync, num: int, rows: Tables)
    requires Ready(s) && s.mode != Stopped && num == s.head + 1 && BlockRows(rows, num)
    ensures var t := Collect(s, num, rows);
            && Conserved(t) && EntriesOk(t.log) && t.mode == s.mode && t.head == num && t.mark == s.mark
            && (t.irreversible == NO_IRREVERSIBLE || t.irreversible <= t.final <= t.head)
                && 0 <= t.final <= t.head && 0 <= t.mark
            && (s.mode == Live ==> BlockRows(t.cache, num)) && (s.mode != Live ==> ModeOk(t))
  {
    hide Contents, Ordered, EntriesOk, BlockRows, Below, Above;
    if Collects(s.mode) {
      CollectConserves(s, num, rows);
      JoinedEmpty(rows);
    } else {
      BelowLater(s.chain, s.head, num);
    }
  }

  lemma TriggerKeeps(s: Sync)
    requires Conserved(s) && EntriesOk(s.log) && s.mode != Stopped && s.mode != Start
    requires (s.irreversible == NO_IRREVERSIBLE || s.irreversible <= s.final) && 0 <= s.final <= s.head && 0 <= s.mark
    requires if s.mode == Live then BlockRows(s.cache, s.head) else ModeOk(s)
    ensures var t := Trigger(s, s.head); t.Some? && Good(t.value)
  {
    hide Conserved, EntriesOk, DumpIrreversible, DumpCache, BlockRows, LiveNumbers;
    if s.mode == P2P {
      IrreversibleKeeps(s);
      SameRows(DumpIrreversible(s).value, P2P, s.irreversible, s.irreversible);
    } else if Collects(s.mode) {
      DumpCacheConserves(s, s.head);
    }
  }

  lemma ApplyKeeps(c: Config, s: Sync, num: int, rows: Tables, canLive: bool)
    requires Good(s) && Legal(s, Apply(num, rows, canLive))
    ensures var t := Step(c, s, Apply(num, rows, canLive));
            && (t.None? <==> OnBlock(c, s, num, canLive).None?) && (t.Some? ==> Good(t.value))
  {
    hide Good, Ready, OnBlock, Collect, Trigger, Conserved, EntriesOk, BlockRows, ModeOk;
    OnBlockReady(c, s, num, canLive);
    if OnBlock(c, s, num, canLive).Some? {
      var t := OnBlock(c, s, num, canLive).value;
      CollectReady(t, num, rows);
      TriggerKeeps(Collect(t, num, rows));
    }
  }

  // ---- Forks ----

  /** A fork that keeps final blocks only ever cuts cached rows. */
  lemma ForkCutsCache(s: Sync, n: int)
    requires Conserved(s) && s.mark <= n <= s.head
    ensures Lower(s.chain, n) == Joined(Contents(s.log), Lower(s.cache, n))
    ensures Ordered(Lower(s.chain, n)) && Below(Lower(s.chain, n), n) && Above(Lower(s.cache, n), s.mark)
  {
    hide Contents, UpTo, Ordered;
    SplitOrdered(s.chain, n);
    forall w
      ensures Get(Lower(s.chain, n), w) == Get(Joined(Contents(s.log), Lower(s.cache, n)), w)
      ensures AllBeyond(Get(Lower(s.cache, n), w), s.mark)
    {
      assert AllUpTo(Get(Contents(s.log), w), s.mark) && AllBeyond(Get(s.cache, w), s.mark);
      UpToPrefix(Get(Contents(s.log), w), Get(s.cache, w), n);
    }
    SameTables(Lower(s.chain, n), Joined(Contents(s.log), Lower(s.cache, n)));
  }

  lemma ForkKeeps(c: Config, s: Sync, n: int)
    requires Good(s) && Legal(s, Fork(n))
    ensures Good(Step(c, s, Fork(n)).value)
  {
    hide Contents, Lower, Upper, Ordered, Above, Below, BlockRows;
    match s.mode
    case P2P => ForkCutsCache(s, n);
    case Live =>
      LiveForkKeeps(s, n);
    case Reindex =>
      AllKept(s.chain, s.head);
    case _ =>
      JoinedEmpty(Contents(s.log));
      BelowLater(s.chain, s.mark, n);
      AllKept(s.chain, n);
  }

  lemma AllKept(t: Tables, n: int)
    requires Below(t, n)
    ensures Lower(t, n) == t
  {
    forall w ensures Get(Lower(t, n), w) == Get(t, w) {
      NothingBeyond(Get(t, w), n);
    }
    SameTables(Lower(t, n), t);
  }

  lemma LiveForkKeeps(s: Sync, n: int)
    requires Conserved(s) && s.cache == EMPTY
    ensures var log := s.log + [Rewind(n)];
            && Joined(Contents(log), EMPTY) == Lower(s.chain, n)
            && Ordered(Lower(s.chain, n)) && Below(Lower(s.chain, n), n) && Below(Contents(log), n) && Above(EMPTY, n)
  {
    hide Contents, UpTo, Ordered;
    ContentsAppend(s.log, Rewind(n));
    JoinedEmpty(Contents(s.log));
    JoinedEmpty(Lower(s.chain, n));
    SplitOrdered(s.chain, n);
  }

  lemma RevertUndoes(t: Tables, rows: Tables)
    ensures (forall w :: |Get(t, w)| <= |Get(Joined(t, rows), w)|) && Reverted(Joined(t, rows), t) == t
  {
    assert forall w :: |Get(t, w)| <= |Get(Joined(t, rows), w)|;
  }

  lemma PostReindexKeeps(c: Config, s: Sync, stop: bool)
    requires Good(s) && s.mode != Stopped
    ensures Step(c, s, PostReindex(stop)).Some? && Good(Step(c, s, PostReindex(stop)).value)
  {
    hide Conserved, EntriesOk;
    if s.mode == Reindex {
      hide DumpCache;
      DumpCacheConserves(s, s.head);
      FinalBound(s);
      var t := DumpCache(s, s.head).value;
      SameRows(t, Stopped, t.irreversible, t.lastFlushed);
      SameRows(t, P2P, NO_IRREVERSIBLE, 0);
    } else {
      SameRows(s, Stopped, s.irreversible, s.lastFlushed);
      SameRows(s, Wait, s.irreversible, s.lastFlushed);
    }
  }

  lemma CloseKeeps(c: Config, s: Sync)
    requires Good(s) && s.mode != Stopped
    ensures Step(c, s, Close).Some? && Good(Step(c, s, Close).value)
  {
    hide Conserved, EntriesOk, DumpCache, DumpIrreversible, LiveNumbers;
    FinalBound(s);
    if s.mode == Live || s.mode == Interrupted {
      IrreversibleKeeps(s);
      var t := DumpIrreversible(s).value;
      SameRows(t, Stopped, t.irreversible, t.lastFlushed);
    } else if Collects(s.mode) {
      DumpCacheConserves(s, s.head);
      var t := DumpCache(s, s.head).value;
      SameRows(t, Stopped, t.irreversible, t.lastFlushed);
    } else {
      assert DumpCache(s, s.head) == Some(s) by { NothingCached(s); }
      SameRows(s, Stopped, s.irreversible, s.lastFlushed);
    }
  }

  lemma NothingCached(s: Sync)
    requires s.cache == EMPTY
    ensures DumpCache(s, s.head) == Some(s)
  {
  }

  lemma FinalityKeeps(c: Config, s: Sync, n: int)
    requires Good(s) && Legal(s, Irreversible(n))
    ensures Good(Step(c, s, Irreversible(n)).value)
  {
    hide Contents, Joined, Ordered, Above, Below, EntriesOk;
  }

  lemma StartKeeps(c: Config, s: Sync, canLive: bool)
    requires Good(s) && Legal(s, PreReindex(canLive)) && s.mode != Live
    ensures Good(Step(c, s, PreReindex(canLive)).value)
  {
    hide Contents, Joined, Ordered, Above, Below, EntriesOk;
  }

  /** No legal event makes the serializer throw, except the refusals; every other keeps the invariant. */
  lemma StepKeeps(c: Config, s: Sync, e: Event)
    requires Good(s) && Legal(s, e)
    ensures Step(c, s, e).None? <==> Refuses(c, s, e)
    ensures Step(c, s, e).Some? ==> Good(Step(c, s, e).value)
  {
    hide Good, Contents, Joined, Lower, Upper, Reverted, EnterLive, DumpCache, DumpIrreversible, Trigger, Collect,
        OnBlock;
    match e
    case Apply(num, rows, canLive) =>
      ApplyKeeps(c, s, num, rows, canLive);
      OnBlockReady(c, s, num, canLive);
    case FailedBlock(rows) => RevertUndoes(s.cache, rows);
    case Irreversible(n) => FinalityKeeps(c, s, n);
    case Fork(n) => ForkKeeps(c, s, n);
    case PreReindex(canLive) => if s.mode != Live { StartKeeps(c, s, canLive); }
    case PostReindex(stop) => PostReindexKeeps(c, s, stop);
    case EndOfSyncing(rounds) => if s.mode != Live { EnterLiveKeeps(s, rounds); }
    case Close => CloseKeeps(c, s);
  }

  // ---- Every run ----

  lemma {:induction false} RunKeeps(c: Config, s: Sync, run: seq<Event>)
    requires Good(s) && Run(c, s, run).Some?
    ensures Good(Run(c, s, run).value)
    decreases |run|
  {
    hide Good, Legal, Step;
    if run != [] {
      StepKeeps(c, s, run[0]);
      RunKeeps(c, Step(c, s, run[0]).value, run[1..]);
    }
  }

  // ---- The node's history is the chain of the events ----

  /** A flush changes only what is sent and what is cached. */
  predicate OnlyFlushes(s: Sync, t: Sync) {
    t == s.(log := t.log, mark := t.mark, cache := t.cache, lastFlushed := t.lastFlushed)
  }

  lemma {:induction false} DrainOnlyFlushes(s: Sync, rounds: nat)
    requires DumpBlocks(s, rounds).Some?
    ensures OnlyFlushes(s, DumpBlocks(s, rounds).value)
    decreases rounds
  {
    hide Lower, Upper;
    if s.cache.blocks != [] && rounds > 0 {
      var n := s.cache.blocks[0].block;
      var t := Dump(s.(cache := Upper(s.cache, n), mark := Later(s.mark, n)), Lower(s.cache, n), n).value;
      DrainOnlyFlushes(t, rounds - 1);
    }
  }

  lemma TriggerOnlyFlushes(s: Sync, num: int)
    requires Trigger(s, num).Some?
    ensures OnlyFlushes(s, Trigger(s, num).value)
  {
    hide Lower, Upper;
  }

  lemma EnterLiveFollows(s: Sync, h: Chain, rounds: nat)
    requires Follows(s, h) && s.mode != Live && EnterLive(s, rounds).Some?
    ensures Follows(EnterLive(s, rounds).value, h.(collecting := true, replaying := false))
  {
    hide Lower, Upper, DumpBlocks;
    var t := (if s.mode == Start then Some(s) else DumpIrreversible(s)).value;
    DrainOnlyFlushes(t.(mode := Live), rounds);
  }

  lemma ApplyFollows(c: Config, s: Sync, h: Chain, num: int, rows: Tables, canLive: bool)
    requires Follows(s, h) && s.mode != Stopped && s.mode != Interrupted
    requires Step(c, s, Apply(num, rows, canLive)).Some?
    ensures Follows(Step(c, s, Apply(num, rows, canLive)).value, ChainAfter(c.first, h, Apply(num, rows, canLive)))
  {
    hide Joined, Trigger;
    TriggerOnlyFlushes(Collect(OnBlock(c, s, num, canLive).value, num, rows), num);
  }

  /** The node is not stopped, and once interrupted only shuts down. */
  predicate Proceeds(s: Sync, e: Event) {
    s.mode != Stopped && (s.mode == Interrupted ==> e.Close?)
  }

  lemma StepFollows(c: Config, s: Sync, h: Chain, e: Event)
    requires Follows(s, h) && Proceeds(s, e) && Step(c, s, e).Some?
    ensures Follows(Step(c, s, e).value, ChainAfter(c.first, h, e))
  {
    hide Joined, Lower, Upper, Reverted, EnterLive, Collect, OnBlock, Trigger;
    match e
    case Apply(num, rows, canLive) => ApplyFollows(c, s, h, num, rows, canLive);
    case EndOfSyncing(rounds) => if s.mode != Live { EnterLiveFollows(s, h, rounds); }
    case _ =>
  }

  lemma {:induction false} RunFollows(c: Config, s: Sync, h: Chain, run: seq<Event>)
    requires Follows(s, h) && Run(c, s, run).Some?
    ensures Follows(Run(c, s, run).value, ChainFrom(c.first, h, run))
    decreases |run|
  {
    hide Follows, Step, ChainAfter;
    if run != [] {
      assert Proceeds(s, run[0]);
      StepFollows(c, s, h, run[0]);
      RunFollows(c, Step(c, s, run[0]).value, ChainAfter(c.first, h, run[0]), run[1..]);
    }
  }

  ghost predicate Reaches(c: Config, head: int, final: int, run: seq<Event>, s: Sync) {
    0 <= final <= head && Run(c, Init(head, final), run) == Some(s)
  }

  lemma ReachesGood(c: Config, head: int, final: int, run: seq<Event>, s: Sync)
    requires Reaches(c, head, final, run, s)
    ensures Good(s)
  {
    hide Run;
    assert Good(Init(head, final)) by { JoinedEmpty(EMPTY); }
    RunKeeps(c, Init(head, final), run);
  }

  /** The collected rows, the head, the last final and the last irreversible block are those of the events. */
  lemma ReachesFollows(c: Config, head: int, final: int, run: seq<Event>, s: Sync)
    requires Reaches(c, head, final, run, s)
    ensures Follows(s, ChainOf(c, head, final, run))
  {
    hide Run, ChainFrom;
    RunFollows(c, Init(head, final), Begun(head, final), run);
  }

  /** Whatever happened, rows sent followed by rows cached are the rows of the events' chain, table by table. */
  lemma Conservation(c: Config, head: int, final: int, run: seq<Event>, s: Sync, w: Table)
    requires Reaches(c, head, final, run, s)
    ensures var rows := Get(ChainOf(c, head, final, run).rows, w);
            && Get(Contents(s.log), w) + Get(s.cache, w) == rows
            && (s.mode == Live ==> Get(Contents(s.log), w) == rows)
  {
    hide Reaches, Contents, ChainOf;
    ReachesGood(c, head, final, run, s);
    ReachesFollows(c, head, final, run, s);
    JoinedEmpty(Contents(s.log));
  }

  /**
   * During a replay or a P2P sync nothing above the last final block has been sent, so no fork the
   * chain can make has to take back a row.
   */
  lemma FlushedIsFinal(c: Config, head: int, final: int, run: seq<Event>, s: Sync, w: Table, fork: int)
    requires Reaches(c, head, final, run, s) && ChainOf(c, head, final, run).final <= fork
    requires s.mode != Live && s.mode != Interrupted && s.mode != Stopped
    ensures AllUpTo(Get(Contents(s.log), w), ChainOf(c, head, final, run).final)
    ensures UpTo(Get(Contents(s.log), w), fork) == Get(Contents(s.log), w)
  {
    hide Reaches, Contents, Ordered, UpTo, ChainOf;
    ReachesGood(c, head, final, run, s);
    ReachesFollows(c, head, final, run, s);
    assert AllUpTo(Get(Contents(s.log), w), s.mark);
    NothingBeyond(Get(Contents(s.log), w), fork);
  }

  /** Every live flush carries exactly one block: one block row and only rows of that block. */
  lemma LiveFlushIsOneBlock(c: Config, head: int, final: int, run: seq<Event>, s: Sync, i: nat)
    requires Reaches(c, head, final, run, s) && i < |s.log| && s.log[i].LiveBlock?
    ensures BlockRows(s.log[i].data, s.log[i].num)
  {
    hide Reaches, Conserved;
    ReachesGood(c, head, final, run, s);
    assert EntryOk(s.log[i]);
  }

  /** Every massive flush carries only rows up to the number it is announced with. */
  lemma MassiveFlushIsBelow(c: Config, head: int, final: int, run: seq<Event>, s: Sync, i: nat)
    requires Reaches(c, head, final, run, s) && i < |s.log| && s.log[i].Massive?
    ensures Below(s.log[i].data, s.log[i].num)
  {
    hide Reaches, Conserved, Below;
    ReachesGood(c, head, final, run, s);
    assert EntryOk(s.log[i]);
  }

  /** The cached blocks that are left for the drain. */
  function Reversible(s: Sync): seq<Row> {
    if s.irreversible == NO_IRREVERSIBLE then s.cache.blocks else Beyond(s.cache.blocks, s.irreversible)
  }

  /**
   * Going live from a P2P sync: the final cached blocks leave in the massive way and each of the
   * others is flushed live exactly once, in order. An interrupt only cuts the order short: the
   * blocks not reached are still cached.
   */
  lemma LiveEntry(c: Config, head: int, final: int, run: seq<Event>, s: Sync, rounds: nat)
    requires Reaches(c, head, final, run, s) && s.mode == P2P
    ensures var t := Step(c, s, EndOfSyncing(rounds));
            var blocks := Reversible(s);
            var k := Fewer(rounds, |blocks|);
            var rows := ChainOf(c, head, final, run).rows;
            && t.Some? && Joined(Contents(t.value.log), t.value.cache) == rows
            && LiveNumbers(t.value.log) == LiveNumbers(s.log) + Numbers(blocks[..k])
            && t.value.cache.blocks == blocks[k..]
            && (k == |blocks| <==> t.value.mode == Live && t.value.cache == EMPTY && Contents(t.value.log) == rows)
  {
    hide Reaches, Contents, ChainOf, Conserved, EntriesOk, DumpIrreversible, DumpBlocks, LiveNumbers, Numbers, UpTo,
        OnBlock, Trigger, DumpCache, Joined;
    ReachesGood(c, head, final, run, s);
    ReachesFollows(c, head, final, run, s);
    EnterLiveKeeps(s, rounds);
    FinalBound(s);
    IrreversibleKeeps(s);
    var t := DumpIrreversible(s).value;
    IrreversibleBlocks(s);
    SameRows(t, Live, t.irreversible, t.lastFlushed);
    DumpBlocksConserves(t.(mode := Live), rounds);
    ConservedParts(EnterLive(s, rounds).value);
    JoinedEmpty(Contents(EnterLive(s, rounds).value.log));
  }

  lemma IrreversibleBlocks(s: Sync)
    requires DumpIrreversible(s).Some?
    ensures DumpIrreversible(s).value.cache.blocks == Reversible(s)
  {
    hide UpTo;
  }

  lemma LiveConserved(s: Sync)
    requires Conserved(s) && s.cache == EMPTY
    ensures Contents(s.log) == s.chain
  {
    hide Contents;
    JoinedEmpty(Contents(s.log));
  }

  /** After each block of a P2P sync fewer than 1000 blocks known to be irreversible remain cached. */
  lemma CacheIsBounded(c: Config, head: int, final: int, run: seq<Event>, s: Sync, e: Event)
    requires Reaches(c, head, final, run, s) && s.mode == P2P && Legal(s, e) && e.Apply?
    requires ChainOf(c, head, final, run).told != NO_IRREVERSIBLE
    ensures Step(c, s, e).Some? && Above(Step(c, s, e).value.cache, ChainOf(c, head, final, run).told - 999)
  {
    hide Reaches, ChainOf, Contents, Conserved, EntriesOk, DumpIrreversible, DumpCache, BlockRows, DumpBlocks,
        LiveNumbers;
    ReachesGood(c, head, final, run, s);
    ReachesFollows(c, head, final, run, s);
    StepKeeps(c, s, e);
    var t := Step(c, s, e).value;
    TriggerMarks(Collect(s, e.num, e.rows)) by { CollectConserved(s, e); }
    forall w ensures AllBeyond(Get(t.cache, w), s.irreversible - BLOCKS_PER_FLUSH + 1) {
      assert AllBeyond(Get(t.cache, w), t.mark) by { assert Conserved(t); CachedAbove(t, w); }
    }
  }

  lemma CollectConserved(s: Sync, e: Event)
    requires Good(s) && s.mode == P2P && Legal(s, e) && e.Apply?
    ensures var t := Collect(s, e.num, e.rows);
            Conserved(t) && EntriesOk(t.log) && t.mode == P2P && ModeOk(t) && t.final <= t.head
  {
    hide Contents, Joined, Ordered, Above, Below, BlockRows;
    CollectConserves(s, e.num, e.rows);
  }

  lemma CachedAbove(s: Sync, w: Table)
    requires Conserved(s)
    ensures AllBeyond(Get(s.cache, w), s.mark)
  {
    hide Contents;
  }

  lemma TriggerMarks(s: Sync)
    requires Conserved(s) && EntriesOk(s.log) && s.mode == P2P && ModeOk(s) && s.final <= s.head
            && s.irreversible != NO_IRREVERSIBLE
    ensures var t := Trigger(s, s.head);
            t.Some? && t.value.irreversible == s.irreversible
            && s.irreversible - BLOCKS_PER_FLUSH < t.value.lastFlushed <= t.value.mark
  {
    hide Conserved, EntriesOk, DumpIrreversible, LiveNumbers;
    IrreversibleKeeps(s);
  }

  /** The last multiple of 1000 up to n. */
  function Thousand(n: int): int {
    n - n % 1000
  }

  /** A replay has flushed every block up to the last multiple of 1000. */
  ghost predicate ReplayBounded(s: Sync) {
    s.mode == Reindex ==> Above(s.cache, Thousand(s.head))
  }

  lemma ReplayBlockBounded(s: Sync, num: int, rows: Tables)
    requires Good(s) && num == s.head + 1 && BlockRows(rows, num)
    requires s.mode == Reindex && (s.cache == EMPTY || ReplayBounded(s)) && Trigger(Collect(s, num, rows), num).Some?
    ensures ReplayBounded(Trigger(Collect(s, num, rows), num).value)
  {
    hide Good, Joined, Above, BlockRows, DumpCache;
    var t := Collect(s, num, rows);
    if num % 1000 == 0 {
      CollectFlushes(s, num, rows);
      EmptyAbove(num);
    } else {
      EmptyAbove(Thousand(s.head));
      AboveJoined(s.cache, rows, Thousand(s.head), num);
    }
  }

  lemma CollectFlushes(s: Sync, num: int, rows: Tables)
    requires Good(s) && s.mode == Reindex && num == s.head + 1 && BlockRows(rows, num)
    ensures var t := DumpCache(Collect(s, num, rows), num);
            t.Some? && t.value.cache == EMPTY && t.value.head == num && t.value.mode == Reindex
  {
    hide Conserved, EntriesOk, BlockRows, DumpCache, Joined;
    CollectConserves(s, num, rows);
    DumpCacheConserves(Collect(s, num, rows), num);
  }

  lemma StepBounded(c: Config, s: Sync, e: Event)
    requires Good(s) && ReplayBounded(s) && Legal(s, e) && Step(c, s, e).Some?
    ensures ReplayBounded(Step(c, s, e).value)
  {
    hide Conserved, EntriesOk, Joined, Lower, Upper, Reverted, EnterLive, Collect, Trigger, DumpCache, Above;
    match e
    case Apply(num, rows, canLive) =>
      TriggerOnlyFlushes(Collect(OnBlock(c, s, num, canLive).value, num, rows), num);
      CollectSameMode(OnBlock(c, s, num, canLive).value, num, rows);
      if OnBlock(c, s, num, canLive).value.mode == Reindex {
        if s.mode == Reindex { ReplayBlockBounded(s, num, rows); } else { ReplayBegins(s, num, rows); }
      }
    case FailedBlock(rows) => RevertUndoes(s.cache, rows);
    case EndOfSyncing(rounds) => if s.mode != Live { EnterLiveKeeps(s, rounds); }
    case _ =>
  }

  lemma CollectSameMode(s: Sync, num: int, rows: Tables)
    ensures Collect(s, num, rows).mode == s.mode
  {
  }

  /** The first block of a replay: nothing is cached before it. */
  lemma ReplayBegins(s: Sync, num: int, rows: Tables)
    requires Good(s) && s.mode == ReindexWait && num == s.head + 1 && BlockRows(rows, num)
    requires Trigger(Collect(s.(mode := Reindex), num, rows), num).Some?
    ensures ReplayBounded(Trigger(Collect(s.(mode := Reindex), num, rows), num).value)
  {
    hide Joined, Above, BlockRows;
    JoinedEmpty(rows);
    OneRow(rows, num);
    if num % 1000 != 0 { RowsAbove(rows, num); } else { EmptyAbove(num); }
  }

  lemma RowsAbove(rows: Tables, num: int)
    requires BlockRows(rows, num) && num % 1000 != 0
    ensures Above(rows, Thousand(num))
  {
    forall w ensures AllBeyond(Get(rows, w), Thousand(num)) {
      assert OfBlock(Get(rows, w), num);
    }
  }

  lemma {:induction false} RunBounded(c: Config, s: Sync, run: seq<Event>)
    requires Good(s) && ReplayBounded(s) && Run(c, s, run).Some?
    ensures ReplayBounded(Run(c, s, run).value)
    decreases |run|
  {
    hide Good, ReplayBounded, Legal, Step;
    if run != [] {
      StepKeeps(c, s, run[0]);
      StepBounded(c, s, run[0]);
      RunBounded(c, Step(c, s, run[0]).value, run[1..]);
    }
  }

  /** During a replay every block up to the last multiple of 1000 has been sent. */
  lemma ReplayIsBounded(c: Config, head: int, final: int, run: seq<Event>, s: Sync)
    requires Reaches(c, head, final, run, s) && s.mode == Reindex
    ensures Above(s.cache, Thousand(ChainOf(c, head, final, run).head))
  {
    hide Run, ChainFrom;
    ReachesFollows(c, head, final, run, s);
    assert Good(Init(head, final)) by { JoinedEmpty(EMPTY); }
    RunBounded(c, Init(head, final), run);
  }

  /**
   * The flush at shutdown is different: it sends the whole cache, so everything sent is final if
   * and only if the last cached block was.
   */
  lemma CloseSendsFinalIff(c: Config, head: int, final: int, run: seq<Event>, s: Sync)
    requires Reaches(c, head, final, run, s) && s.mode == P2P
    ensures var t := Step(c, s, Close);
            var h, blocks := ChainOf(c, head, final, run), s.cache.blocks;
            && t.Some? && Contents(t.value.log) == h.rows
            && (Below(Contents(t.value.log), h.final) <==> blocks == [] || blocks[|blocks| - 1].block <= h.final)
  {
    hide Reaches, ChainOf, Conserved, Contents, DumpCache, EntriesOk, Joined, Below;
    ReachesGood(c, head, final, run, s);
    ReachesFollows(c, head, final, run, s);
    CloseKeeps(c, s);
    DumpCacheConserves(s, s.head);
    LiveConserved(DumpCache(s, s.head).value);
    ChainBelowIff(s);
  }

  lemma ChainBelowIff(s: Sync)
    requires Conserved(s) && s.mark <= s.final
    ensures Below(s.chain, s.final)
       <==> s.cache.blocks == [] || s.cache.blocks[|s.cache.blocks| - 1].block <= s.final
  {
    hide Contents, Joined, Ordered, Below, Above;
    BelowLater(Contents(s.log), s.mark, s.final);
    CacheIsUpper(s);
    LastBlockBounds(s.cache, s.final);
    if Below(s.cache, s.final) {
      JoinedBelow(Contents(s.log), s.cache, s.final);
    }
    if Below(s.chain, s.final) {
      PartsBelow(Contents(s.log), s.cache, s.final);
    }
  }

  lemma LastBlockBounds(t: Tables, n: int)
    requires Ordered(t)
    ensures Below(t, n) <==> t.blocks == [] || t.blocks[|t.blocks| - 1].block <= n
  {
    if t.blocks == [] {
      NoBlocksNoRows(t);
    } else {
      assert Below(t, n) ==> AllUpTo(Get(t, Blocks), n);
      if t.blocks[|t.blocks| - 1].block <= n {
        forall w ensures AllUpTo(Get(t, w), n) {
          CoveredBelow(Get(t, w), t.blocks, n);
        }
      }
    }
  }

  lemma CoveredBelow(rows: seq<Row>, blocks: seq<Row>, n: int)
    requires Covered(rows, blocks) && Strict(blocks) && blocks != [] && blocks[|blocks| - 1].block <= n
    ensures AllUpTo(rows, n)
  {
    forall i | 0 <= i < |rows| ensures rows[i].block <= n {
      assert HasBlock(blocks, rows[i].block);
    }
  }

  lemma ConservedParts(s: Sync)
    requires Conserved(s)
    ensures Joined(Contents(s.log), s.cache) == s.chain && Below(Contents(s.log), s.mark)
  {
  }

  lemma PartsBelow(a: Tables, b: Tables, n: int)
    requires Below(Joined(a, b), n)
    ensures Below(b, n)
  {
    hide Get;
    forall w ensures AllUpTo(Get(b, w), n) {
      assert AllUpTo(Get(Joined(a, b), w), n);
      forall i | 0 <= i < |Get(b, w)| ensures Get(b, w)[i].block <= n {
        assert Get(Joined(a, b), w)[|Get(a, w)| + i] == Get(b, w)[i];
      }
    }
  }

  const ONE_BLOCK := EMPTY.(blocks := [Row(1, "")])

  lemma FirstBlock()
    ensures Legal(Init(0, 0), Apply(1, ONE_BLOCK, false))
    ensures Step(Config(1, false, 0), Init(0, 0), Apply(1, ONE_BLOCK, false))
         == Some(Sync(P2P, ONE_BLOCK, NO_IRREVERSIBLE, 0, [], ONE_BLOCK, 1, 0, 0))
  {
    hide Joined, Contents, DumpIrreversible, DumpCache, DumpBlocks;
    OneBlockRows();
    var c := Config(1, false, 0);
    var t := Init(0, 0).(mode := P2P);
    assert OnBlock(c, Init(0, 0), 1, false) == Some(t);
    JoinedEmpty(ONE_BLOCK);
    var u := Sync(P2P, ONE_BLOCK, NO_IRREVERSIBLE, 0, [], ONE_BLOCK, 1, 0, 0);
    assert Collect(t, 1, ONE_BLOCK) == u;
    assert Trigger(u, 1) == Some(u);
  }

  lemma OneBlockRows()
    ensures BlockRows(ONE_BLOCK, 1)
  {
    assert forall w :: OfBlock(Get(ONE_BLOCK, w), 1);
  }

  lemma RunTwo(c: Config, s: Sync, a: Event, b: Event)
    requires Legal(s, a) && Step(c, s, a).Some? && Legal(Step(c, s, a).value, b)
    ensures Run(c, s, [a, b]) == Step(c, Step(c, s, a).value, b)
  {
    hide Step, Legal;
    var run, t := [a, b], Step(c, s, a).value;
    assert run[1..] == [b] && [b][1..] == [];
    assert Run(c, t, [b]) == if Step(c, t, b).Some? then Run(c, Step(c, t, b).value, [b][1..]) else None;
  }

  /** A node stopped after its first P2P block has sent a block that is not final. */
  lemma CloseSendsReversible()
    ensures var s := Run(Config(1, false, 0), Init(0, 0), [Apply(1, ONE_BLOCK, false), Close]);
            s.Some? && s.value.final == 0 && Contents(s.value.log).blocks == [Row(1, "")]
  {
    FirstBlock();
    var c, s1 := Config(1, false, 0), Sync(P2P, ONE_BLOCK, NO_IRREVERSIBLE, 0, [], ONE_BLOCK, 1, 0, 0);
    var e := Massive(ONE_BLOCK, 1);
    assert [] + [e] == [e];
    assert Step(c, s1, Close) == Some(s1.(mode := Stopped, cache := EMPTY, log := [e], mark := 1));
    RunTwo(c, Init(0, 0), Apply(1, ONE_BLOCK, false), Close);
    ContentsAppend([], e);
    JoinedEmpty(ONE_BLOCK);
    assert Contents([]) == EMPTY;
    assert Contents([e]) == ONE_BLOCK;
  }

  /** One such loss: with block 1 cached and final, the entry into LIVE hands it to the dumper that discards it. */
  lemma ReplayDuringSyncLoses()
    ensures var c := Config(1, false, 0);
            var s := Run(c, Init(0, 0), [Apply(1, ONE_BLOCK, false), Irreversible(1)]);
            && s.Some? && s.value.mode == P2P
            && var waiting := Step(c, s.value, PreReindex(false));
            && waiting.Some?
            && var live := Step(c, waiting.value, EndOfSyncing(1));
            && live.Some? && live.value.mode == Live && live.value.cache == EMPTY
            && Contents(live.value.log) == EMPTY
            && ChainOf(c, 0, 0, [Apply(1, ONE_BLOCK, false), Irreversible(1)]).rows == ONE_BLOCK
  {
    hide Lower, Upper, Joined, Trigger, OnBlock, DumpCache, Reverted, Run;
    FirstBlock();
    var c, s1 := Config(1, false, 0), Sync(P2P, ONE_BLOCK, NO_IRREVERSIBLE, 0, [], ONE_BLOCK, 1, 0, 0);
    RunTwo(c, Init(0, 0), Apply(1, ONE_BLOCK, false), Irreversible(1));
    var waiting := s1.(irreversible := 1, final := 1, mode := ReindexWait);
    NothingStays();
    ReachesFollows(c, 0, 0, [Apply(1, ONE_BLOCK, false), Irreversible(1)], s1.(irreversible := 1, final := 1));
    assert DumpIrreversible(waiting) == Some(waiting.(cache := EMPTY, mark := 1));
  }

  lemma NothingStays()
    ensures Upper(ONE_BLOCK, 1) == EMPTY
  {
    forall w ensures Get(Upper(ONE_BLOCK, 1), w) == Get(EMPTY, w) {
      NothingBeyond(Get(ONE_BLOCK, w), 1);
    }
    SameTables(Upper(ONE_BLOCK, 1), EMPTY);
  }

  // ---- A replay begun while blocks are cached ----

  /** The cached rows known to be irreversible; a waiting node's dumper discards them on the way into LIVE. */
  function Settled(s: Sync): Tables {
    if s.irreversible == NO_IRREVERSIBLE then EMPTY else Lower(s.cache, s.irreversible)
  }

  function Unsettled(s: Sync): Tables {
    if s.irreversible == NO_IRREVERSIBLE then s.cache else Upper(s.cache, s.irreversible)
  }

  lemma JoinedOrdered(a: Tables, b: Tables, n: int)
    requires Ordered(a) && Ordered(b) && Below(a, n) && Above(b, n)
    ensures Ordered(Joined(a, b))
  {
    var t := Joined(a, b);
    assert AllUpTo(Get(a, Blocks), n) && AllBeyond(Get(b, Blocks), n);
    forall w ensures Sorted(Get(t, w)) && Covered(Get(t, w), t.blocks) {
      assert AllUpTo(Get(a, w), n) && AllBeyond(Get(b, w), n);
      JoinedCovered(Get(a, w), Get(b, w), a.blocks, b.blocks);
    }
  }

  lemma JoinedCovered(a: seq<Row>, b: seq<Row>, blocks: seq<Row>, blocks': seq<Row>)
    requires Covered(a, blocks) && Covered(b, blocks')
    ensures Covered(a + b, blocks + blocks')
  {
    forall i | 0 <= i < |a + b| ensures HasBlock(blocks + blocks', (a + b)[i].block) {
      if i < |a| {
        assert HasBlock(blocks, a[i].block);
        var j :| 0 <= j < |blocks| && blocks[j].block == a[i].block;
        assert (blocks + blocks')[j] == blocks[j];
      } else {
        assert HasBlock(blocks', b[i - |a|].block);
        var j :| 0 <= j < |blocks'| && blocks'[j].block == b[i - |a|].block;
        assert (blocks + blocks')[|blocks| + j] == blocks'[j];
      }
    }
  }

  lemma {:induction false} DrainIgnoresChain(s: Sync, chain: Tables, rounds: nat)
    ensures var t, u := DumpBlocks(s, rounds), DumpBlocks(s.(chain := chain), rounds);
            && (t.None? <==> u.None?)
            && (t.Some? ==> u.value == t.value.(chain := chain) && t.value.chain == s.chain)
    decreases rounds
  {
    hide Lower, Upper;
    if s.cache.blocks != [] && rounds > 0 {
      var n := s.cache.blocks[0].block;
      var t := Dump(s.(cache := Upper(s.cache, n), mark := Later(s.mark, n)), Lower(s.cache, n), n);
      if t.Some? { DrainIgnoresChain(t.value, chain, rounds - 1); }
    }
  }

  /** Without the rows to be discarded the chain is still in order. */
  lemma KeptConserved(s: Sync)
    requires Conserved(s) && (s.irreversible == NO_IRREVERSIBLE || s.irreversible <= s.head)
    ensures var mark := if s.irreversible == NO_IRREVERSIBLE then s.mark else Later(s.mark, s.irreversible);
            Conserved(s.(cache := Unsettled(s), mark := mark, chain := Joined(Contents(s.log), Unsettled(s))))
  {
    hide Contents, Lower, Upper, Joined, Ordered, Above, Below;
    if s.irreversible != NO_IRREVERSIBLE {
      var n, sent := s.irreversible, Contents(s.log);
      var mark := Later(s.mark, n);
      CacheIsUpper(s);
      SplitOrdered(s.chain, s.mark);
      SplitOrdered(s.cache, n);
      BelowLater(sent, s.mark, mark);
      AboveBoth(s.cache, s.mark, n);
      JoinedOrdered(sent, Unsettled(s), mark);
      BelowLater(sent, mark, s.head);
      CacheBelowHead(s);
      UpperBelow(s.cache, n, s.head);
      JoinedBelow(sent, Unsettled(s), s.head);
    }
  }

  lemma CacheBelowHead(s: Sync)
    requires Conserved(s)
    ensures Below(s.cache, s.head)
  {
    hide Contents, Ordered, Joined;
    PartsBelow(Contents(s.log), s.cache, s.head);
  }

  lemma UpperBelow(t: Tables, n: int, head: int)
    requires Below(t, head)
    ensures Below(Upper(t, n), head)
  {
    hide UpTo;
    forall w ensures AllUpTo(Get(Upper(t, n), w), head) {
      assert AllUpTo(Get(t, w), head);
      assert Get(Upper(t, n), w) == Beyond(Get(t, w), n);
    }
  }

  lemma NothingCut(a: Tables, b: Tables, c: Tables)
    ensures Joined(a, c) == Joined(a, Joined(b, c)) <==> b == EMPTY
  {
    if b == EMPTY {
      JoinedEmpty(c);
    }
    if Joined(a, c) == Joined(a, Joined(b, c)) {
      forall w ensures Get(b, w) == Get(EMPTY, w) {
        assert |Get(Joined(a, c), w)| == |Get(a, w)| + |Get(c, w)|;
        assert |Get(Joined(a, Joined(b, c)), w)| == |Get(a, w)| + |Get(b, w)| + |Get(c, w)|;
      }
      SameTables(b, EMPTY);
    }
  }

  /** A waiting node that goes live keeps its rows exactly if none of them was known to be irreversible. */
  lemma WaitingEntryIff(s: Sync, rounds: nat)
    requires Conserved(s) && (s.irreversible == NO_IRREVERSIBLE || s.irreversible <= s.head)
    requires s.mode == Wait || s.mode == ReindexWait
    ensures var t := EnterLive(s, rounds);
            && t.Some? && t.value.chain == s.chain
            && Joined(Contents(t.value.log), t.value.cache) == Joined(Contents(s.log), Unsettled(s))
            && (Joined(Contents(t.value.log), t.value.cache) == s.chain <==> Settled(s) == EMPTY)
  {
    hide Contents, Lower, Upper, Joined, Conserved, DumpBlocks, EntriesOk, LiveNumbers, Numbers;
    var mark := if s.irreversible == NO_IRREVERSIBLE then s.mark else Later(s.mark, s.irreversible);
    var t := s.(cache := Unsettled(s), mark := mark, mode := Live);
    assert DumpIrreversible(s) == Some(s.(cache := Unsettled(s), mark := mark));
    var chain := Joined(Contents(s.log), Unsettled(s));
    KeptConserved(s);
    SameRows(s.(cache := Unsettled(s), mark := mark, chain := chain), Live, s.irreversible, s.lastFlushed);
    DumpBlocksConserves(t.(chain := chain), rounds);
    DrainIgnoresChain(t, chain, rounds);
    ConservedParts(DumpBlocks(t.(chain := chain), rounds).value);
    ChainParts(s);
    NothingCut(Contents(s.log), Settled(s), Unsettled(s));
  }

  lemma ChainParts(s: Sync)
    requires Conserved(s)
    ensures s.chain == Joined(Contents(s.log), Joined(Settled(s), Unsettled(s)))
  {
    hide Contents, Lower, Upper, Joined, Ordered;
    CacheIsUpper(s);
    JoinedEmpty(s.cache);
    SplitOrdered(s.cache, s.irreversible);
  }

  /**
   * A replay announced in the middle of a sync, followed by the entry into LIVE: no row is lost if
   * and only if no cached row is known to be irreversible.
   */
  lemma ReplayEntryIff(c: Config, head: int, final: int, run: seq<Event>, s: Sync, canLive: bool, rounds: nat)
    requires Reaches(c, head, final, run, s) && (s.mode == P2P || s.mode == Reindex)
    ensures var waiting := Step(c, s, PreReindex(canLive));
            && waiting.Some?
            && var t := Step(c, waiting.value, EndOfSyncing(rounds));
            var h := ChainOf(c, head, final, run);
            && t.Some?
            && (Joined(Contents(t.value.log), t.value.cache) == h.rows
                <==> h.told == NO_IRREVERSIBLE || Lower(s.cache, h.told) == EMPTY)
  {
    hide Reaches, ChainOf, Contents, Lower, Upper, Joined, Conserved, EnterLive, EntriesOk;
    ReachesGood(c, head, final, run, s);
    ReachesFollows(c, head, final, run, s);
    FinalBound(s);
    var mode := if canLive then Wait else ReindexWait;
    SameRows(s, mode, s.irreversible, s.lastFlushed);
    WaitingEntryIff(s.(mode := mode), rounds);
  }

  /** After the run, rows sent and cached are those of the chain that was h before. */
  ghost predicate RowsKept(c: Config, s: Sync, h: Chain, run: seq<Event>) {
    var t := Run(c, s, run);
    t.Some? ==> Joined(Contents(t.value.log), t.value.cache) == ChainFrom(c.first, h, run).rows
  }

  /**
   * So the restriction on replays is exact: every legal continuation of a replay announced in the
   * middle of a sync keeps the rows if and only if nothing was cached. Block numbers are below
   * NO_IRREVERSIBLE.
   */
  lemma ReplaySafeIff(c: Config, head: int, final: int, run: seq<Event>, s: Sync, canLive: bool)
    requires Reaches(c, head, final, run, s) && (s.mode == P2P || s.mode == Reindex) && s.head < NO_IRREVERSIBLE
    ensures var waiting := Step(c, s, PreReindex(canLive));
            var h := ChainAfter(c.first, ChainOf(c, head, final, run), PreReindex(canLive));
            waiting.Some? && ((forall more :: RowsKept(c, waiting.value, h, more)) <==> s.cache == EMPTY)
  {
    hide Reaches, ChainOf, ChainFrom, Follows, Run, Good, Conserved, Joined, Contents, EntriesOk;
    ReachesGood(c, head, final, run, s);
    ReachesFollows(c, head, final, run, s);
    var t := Step(c, s, PreReindex(canLive)).value;
    var h := ChainAfter(c.first, ChainOf(c, head, final, run), PreReindex(canLive));
    StepFollows(c, s, ChainOf(c, head, final, run), PreReindex(canLive));
    if s.cache == EMPTY {
      StartKeeps(c, s, canLive) by { assert Legal(s, PreReindex(canLive)) by { Going(s); } }
      forall more ensures RowsKept(c, t, h, more) {
        if Run(c, t, more).Some? {
          RunKeeps(c, t, more);
          RunFollows(c, t, h, more);
          GoodConserved(Run(c, t, more).value, ChainFrom(c.first, h, more));
        }
      }
    } else {
      LosingRun(c, s, h, canLive);
      assert !RowsKept(c, t, h, [Irreversible(s.head), EndOfSyncing(0)]);
    }
  }

  lemma Going(s: Sync)
    requires s.mode == P2P || s.mode == Reindex
    ensures forall canLive :: s.cache == EMPTY ==> Legal(s, PreReindex(canLive))
  {
  }

  lemma GoodConserved(s: Sync, h: Chain)
    requires Good(s) && Follows(s, h)
    ensures Joined(Contents(s.log), s.cache) == h.rows
  {
    ConservedParts(s);
  }

  lemma LosingRun(c: Config, s: Sync, h: Chain, canLive: bool)
    requires Good(s) && (s.mode == P2P || s.mode == Reindex) && s.head < NO_IRREVERSIBLE && s.cache != EMPTY
    requires Follows(Step(c, s, PreReindex(canLive)).value, h)
    ensures !RowsKept(c, Step(c, s, PreReindex(canLive)).value, h, [Irreversible(s.head), EndOfSyncing(0)])
  {
    hide Run, ChainFrom, Conserved, Joined, Contents, EntriesOk, EnterLive, Lower, Upper;
    FinalBound(s);
    var t := Step(c, s, PreReindex(canLive)).value;
    var u := t.(irreversible := s.head, final := s.head);
    RunTwo(c, t, Irreversible(s.head), EndOfSyncing(0)) by { WaitingEntryIff(u, 0) by { FinalRows(s, t.mode); } }
    FinalRows(s, t.mode);
    WaitingEntryIff(u, 0);
    CacheBelowHead(s);
    AllKept(s.cache, s.head);
    RunFollows(c, t, h, [Irreversible(s.head), EndOfSyncing(0)]);
  }

  lemma FinalRows(s: Sync, mode: Mode)
    requires Conserved(s)
    ensures Conserved(s.(mode := mode, irreversible := s.head, final := s.head))
  {
  }
}
