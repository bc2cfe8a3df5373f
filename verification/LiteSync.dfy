/**
 * LIVE in lite mode: only irreversible blocks are pushed, one by one, and a fork erases cached
 * rows instead of taking pushed ones back.
 */
module LiteSync {
  import opened Common
  import opened BlockCache
  import opened Synchronization

  /** lo and hi are history: the cached blocks above lo and up to hi were discarded on the way into LIVE. */
  datatype Lite = Lite(s: Sync, lo: int, hi: int)

  function Earlier(m: int, n: int): int {
    if n < m then n else m
  }

  /** update_state( LIVE ) in lite mode: what is not irreversible is discarded. */
  function Enter(s: Sync): Option<Lite> {
    match if s.mode == Start then Some(s) else DumpIrreversible(s)
    case None => None
    case Some(t) => Some(Lite(t.(mode := Live, cache := EMPTY), t.mark, s.head))
  }

  /** lite_live_flush_trigger: one block at a time, up to the last irreversible one. */
  function LiteTrigger(s: Sync): Option<Sync> {
    if s.irreversible == NO_IRREVERSIBLE then Some(s)
    else DumpBlocks(s, |UpTo(s.cache.blocks, s.irreversible)|)
  }

  function LiteStep(l: Lite, e: Event): Option<Lite> {
    var s := l.s;
    match e
    case Apply(num, rows, _) =>
      (match LiteTrigger(Collect(s, num, rows))
       case None => None
       case Some(t) => Some(l.(s := t)))
    case FailedBlock(rows) => Some(l.(s := s.(cache := Reverted(Joined(s.cache, rows), s.cache))))
    case Irreversible(n) => Some(l.(s := s.(irreversible := n, final := n)))
    case Fork(n) =>
      Some(l.(s := s.(head := n, chain := Lower(s.chain, n), cache := Lower(s.cache, n)), hi := Earlier(l.hi, n)))
    case PreReindex(_) => None
    case PostReindex(_) => Some(l)
    case EndOfSyncing(_) => Some(l)
    case Close =>
      (match DumpIrreversible(s)
       case None => None
       case Some(t) => Some(l.(s := t.(mode := Stopped))))
  }

  predicate LiteLegal(l: Lite, e: Event) {
    l.s.mode == Live && (e.PreReindex? || Legal(l.s, e))
  }

  function LiteRun(l: Lite, run: seq<Event>): Option<Lite>
    decreases |run|
  {
    if run == [] then Some(l)
    else if !LiteLegal(l, run[0]) then None
    else
      match LiteStep(l, run[0])
      case None => None
      case Some(t) => LiteRun(t, run[1..])
  }

  // ---- Leaving out a range of blocks ----

  function Without(t: Tables, lo: int, hi: int): Tables {
    Joined(Lower(t, lo), Upper(t, hi))
  }

  function Between(t: Tables, lo: int, hi: int): Tables {
    Lower(Upper(t, lo), hi)
  }

  lemma ThreeParts(rows: seq<Row>, lo: int, hi: int)
    requires Sorted(rows) && lo <= hi
    ensures rows == UpTo(rows, lo) + UpTo(Beyond(rows, lo), hi) + Beyond(rows, hi)
    ensures AllUpTo(UpTo(rows, lo), lo) && AllBeyond(Beyond(rows, hi), hi)
    ensures AllUpTo(UpTo(Beyond(rows, lo), hi), hi) && AllBeyond(UpTo(Beyond(rows, lo), hi), lo)
  {
    hide UpTo;
    SplitsSorted(rows, lo);
    SplitsSorted(rows, hi);
    var a, b := UpTo(rows, lo), Beyond(rows, lo);
    assert a + b == rows;
    assert Sorted(b) by { assert forall i | 0 <= i < |b| :: b[i] == rows[|a| + i]; }
    SplitsSorted(b, hi);
    UpToPrefix(a, b, hi);
    assert rows == a + UpTo(b, hi) + Beyond(rows, hi);
  }

  /** Rows above hi come after the gap. */
  lemma AppendRows(rows: seq<Row>, more: seq<Row>, lo: int, hi: int)
    requires Sorted(rows) && AllBeyond(more, hi) && lo <= hi
    ensures UpTo(rows + more, lo) + Beyond(rows + more, hi) == UpTo(rows, lo) + Beyond(rows, hi) + more
  {
    hide UpTo, Beyond, Sorted;
    AppendSplit(rows, more, lo) by { assert AllBeyond(more, lo); }
    AppendSplit(rows, more, hi);
    assert UpTo(rows, lo) + (Beyond(rows, hi) + more) == UpTo(rows, lo) + Beyond(rows, hi) + more;
  }

  lemma AppendSplit(rows: seq<Row>, more: seq<Row>, n: int)
    requires Sorted(rows) && AllBeyond(more, n)
    ensures UpTo(rows + more, n) == UpTo(rows, n) && Beyond(rows + more, n) == Beyond(rows, n) + more
  {
    hide UpTo;
    SplitsSorted(rows, n);
    var a, b := UpTo(rows, n), Beyond(rows, n);
    assert rows + more == a + (b + more);
    SplitUnique(a, b + more, n);
  }

  /** Cutting at n, before or after taking the gap out. */
  lemma CutRows(rows: seq<Row>, lo: int, hi: int, n: int)
    requires Sorted(rows) && lo <= hi && lo <= n
    ensures var kept := UpTo(rows, n);
            UpTo(kept, lo) + Beyond(kept, Earlier(hi, n)) == UpTo(UpTo(rows, lo) + Beyond(rows, hi), n)
  {
    hide UpTo;
    ThreeParts(rows, lo, hi);
    var a, g, b := UpTo(rows, lo), UpTo(Beyond(rows, lo), hi), Beyond(rows, hi);
    UpToPrefix(a, b, n);
    if n < hi {
      NoneUpTo(b, n);
      CutInGap(a, g, b, lo, n);
      assert rows == a + g + b;
      assert a + [] == a;
    } else {
      UpToPrefix(a + g, b, n);
      PartBeyond(b, n, hi);
      SplitUnique(a, g + UpTo(b, n), lo);
      SplitUnique(a + g, UpTo(b, n), hi);
      assert a + (g + UpTo(b, n)) == a + g + UpTo(b, n);
    }
  }

  lemma NoneUpTo(rows: seq<Row>, n: int)
    requires AllBeyond(rows, n)
    ensures UpTo(rows, n) == []
  {
  }

  lemma CutInGap(a: seq<Row>, g: seq<Row>, b: seq<Row>, lo: int, n: int)
    requires AllUpTo(a, lo) && AllBeyond(g, lo) && AllBeyond(b, n) && lo <= n && Sorted(a + g + b)
    ensures var kept := UpTo(a + g + b, n); UpTo(kept, lo) == a && Beyond(kept, n) == []
  {
    hide UpTo, Sorted, AllUpTo;
    var kept, rest := UpTo(a + g + b, n), UpTo(g + b, n);
    SplitsSorted(a + g + b, n);
    assert a + (g + b) == a + g + b;
    UpToPrefix(a, g + b, n) by { LooserBound(a, lo, n); }
    PartBeyond(g + b, n, lo);
    SplitUnique(a, rest, lo);
    NothingBeyond(kept, n);
  }

  lemma LooserBound(rows: seq<Row>, lo: int, n: int)
    requires AllUpTo(rows, lo) && lo <= n
    ensures AllUpTo(rows, n)
  {
  }

  lemma PartBeyond(rows: seq<Row>, n: int, lo: int)
    requires AllBeyond(rows, lo)
    ensures AllBeyond(UpTo(rows, n), lo)
  {
    hide UpTo;
    var part := UpTo(rows, n);
    assert forall i | 0 <= i < |part| :: part[i] == rows[i];
  }

  lemma WithoutAppend(t: Tables, rows: Tables, lo: int, hi: int, num: int)
    requires Ordered(t) && BlockRows(rows, num) && lo <= hi < num
    ensures Without(Joined(t, rows), lo, hi) == Joined(Without(t, lo, hi), rows)
  {
    hide UpTo, Beyond, Covered;
    forall w ensures Get(Without(Joined(t, rows), lo, hi), w) == Get(Joined(Without(t, lo, hi), rows), w) {
      assert OfBlock(Get(rows, w), num);
      AppendRows(Get(t, w), Get(rows, w), lo, hi);
    }
    SameTables(Without(Joined(t, rows), lo, hi), Joined(Without(t, lo, hi), rows));
  }

  lemma WithoutCut(t: Tables, lo: int, hi: int, n: int)
    requires Ordered(t) && lo <= hi && lo <= n
    ensures Without(Lower(t, n), lo, Earlier(hi, n)) == Lower(Without(t, lo, hi), n)
  {
    hide UpTo, Beyond, Covered;
    forall w ensures Get(Without(Lower(t, n), lo, Earlier(hi, n)), w) == Get(Lower(Without(t, lo, hi), n), w) {
      CutRows(Get(t, w), lo, hi, n);
    }
    SameTables(Without(Lower(t, n), lo, Earlier(hi, n)), Lower(Without(t, lo, hi), n));
  }

  /** The whole is the kept rows and the ones in the range. */
  lemma WithoutAllIff(t: Tables, lo: int, hi: int)
    requires Ordered(t) && lo <= hi
    ensures Without(t, lo, hi) == t <==> Between(t, lo, hi) == EMPTY
  {
    hide UpTo, Beyond, Covered, Joined;
    var a, g, b := Lower(t, lo), Between(t, lo, hi), Upper(t, hi);
    forall w ensures Get(Joined(a, Joined(g, b)), w) == Get(t, w) {
      ThreeParts(Get(t, w), lo, hi);
      assert Get(a, w) + (Get(g, w) + Get(b, w)) == Get(a, w) + Get(g, w) + Get(b, w);
    }
    SameTables(Joined(a, Joined(g, b)), t);
    NothingCut(a, g, b);
  }

  // ---- The trigger's loop ----

  /** The first cached block is irreversible: it leaves alone, and one fewer is left to flush. */
  lemma LiteRound(s: Sync)
    requires Ordered(s.cache) && s.mode == Live && s.cache.blocks != []
    requires s.irreversible != NO_IRREVERSIBLE && s.cache.blocks[0].block <= s.irreversible
    ensures var n := s.cache.blocks[0].block;
            var t := Dump(s.(cache := Upper(s.cache, n), mark := Later(s.mark, n)), Lower(s.cache, n), n);
            && t.Some? && Ordered(t.value.cache) && LiteTrigger(t.value) == LiteTrigger(s)
            && t.value.cache.blocks == s.cache.blocks[1..]
  {
    hide Ordered, Lower, Upper, UpTo, DumpBlocks;
    var n, blocks := s.cache.blocks[0].block, s.cache.blocks;
    FirstBlockRows(s.cache);
    OneRow(Lower(s.cache, n), n);
    SplitOrdered(s.cache, n);
    UpperBlocks(s.cache, n);
    FirstUpTo(blocks, s.irreversible);
    DumpBlocksRound(s, |UpTo(blocks, s.irreversible)|);
  }

  lemma UpperBlocks(t: Tables, n: int)
    requires Ordered(t) && t.blocks != [] && n == t.blocks[0].block
    ensures Upper(t, n).blocks == t.blocks[1..]
  {
    hide UpTo;
    FirstBlockLeaves(t.blocks);
    assert Get(Upper(t, n), Blocks) == Beyond(Get(t, Blocks), n);
  }

  lemma FirstUpTo(rows: seq<Row>, n: int)
    requires rows != [] && rows[0].block <= n
    ensures |UpTo(rows, n)| == 1 + |UpTo(rows[1..], n)|
  {
  }

  lemma LiteDone(s: Sync)
    requires s.irreversible == NO_IRREVERSIBLE || s.cache.blocks == [] || s.cache.blocks[0].block > s.irreversible
    ensures LiteTrigger(s) == Some(s)
  {
  }

  // ---- What every event keeps ----

  /** The same state, as if the discarded blocks had never been. */
  function Seen(l: Lite): Sync {
    l.s.(chain := Without(l.s.chain, l.lo, l.hi))
  }

  ghost predicate LiteGood(l: Lite) {
    && Conserved(Seen(l)) && Ordered(l.s.chain) && Below(l.s.chain, l.s.head)
    && l.lo <= l.s.final && l.lo <= l.hi <= l.s.head && l.s.mark <= l.s.final
    && (l.s.irreversible == NO_IRREVERSIBLE || l.s.irreversible <= l.s.final)
  }

  /** Entries are only added, and each is a pushed block. */
  ghost predicate OnlyPushes(log: seq<Entry>, log': seq<Entry>) {
    log <= log' && forall i | |log| <= i < |log'| :: log'[i].LiveBlock?
  }

  lemma {:induction false} DrainBound(s: Sync, rounds: nat, bound: int)
    requires Conserved(s) && s.mode == Live && AllUpTo(s.cache.blocks[..Fewer(rounds, |s.cache.blocks|)], bound)
    ensures var t := DumpBlocks(s, rounds);
            t.Some? && t.value.mark <= Later(s.mark, bound) && OnlyPushes(s.log, t.value.log)
    decreases rounds
  {
    hide Conserved, Lower, Upper, BlockRows, LiveNumbers, EntriesOk;
    if s.cache.blocks != [] && rounds > 0 {
      var n, blocks := s.cache.blocks[0].block, s.cache.blocks;
      DumpBlockConserves(s);
      var t := Dump(s.(cache := Upper(s.cache, n), mark := Later(s.mark, n)), Lower(s.cache, n), n).value;
      var k := Fewer(rounds, |blocks|);
      assert blocks[..k][0] == blocks[0];
      var rest := blocks[1..][..k - 1];
      forall i | 0 <= i < |rest| ensures rest[i].block <= bound {
        assert rest[i] == blocks[..k][i + 1];
      }
      DrainBound(t, rounds - 1, bound);
    }
  }

  /** The trigger flushes exactly the irreversible blocks, each alone, and keeps the whole. */
  lemma TriggerPushes(s: Sync)
    requires Conserved(s) && s.mode == Live
    ensures var t := LiteTrigger(s);
            && t.Some? && Conserved(t.value) && OnlyPushes(s.log, t.value.log)
            && t.value == s.(log := t.value.log, mark := t.value.mark, cache := t.value.cache)
            && t.value.cache.blocks == Reversible(s)
            && (s.irreversible == NO_IRREVERSIBLE ==> t.value == s)
            && (s.irreversible != NO_IRREVERSIBLE ==> t.value.mark <= Later(s.mark, s.irreversible))
  {
    hide Conserved, UpTo, LiveNumbers, EntriesOk, DumpBlocks, Numbers;
    if s.irreversible != NO_IRREVERSIBLE {
      var k := |UpTo(s.cache.blocks, s.irreversible)|;
      CacheSorted(s);
      SplitsSorted(s.cache.blocks, s.irreversible);
      DumpBlocksConserves(s, k);
      DrainBound(s, k, s.irreversible);
    }
  }

  lemma CacheSorted(s: Sync)
    requires Conserved(s)
    ensures Ordered(s.cache) && Sorted(s.cache.blocks)
  {
    CacheIsUpper(s);
    assert Sorted(Get(s.cache, Blocks));
  }

  lemma ApplyKeepsLite(l: Lite, num: int, rows: Tables, canLive: bool)
    requires LiteGood(l) && LiteLegal(l, Apply(num, rows, canLive))
    ensures var t := LiteStep(l, Apply(num, rows, canLive));
            t.Some? && LiteGood(t.value) && OnlyPushes(l.s.log, t.value.s.log)
  {
    hide Conserved, Ordered, Below, BlockRows, Joined, Without, DumpBlocks;
    var s, c := l.s, Collect(l.s, num, rows);
    WithoutAppend(s.chain, rows, l.lo, l.hi, num);
    var seen := c.(chain := Without(c.chain, l.lo, l.hi));
    CollectConserves(Seen(l), num, rows);
    assert Collect(Seen(l), num, rows) == seen;
    TriggerPushes(seen);
    TriggerIgnoresChain(c, seen.chain);
    AppendOrdered(s.chain, rows, num);
  }

  lemma TriggerIgnoresChain(s: Sync, chain: Tables)
    ensures var t, u := LiteTrigger(s), LiteTrigger(s.(chain := chain));
            && (t.None? <==> u.None?)
            && (t.Some? ==> u.value == t.value.(chain := chain) && t.value.chain == s.chain)
  {
    hide DumpBlocks, UpTo;
    DrainIgnoresChain(s, chain, |UpTo(s.cache.blocks, s.irreversible)|);
  }

  lemma ForkKeepsLite(l: Lite, n: int)
    requires LiteGood(l) && LiteLegal(l, Fork(n))
    ensures LiteGood(LiteStep(l, Fork(n)).value)
  {
    hide Ordered, Below, Above, Joined, Without, Contents, Lower, Upper;
    WithoutCut(l.s.chain, l.lo, l.hi, n);
    ForkCutsCache(Seen(l), n);
    LowerBelow(l.s.chain, n, n);
    CutOrdered(l.s.chain, n);
  }

  lemma CutOrdered(t: Tables, n: int)
    requires Ordered(t)
    ensures Ordered(Lower(t, n))
  {
    SplitOrdered(t, n);
  }

  /** At shutdown the live dumper takes one block only. */
  predicate Overfull(s: Sync) {
    s.irreversible != NO_IRREVERSIBLE && |UpTo(s.cache.blocks, s.irreversible)| > 1
  }

  lemma CloseKeepsLite(l: Lite)
    requires LiteGood(l) && l.s.mode == Live
    ensures var t := LiteStep(l, Close);
            && (t.None? <==> Overfull(l.s))
            && (t.Some? ==> LiteGood(t.value) && OnlyPushes(l.s.log, t.value.s.log))
  {
    hide Conserved, Ordered, Below, Without, Contents, UpTo, Joined;
    var s, n := l.s, l.s.irreversible;
    FinalBound(Seen(l));
    if n != NO_IRREVERSIBLE && !Overfull(s) {
      hide Upper;
      var data := Lower(s.cache, n);
      var log := if data.blocks == [] then s.log else s.log + [LiveBlock(data, n)];
      assert Contents(log) == Joined(Contents(s.log), data) by {
        if data.blocks == [] {
          LowerEmpty(Seen(l), n);
          JoinedEmpty(Contents(s.log));
        } else {
          ContentsAppend(s.log, LiveBlock(data, n));
        }
      }
      MoveConserves(Seen(l), n, log);
      var t := s.(cache := Upper(s.cache, n), mark := Later(s.mark, n), log := log);
      SameRows(t.(chain := Seen(l).chain), Stopped, t.irreversible, t.lastFlushed);
    } else {
      SameRows(Seen(l), Stopped, s.irreversible, s.lastFlushed);
    }
  }

  /**
   * Every event of a lite LIVE node keeps the invariant and only ever adds pushed blocks. It fails
   * for a replay, and at shutdown with more than one irreversible block still cached.
   */
  lemma LiteStepKeeps(l: Lite, e: Event)
    requires LiteGood(l) && LiteLegal(l, e)
    ensures LiteStep(l, e).None? <==> e.PreReindex? || (e.Close? && Overfull(l.s))
    ensures var t := LiteStep(l, e); t.Some? ==> LiteGood(t.value) && OnlyPushes(l.s.log, t.value.s.log)
  {
    hide LiteGood, Joined, Lower, Reverted, LiteTrigger, DumpIrreversible;
    match e
    case Apply(num, rows, canLive) => ApplyKeepsLite(l, num, rows, canLive);
    case FailedBlock(rows) => RevertUndoes(l.s.cache, rows);
    case Irreversible(n) => FinalityKeepsLite(l, n);
    case Fork(n) => ForkKeepsLite(l, n);
    case PreReindex(_) =>
    case PostReindex(_) =>
    case EndOfSyncing(_) =>
    case Close => CloseKeepsLite(l);
  }

  lemma FinalityKeepsLite(l: Lite, n: int)
    requires LiteGood(l) && LiteLegal(l, Irreversible(n))
    ensures LiteGood(LiteStep(l, Irreversible(n)).value)
  {
    hide Ordered, Below, Above, Joined, Without, Contents;
  }

  lemma {:induction false} LiteRunKeeps(l: Lite, run: seq<Event>)
    requires LiteGood(l) && LiteRun(l, run).Some?
    ensures var t := LiteRun(l, run).value; LiteGood(t) && OnlyPushes(l.s.log, t.s.log)
    decreases |run|
  {
    hide LiteGood, LiteStep, LiteLegal;
    if run != [] {
      LiteStepKeeps(l, run[0]);
      LiteRunKeeps(LiteStep(l, run[0]).value, run[1..]);
    }
  }

  // ---- The way in ----

  /** The rows that are discarded on the way in are the cached ones not known to be irreversible. */
  lemma EnterKeeps(s: Sync)
    requires Good(s) && s.mode != Live && s.mode != Interrupted && s.mode != Stopped
    ensures var l := Enter(s);
            && l.Some? && LiteGood(l.value) && l.value.s.mode == Live && l.value.s.chain == s.chain
            && Between(s.chain, l.value.lo, l.value.hi) == Unsettled(s)
  {
    hide Conserved, DumpIrreversible, EntriesOk, LiveNumbers, Without, Between, Ordered, Below;
    FinalBound(s);
    var t := s;
    if s.mode != Start {
      IrreversibleKeeps(s);
      t := DumpIrreversible(s).value;
    }
    MoveKeepsRest(s, t);
    Discards(t);
  }

  lemma MoveKeepsRest(s: Sync, t: Sync)
    requires Good(s) && s.mode != Live && s.mode != Interrupted && s.mode != Stopped
    requires Some(t) == if s.mode == Start then Some(s) else DumpIrreversible(s)
    ensures t.cache == Unsettled(s)
  {
    hide Conserved, EntriesOk, Lower;
    SplitEmpty(s.irreversible);
  }

  /** Dropping the cache leaves what lies up to the mark. */
  lemma Discards(t: Sync)
    requires Conserved(t)
    ensures Between(t.chain, t.mark, t.head) == t.cache
    ensures Conserved(t.(mode := Live, cache := EMPTY, chain := Without(t.chain, t.mark, t.head)))
    ensures Ordered(t.chain) && Below(t.chain, t.head)
  {
    hide Contents, Ordered, UpTo;
    CacheIsUpper(t);
    SplitOrdered(t.chain, t.mark);
    CacheBelowHead(t);
    AllKept(t.cache, t.head);
    NothingUpper(t.chain, t.head);
    JoinedEmpty(Contents(t.log));
    BelowLater(Contents(t.log), t.mark, t.head);
  }

  lemma NothingUpper(t: Tables, n: int)
    requires Below(t, n)
    ensures Upper(t, n) == EMPTY
  {
    hide UpTo;
    forall w ensures Get(Upper(t, n), w) == Get(EMPTY, w) {
      assert AllUpTo(Get(t, w), n);
      NothingBeyond(Get(t, w), n);
    }
    SameTables(Upper(t, n), EMPTY);
  }

  // ---- The guarantees ----

  /** l is where some run of a lite node ends that went live in a reachable state s. */
  ghost predicate LiteReaches(c: Config, head: int, final: int, run: seq<Event>, s: Sync, more: seq<Event>, l: Lite) {
    && Reaches(c, head, final, run, s) && s.mode != Live && s.mode != Interrupted && s.mode != Stopped
    && Enter(s).Some? && LiteRun(Enter(s).value, more) == Some(l)
  }

  lemma LiteReachesGood(c: Config, head: int, final: int, run: seq<Event>, s: Sync, more: seq<Event>, l: Lite)
    requires LiteReaches(c, head, final, run, s, more, l)
    ensures LiteGood(l) && OnlyPushes(Enter(s).value.s.log, l.s.log)
  {
    hide Reaches, LiteRun, Enter, Good, LiteGood;
    ReachesGood(c, head, final, run, s);
    EnterKeeps(s);
    LiteRunKeeps(Enter(s).value, more);
  }

  // ---- The chain of the events ----

  lemma LiteStepFollows(first: int, l: Lite, h: Chain, e: Event)
    requires Follows(l.s, h) && LiteLegal(l, e) && LiteStep(l, e).Some?
    ensures Follows(LiteStep(l, e).value.s, ChainAfter(first, h, e))
  {
    hide Joined, Lower, Upper, Reverted, DumpBlocks, UpTo;
    if e.Apply? {
      var s := Collect(l.s, e.num, e.rows);
      if s.irreversible != NO_IRREVERSIBLE {
        DrainOnlyFlushes(s, |UpTo(s.cache.blocks, s.irreversible)|);
      }
    }
  }

  lemma {:induction false} LiteRunFollows(first: int, l: Lite, h: Chain, run: seq<Event>)
    requires Follows(l.s, h) && LiteRun(l, run).Some?
    ensures Follows(LiteRun(l, run).value.s, ChainFrom(first, h, run))
    decreases |run|
  {
    hide Follows, LiteStep, LiteLegal, ChainAfter;
    if run != [] {
      LiteStepFollows(first, l, h, run[0]);
      LiteRunFollows(first, LiteStep(l, run[0]).value, ChainAfter(first, h, run[0]), run[1..]);
    }
  }

  /** The same of what is seen of the chain without the discarded blocks. */
  lemma SeenStepFollows(first: int, l: Lite, h: Chain, e: Event)
    requires LiteGood(l) && Follows(Seen(l), h) && LiteLegal(l, e) && LiteStep(l, e).Some?
    ensures Follows(Seen(LiteStep(l, e).value), ChainAfter(first, h, e))
  {
    hide Joined, Lower, Upper, Reverted, LiteTrigger, Conserved, Ordered, Below, Without, BlockRows;
    if e.Apply? {
      WithoutAppend(l.s.chain, e.rows, l.lo, l.hi, e.num);
      CollectLive(l.s, e.num, e.rows);
      LiteTriggerFrame(Collect(l.s, e.num, e.rows));
    } else if e.Fork? {
      WithoutCut(l.s.chain, l.lo, l.hi, e.num);
    } else if e.Close? {
      MoveFrame(l.s);
    }
  }

  lemma CollectLive(s: Sync, num: int, rows: Tables)
    requires s.mode == Live
    ensures Collect(s, num, rows) == s.(head := num, cache := Joined(s.cache, rows), chain := Joined(s.chain, rows))
  {
  }

  lemma LiteTriggerFrame(s: Sync)
    requires LiteTrigger(s).Some?
    ensures OnlyFlushes(s, LiteTrigger(s).value)
  {
    hide DumpBlocks, UpTo;
    if s.irreversible != NO_IRREVERSIBLE {
      DrainOnlyFlushes(s, |UpTo(s.cache.blocks, s.irreversible)|);
    }
  }

  lemma MoveFrame(s: Sync)
    requires DumpIrreversible(s).Some?
    ensures OnlyFlushes(s, DumpIrreversible(s).value)
  {
    hide Lower, Upper;
  }

  lemma {:induction false} SeenRunFollows(first: int, l: Lite, h: Chain, run: seq<Event>)
    requires LiteGood(l) && Follows(Seen(l), h) && LiteRun(l, run).Some?
    ensures Follows(Seen(LiteRun(l, run).value), ChainFrom(first, h, run))
    decreases |run|
  {
    hide LiteGood, Follows, Seen, LiteStep, LiteLegal, ChainAfter;
    if run != [] {
      LiteStepKeeps(l, run[0]);
      SeenStepFollows(first, l, h, run[0]);
      SeenRunFollows(first, LiteStep(l, run[0]).value, ChainAfter(first, h, run[0]), run[1..]);
    }
  }

  /** The chain of the events up to the entry into LIVE. */
  function EntryChain(c: Config, head: int, final: int, run: seq<Event>): Chain {
    ChainAfter(c.first, ChainOf(c, head, final, run), EndOfSyncing(0))
  }

  /** The chain of all events, before and after the entry. */
  function LiteChain(c: Config, head: int, final: int, run: seq<Event>, more: seq<Event>): Chain {
    ChainFrom(c.first, EntryChain(c, head, final, run), more)
  }

  lemma EnterFollows(s: Sync, h: Chain)
    requires Follows(s, h) && s.mode != Live && Enter(s).Some?
    ensures Follows(Enter(s).value.s, h.(collecting := true, replaying := false))
  {
    hide Lower, Upper;
  }

  lemma LiteReachesFollows(c: Config, head: int, final: int, run: seq<Event>, s: Sync, more: seq<Event>, l: Lite)
    requires LiteReaches(c, head, final, run, s, more, l)
    ensures Follows(l.s, LiteChain(c, head, final, run, more))
  {
    hide Reaches, ChainOf, ChainFrom, LiteRun, Follows, Enter;
    ReachesFollows(c, head, final, run, s);
    EnterFollows(s, ChainOf(c, head, final, run));
    LiteRunFollows(c.first, Enter(s).value, EntryChain(c, head, final, run), more);
  }

  /** Equal wholes with the same second part have the same first part. */
  lemma CancelSecond(a: Tables, b: Tables, rest: Tables)
    requires Joined(a, rest) == Joined(b, rest)
    ensures a == b
  {
    hide Joined;
    forall w ensures Get(a, w) == Get(b, w) {
      var x, y, z := Get(a, w), Get(b, w), Get(rest, w);
      assert x + z == y + z;
      assert |x| == |y|;
      assert x == (x + z)[..|x|] && y == (y + z)[..|y|];
    }
    SameTables(a, b);
  }

  /** What is seen at the entry: the rows sent before it and the cached ones known to be irreversible. */
  lemma EntrySeen(s: Sync)
    requires Good(s) && s.mode != Live && s.mode != Interrupted && s.mode != Stopped
    ensures Enter(s).Some? && Seen(Enter(s).value).chain == Joined(Contents(s.log), Settled(s))
  {
    hide Conserved, DumpIrreversible, EntriesOk, LiveNumbers, Contents, Joined, Without, Ordered, Below;
    FinalBound(s);
    EnterKeeps(s);
    var t := s;
    if s.mode != Start {
      IrreversibleKeeps(s);
      t := DumpIrreversible(s).value;
    }
    MoveKeepsRest(s, t);
    ConservedParts(t);
    ChainParts(s);
    JoinedAssoc(Contents(s.log), Settled(s), Unsettled(s));
    CancelSecond(Contents(t.log), Joined(Contents(s.log), Settled(s)), Unsettled(s));
    var l := Enter(s).value;
    LiteGoodParts(l);
    JoinedEmpty(Contents(l.s.log));
  }

  /** Whatever happens: nothing reversible is sent, nothing sent is taken back, so no fork concerns the database. */
  lemma LiteSendsFinal(
    c: Config, head: int, final: int, run: seq<Event>, s: Sync, more: seq<Event>, l: Lite, w: Table, fork: int)
    requires LiteReaches(c, head, final, run, s, more, l) && LiteChain(c, head, final, run, more).final <= fork
    ensures AllUpTo(Get(Contents(l.s.log), w), LiteChain(c, head, final, run, more).final)
    ensures UpTo(Get(Contents(l.s.log), w), fork) == Get(Contents(l.s.log), w)
    ensures OnlyPushes(Enter(s).value.s.log, l.s.log)
  {
    hide LiteReaches, LiteChain, Contents, UpTo, Enter, Ordered, Without;
    LiteReachesGood(c, head, final, run, s, more, l);
    LiteReachesFollows(c, head, final, run, s, more, l);
    assert AllUpTo(Get(Contents(l.s.log), w), l.s.mark) by { assert Below(Contents(l.s.log), l.s.mark); }
    NothingBeyond(Get(Contents(l.s.log), w), fork);
  }

  /**
   * Rows sent followed by rows cached are the rows of the chain as if the blocks discarded on the way
   * in had never been: of the chain that starts with the rows sent before the entry and the cached
   * ones known to be irreversible then. They are all rows of the whole chain if and only if none of
   * the blocks above lo and up to hi, the discarded ones that no fork has removed since, has a row.
   */
  lemma LiteConservation(c: Config, head: int, final: int, run: seq<Event>, s: Sync, more: seq<Event>, l: Lite)
    requires LiteReaches(c, head, final, run, s, more, l)
    ensures var kept := EntryChain(c, head, final, run).(rows := Joined(Contents(s.log), Settled(s)));
            Joined(Contents(l.s.log), l.s.cache) == ChainFrom(c.first, kept, more).rows
    ensures var rows := LiteChain(c, head, final, run, more).rows;
            && Joined(Contents(l.s.log), l.s.cache) == Without(rows, l.lo, l.hi)
            && (Joined(Contents(l.s.log), l.s.cache) == rows <==> Between(rows, l.lo, l.hi) == EMPTY)
  {
    hide LiteRun, Reaches, ChainOf, ChainFrom, Contents, Without, Between, Ordered, Below, Above, Joined, Enter, Good;
    LiteReachesGood(c, head, final, run, s, more, l);
    LiteReachesFollows(c, head, final, run, s, more, l);
    WithoutAllIff(l.s.chain, l.lo, l.hi);
    ReachesGood(c, head, final, run, s);
    ReachesFollows(c, head, final, run, s);
    EnterKeeps(s);
    EnterFollows(s, ChainOf(c, head, final, run));
    EntrySeen(s);
    var kept := EntryChain(c, head, final, run).(rows := Joined(Contents(s.log), Settled(s)));
    SeenRunFollows(c.first, Enter(s).value, kept, more);
  }

  /** After each block of a lite LIVE node every block told to be irreversible has been pushed. */
  lemma LitePushesAll(c: Config, head: int, final: int, run: seq<Event>, s: Sync, more: seq<Event>, l: Lite, e: Event)
    requires LiteReaches(c, head, final, run, s, more, l) && LiteLegal(l, e) && e.Apply?
    requires LiteChain(c, head, final, run, more).told != NO_IRREVERSIBLE
    ensures LiteStep(l, e).Some? && Above(LiteStep(l, e).value.s.cache, LiteChain(c, head, final, run, more).told)
  {
    hide LiteReaches, LiteChain, Conserved, Ordered, Below, BlockRows, Joined, Without, LiteTrigger, UpTo, Above;
    LiteReachesGood(c, head, final, run, s, more, l);
    LiteReachesFollows(c, head, final, run, s, more, l);
    LiteStepKeeps(l, e);
    CollectLive(l.s, e.num, e.rows);
    var t := LiteStep(l, e).value;
    PushedAll(l, e.num, e.rows);
    CacheSorted(Seen(t));
    NoneLeft(t.s.cache, l.s.irreversible);
  }

  lemma PushedAll(l: Lite, num: int, rows: Tables)
    requires LiteGood(l) && LiteLegal(l, Apply(num, rows, true)) && l.s.irreversible != NO_IRREVERSIBLE
    requires LiteTrigger(Collect(l.s, num, rows)).Some?
    ensures AllBeyond(LiteTrigger(Collect(l.s, num, rows)).value.cache.blocks, l.s.irreversible)
  {
    hide Conserved, Ordered, Below, BlockRows, Joined, Without, DumpBlocks, UpTo;
    var s, c := l.s, Collect(l.s, num, rows);
    WithoutAppend(s.chain, rows, l.lo, l.hi, num);
    var seen := c.(chain := Without(c.chain, l.lo, l.hi));
    CollectConserves(Seen(l), num, rows);
    assert Collect(Seen(l), num, rows) == seen;
    TriggerPushes(seen);
    TriggerIgnoresChain(c, seen.chain);
    CacheSorted(seen);
    SplitsSorted(c.cache.blocks, s.irreversible);
  }

  lemma NoneLeft(t: Tables, n: int)
    requires Ordered(t) && AllBeyond(t.blocks, n)
    ensures Above(t, n)
  {
    forall w ensures AllBeyond(Get(t, w), n) {
      assert Covered(Get(t, w), t.blocks);
      forall i | 0 <= i < |Get(t, w)| ensures Get(t, w)[i].block > n {
        assert HasBlock(t.blocks, Get(t, w)[i].block);
      }
    }
  }

  /** Going live loses nothing if and only if no cached block is still reversible. */
  lemma LiteEntryIff(c: Config, head: int, final: int, run: seq<Event>, s: Sync)
    requires Reaches(c, head, final, run, s) && s.mode != Live && s.mode != Interrupted && s.mode != Stopped
    ensures Enter(s).Some?
    ensures Contents(Enter(s).value.s.log) == ChainOf(c, head, final, run).rows <==> Reversible(s) == []
  {
    hide Reaches, ChainOf, Contents, Without, Between, Good, Enter, LiteGood;
    ReachesGood(c, head, final, run, s);
    ReachesFollows(c, head, final, run, s);
    EnterKeeps(s);
    var l := Enter(s).value;
    LiteGoodParts(l);
    WithoutAllIff(s.chain, l.lo, l.hi);
    EnterClears(s);
    JoinedEmpty(Contents(l.s.log));
    KeptEmptyIff(s);
  }

  lemma LiteGoodParts(l: Lite)
    requires LiteGood(l)
    ensures Joined(Contents(l.s.log), l.s.cache) == Without(l.s.chain, l.lo, l.hi)
    ensures Ordered(l.s.chain) && l.lo <= l.hi
  {
  }

  lemma EnterClears(s: Sync)
    requires Enter(s).Some?
    ensures Enter(s).value.s.cache == EMPTY
  {
  }

  lemma KeptEmptyIff(s: Sync)
    requires Good(s)
    ensures Unsettled(s) == EMPTY <==> Reversible(s) == []
  {
    hide UpTo, Contents, Ordered, EntriesOk, Above, Below;
    CacheIsUpper(s);
    SplitOrdered(s.cache, s.irreversible);
    assert Get(Upper(s.cache, s.irreversible), Blocks) == Beyond(Get(s.cache, Blocks), s.irreversible);
    if Reversible(s) == [] {
      NoBlocksNoRows(Unsettled(s));
    }
  }

  /** A node that goes live right after its first P2P block never sends that block. */
  lemma LiteEntryLoses()
    ensures var s := Step(Config(1, false, 0), Init(0, 0), Apply(1, ONE_BLOCK, false));
            && s.Some? && Enter(s.value).Some?
            && ChainOf(Config(1, false, 0), 0, 0, [Apply(1, ONE_BLOCK, false)]).rows == ONE_BLOCK
            && var t := Enter(s.value).value.s; Contents(t.log) == EMPTY && t.cache == EMPTY
  {
    hide Step;
    FirstBlock();
    JoinedEmpty(ONE_BLOCK);
    var e, h := Apply(1, ONE_BLOCK, false), Begun(0, 0);
    assert [e][1..] == [] && ChainFrom(1, h, [e]) == ChainFrom(1, ChainAfter(1, h, e), [e][1..]);
  }

  lemma {:induction false} LiteThen(l: Lite, run: seq<Event>, t: Lite, e: Event)
    requires LiteRun(l, run) == Some(t) && LiteLegal(t, e) && LiteStep(t, e).Some?
    ensures LiteRun(l, run + [e]) == LiteStep(t, e)
    decreases |run|
  {
    hide LiteLegal, LiteStep;
    if run == [] {
      assert (run + [e])[1..] == [];
    } else {
      assert (run + [e])[1..] == run[1..] + [e];
      LiteThen(LiteStep(l, run[0]).value, run[1..], t, e);
    }
  }

  const SECOND_BLOCK := EMPTY.(blocks := [Row(2, "")])

  const BOTH_BLOCKS := EMPTY.(blocks := [Row(1, ""), Row(2, "")])

  /** A lite node with nothing pushed and the given rows cached. */
  function Caching(cache: Tables, head: int, irreversible: int, final: int): Lite {
    Lite(Sync(Live, cache, irreversible, 0, [], cache, head, final, 0), 0, 0)
  }

  lemma TwoBlocks() returns (run: seq<Event>)
    ensures LiteRun(Enter(Init(0, 0)).value, run) == Some(Caching(BOTH_BLOCKS, 2, NO_IRREVERSIBLE, 0))
  {
    var l := Enter(Init(0, 0)).value;
    assert LiteRun(l, []) == Some(l);
    hide LiteRun;
    OneBlockRows();
    JoinedEmpty(ONE_BLOCK);
    var t := Caching(ONE_BLOCK, 1, NO_IRREVERSIBLE, 0);
    assert LiteStep(l, Apply(1, ONE_BLOCK, true)) == Some(t);
    LiteThen(l, [], l, Apply(1, ONE_BLOCK, true));
    run := [] + [Apply(1, ONE_BLOCK, true)];
    assert BlockRows(SECOND_BLOCK, 2) by { assert forall w :: OfBlock(Get(SECOND_BLOCK, w), 2); }
    assert [Row(1, "")] + [Row(2, "")] == [Row(1, ""), Row(2, "")];
    assert Joined(ONE_BLOCK, SECOND_BLOCK) == BOTH_BLOCKS;
    LiteThen(l, run, t, Apply(2, SECOND_BLOCK, true));
    run := run + [Apply(2, SECOND_BLOCK, true)];
  }

  /** Stopped after two cached blocks became irreversible, it hands both to a dumper that takes one. */
  lemma LiteShutdownFails() returns (run: seq<Event>, l: Lite)
    ensures LiteRun(Enter(Init(0, 0)).value, run) == Some(l) && LiteLegal(l, Close) && LiteStep(l, Close).None?
  {
    hide LiteRun, Upper;
    run := TwoBlocks();
    l := Caching(BOTH_BLOCKS, 2, 2, 2);
    LiteThen(Enter(Init(0, 0)).value, run, Caching(BOTH_BLOCKS, 2, NO_IRREVERSIBLE, 0), Irreversible(2));
    run := run + [Irreversible(2)];
    SplitUnique(BOTH_BLOCKS.blocks, [], 2);
    assert BOTH_BLOCKS.blocks + [] == BOTH_BLOCKS.blocks;
    assert Lower(BOTH_BLOCKS, 2).blocks == UpTo(BOTH_BLOCKS.blocks, 2);
  }
}
