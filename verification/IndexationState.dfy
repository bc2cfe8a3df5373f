/** The object behind the state machine: it splits and erases its cached tables in place. */
module IndexationState {
  import opened Common
  import opened BlockCache
  import opened Synchronization
  import LiteSync

  class Indexation {
    const config: Config
    var mode: Mode
    var cache: Tables
    var irreversible: int
    var lastFlushed: int
    var log: seq<Entry>
    ghost var chain: Tables
    var head: int
    ghost var final: int
    ghost var mark: int

    ghost function State(): Sync
      reads this
    {
      Sync(mode, cache, irreversible, lastFlushed, log, chain, head, final, mark)
    }

    constructor (config: Config, head: int, ghost final: int)
      ensures this.config == config && State() == Init(head, final)
    {
      this.config := config;
      mode, cache, irreversible, lastFlushed, log := Start, EMPTY, NO_IRREVERSIBLE, 0, [];
      chain, this.head, this.final, mark := EMPTY, head, final, final;
    }

    /** The seven calls of move_items_upto_block. */
    method MoveUpTo(n: int) returns (moved: Tables)
      requires Ordered(cache)
      modifies this`cache, this`mark
      ensures State() == old(State()).(cache := Upper(old(cache), n), mark := Later(old(mark), n))
      ensures moved == Lower(old(cache), n)
    {
      hide UpTo, Beyond;
      SortedTables(cache);
      var blocks, blocks' := MoveItems([], cache.blocks, n);
      var transactions, transactions' := MoveItems([], cache.transactions, n);
      var multisig, multisig' := MoveItems([], cache.multisig, n);
      var operations, operations' := MoveItems([], cache.operations, n);
      var accounts, accounts' := MoveItems([], cache.accounts, n);
      var accountOperations, accountOperations' := MoveItems([], cache.accountOperations, n);
      var hardforks, hardforks' := MoveItems([], cache.hardforks, n);
      moved := Tables(blocks, transactions, multisig, operations, accounts, accountOperations, hardforks);
      cache := Tables(blocks', transactions', multisig', operations', accounts', accountOperations', hardforks');
      mark := Later(mark, n);
      assert forall rows: seq<Row> :: rows + [] == rows;
    }

    /** force_trigger_flush_with_all_data with the dumper of the current mode. */
    method ForceFlush(data: Tables, num: int) returns (ok: bool)
      modifies this`log
      ensures ok <==> Dump(old(State()), data, num).Some?
      ensures State() == if ok then Dump(old(State()), data, num).value else old(State())
    {
      if data.blocks == [] {
        return true;
      }
      match mode
      case Wait => return true;
      case ReindexWait => return true;
      case Reindex =>
        log := log + [Massive(data, num)];
        return true;
      case P2P =>
        log := log + [Massive(data, num)];
        return true;
      case Start => return false;
      case Stopped => return false;
      case _ =>
        if |data.blocks| != 1 { return false; }
        log := log + [LiveBlock(data, num)];
        return true;
    }

    method FlushCache(num: int) returns (ok: bool)
      modifies this`log, this`cache, this`mark
      ensures ok <==> DumpCache(old(State()), num).Some?
      ensures ok ==> State() == DumpCache(old(State()), num).value
    {
      var dumped := cache.blocks != [] && mode != Wait && mode != ReindexWait;
      ok := ForceFlush(cache, num);
      if ok && dumped {
        cache := EMPTY;
        mark := head;
      }
    }

    method MoveIrreversibleBlocks() returns (ok: bool)
      requires Ordered(cache)
      modifies this`log, this`cache, this`mark
      ensures ok <==> DumpIrreversible(old(State())).Some?
      ensures ok ==> State() == DumpIrreversible(old(State())).value
    {
      if irreversible == NO_IRREVERSIBLE {
        return true;
      }
      var data := MoveUpTo(irreversible);
      ok := ForceFlush(data, irreversible);
    }

    /** The loop that drains the cache block by block, for as long as no interrupt is requested. */
    method FlushAllDataToReversible(rounds: nat) returns (ok: bool)
      requires Conserved(State()) && mode == Live
      modifies this`log, this`cache, this`mark
      ensures ok && Some(State()) == DumpBlocks(old(State()), rounds) && Conserved(State())
    {
      hide Conserved, Lower, Upper, LiveNumbers, DumpBlocks, Dump;
      ok := true;
      var left := rounds;
      while cache.blocks != [] && left > 0
        invariant ok && mode == Live && Conserved(State())
        invariant DumpBlocks(State(), left) == DumpBlocks(old(State()), rounds)
      {
        ghost var before := State();
        CacheIsUpper(before);
        DumpBlockConserves(before);
        DumpBlocksRound(before, left);
        var n := cache.blocks[0].block;
        var data := MoveUpTo(n);
        ok := ForceFlush(data, n);
        left := left - 1;
      }
      DumpBlocksDone(State(), left);
    }

    method TriggerDataFlush(num: int) returns (ok: bool)
      requires Ordered(cache)
      modifies this`log, this`cache, this`mark, this`lastFlushed
      ensures ok <==> Trigger(old(State()), num).Some?
      ensures ok ==> State() == Trigger(old(State()), num).value
    {
      hide DumpIrreversible, DumpCache, Ordered;
      match mode
      case Reindex =>
        if num % BLOCKS_PER_FLUSH != 0 { return true; }
        ok := FlushCache(num);
      case Live => ok := FlushCache(num);
      case P2P =>
        if irreversible == NO_IRREVERSIBLE || irreversible - lastFlushed < BLOCKS_PER_FLUSH { return true; }
        ok := MoveIrreversibleBlocks();
        if ok { lastFlushed := irreversible; }
      case _ => return true;
    }

    method OnIrreversibleBlock(n: int)
      modifies this`irreversible, this`final
      ensures Some(State()) == Step(config, old(State()), Irreversible(n))
    {
      irreversible := n;
      final := n;
    }

    /** The seven calls of erase_items_greater_than_block. */
    method EraseAbove(n: int)
      requires Ordered(cache)
      modifies this`cache
      ensures cache == Lower(old(cache), n)
    {
      hide UpTo;
      SortedTables(cache);
      var blocks := EraseItems(cache.blocks, n);
      var transactions := EraseItems(cache.transactions, n);
      var multisig := EraseItems(cache.multisig, n);
      var operations := EraseItems(cache.operations, n);
      var accounts := EraseItems(cache.accounts, n);
      var accountOperations := EraseItems(cache.accountOperations, n);
      var hardforks := EraseItems(cache.hardforks, n);
      cache := Tables(blocks, transactions, multisig, operations, accounts, accountOperations, hardforks);
    }

    /** In P2P the cached rows above n are erased; in LIVE the dumper's own handler queues the rollback. */
    method OnSwitchFork(n: int)
      requires Ordered(cache)
      modifies this`cache, this`log, this`head, this`chain, this`mark
      ensures Some(State()) == Step(config, old(State()), Fork(n))
    {
      head, chain := n, Lower(chain, n);
      if mode == P2P {
        EraseAbove(n);
      } else if mode == Live {
        log := log + [Rewind(n)];
        mark := n;
      }
    }

    /** In lite mode a fork in LIVE erases cached rows, and nothing is queued. */
    method OnLiteSwitchFork(n: int)
      requires Ordered(cache) && mode == Live
      modifies this`cache, this`head, this`chain
      ensures forall lo, hi ::
                LiteSync.LiteStep(LiteSync.Lite(old(State()), lo, hi), Fork(n))
                == Some(LiteSync.Lite(State(), lo, LiteSync.Earlier(hi, n)))
    {
      hide Lower;
      head, chain := n, Lower(chain, n);
      EraseAbove(n);
    }

    /** lite_live_flush_trigger: the loop over the first cached blocks while they are irreversible. */
    method LiteFlush() returns (ok: bool)
      requires Ordered(cache) && mode == Live
      modifies this`log, this`cache, this`mark
      ensures ok && Some(State()) == LiteSync.LiteTrigger(old(State()))
    {
      hide Ordered, Lower, Upper, LiteSync.LiteTrigger, Dump;
      ok := true;
      if irreversible == NO_IRREVERSIBLE {
        LiteSync.LiteDone(State());
        return;
      }
      while cache.blocks != [] && cache.blocks[0].block <= irreversible
        invariant ok && Ordered(cache) && LiteSync.LiteTrigger(State()) == LiteSync.LiteTrigger(old(State()))
        decreases |cache.blocks|
      {
        LiteSync.LiteRound(State());
        var n := cache.blocks[0].block;
        var data := MoveUpTo(n);
        ok := ForceFlush(data, n);
      }
      LiteSync.LiteDone(State());
    }

    /** The entry into LIVE in lite mode: the irreversible rows leave, the others are cleared. */
    method OnLiteEndOfSyncing() returns (ok: bool)
      requires Good(State()) && mode != Live && mode != Interrupted && mode != Stopped
      modifies this
      ensures ok && LiteSync.Enter(old(State())) == Some(LiteSync.Lite(State(), mark, old(head)))
    {
      hide Good, DumpIrreversible;
      ghost var before := State();
      MoveKeeps(before);
      GoodParts(before);
      ok := true;
      if mode != Start {
        ok := MoveIrreversibleBlocks();
      }
      mode, cache := Live, EMPTY;
    }

    /** Never fails on a reachable state: the live dumper's one-block assertion always holds. */
    method OnEndOfSyncing(rounds: nat) returns (ok: bool)
      requires Good(State()) && mode != Interrupted && mode != Stopped
      modifies this
      ensures ok && Some(State()) == Step(config, old(State()), EndOfSyncing(rounds)) && Good(State())
      ensures rounds >= |old(cache.blocks)| ==> mode == Live
    {
      hide Good, DumpIrreversible, DumpBlocks, Conserved;
      ghost var before := State();
      StepKeeps(config, before, EndOfSyncing(rounds));
      ok := true;
      if mode != Live {
        EnterLiveKeeps(before, rounds);
        GoodParts(before);
        if mode != Start {
          ok := MoveIrreversibleBlocks();
        }
        mode := Live;
        GoodFlush(before);
        ok := FlushAllDataToReversible(rounds);
        if cache.blocks != [] {
          mode := Interrupted;
        }
      }
    }

    /** on_block before the block is applied; false where resuming an interrupted massive sync is refused. */
    method BeforeBlock(num: int, canLive: bool) returns (ok: bool)
      modifies this`mode, this`irreversible, this`lastFlushed
      ensures ok <==> OnBlock(config, old(State()), num, canLive).Some?
      ensures ok ==> State() == OnBlock(config, old(State()), num, canLive).value
    {
      if mode == Start {
        mode := Wait;
      }
      if num >= config.first {
        match mode
        case Wait =>
          if canLive {
            mode := Live;
          } else if config.interrupted && num != config.psqlHead + 1 {
            return false;
          } else {
            mode, irreversible, lastFlushed := P2P, NO_IRREVERSIBLE, 0;
          }
        case ReindexWait => mode := Reindex;
        case _ =>
      }
      return true;
    }

    /** A whole block: before it, its rows, and the flush trigger after it. */
    method ApplyBlock(num: int, rows: Tables, canLive: bool) returns (ok: bool)
      requires Good(State()) && Legal(State(), Apply(num, rows, canLive))
      modifies this
      ensures ok <==> !Refuses(config, old(State()), Apply(num, rows, canLive))
      ensures ok ==> Some(State()) == Step(config, old(State()), Apply(num, rows, canLive)) && Good(State())
    {
      hide Good, Ready, ModeOk, Conserved, OnBlock, Trigger, BlockRows, EntriesOk, Joined;
      ghost var before := State();
      StepKeeps(config, before, Apply(num, rows, canLive));
      ApplyKeeps(config, before, num, rows, canLive);
      OnBlockReady(config, before, num, canLive);
      ok := BeforeBlock(num, canLive);
      if ok {
        ghost var ready := State();
        CollectReady(ready, num, rows);
        head := num;
        if Collects(mode) {
          cache := Joined(cache, rows);
          chain := Joined(chain, rows);
          final := if mode == Reindex then num else final;
        }
        CacheIsUpper(State());
        ok := TriggerDataFlush(num);
      }
    }

    /** False where the source refuses to leave LIVE. */
    method OnPreReindex(canLive: bool) returns (ok: bool)
      modifies this`mode
      ensures ok <==> Step(config, old(State()), PreReindex(canLive)).Some?
      ensures ok ==> Some(State()) == Step(config, old(State()), PreReindex(canLive))
    {
      if mode == Live {
        return false;
      }
      mode := if canLive then Wait else ReindexWait;
      return true;
    }

    method OnPostReindex(stop: bool) returns (ok: bool)
      requires Good(State()) && mode != Stopped
      modifies this
      ensures ok && Some(State()) == Step(config, old(State()), PostReindex(stop)) && Good(State())
    {
      hide Good, DumpCache;
      PostReindexKeeps(config, State(), stop);
      ok := true;
      if mode == Reindex {
        ok := FlushCache(head);
        if stop {
          mode := Stopped;
        } else {
          mode, irreversible, lastFlushed := P2P, NO_IRREVERSIBLE, 0;
        }
      } else if mode == ReindexWait {
        if stop {
          ok := FlushCache(head);
          mode := Stopped;
        } else {
          mode := Wait;
        }
      }
    }

    /** flush_all_cached_data at shutdown. */
    method FlushAllCachedData() returns (ok: bool)
      requires Good(State()) && mode != Stopped
      modifies this
      ensures ok && Some(State()) == Step(config, old(State()), Close) && Good(State())
    {
      hide Good, DumpCache, DumpIrreversible;
      CloseKeeps(config, State());
      GoodParts(State());
      if mode == Live || mode == Interrupted {
        ok := MoveIrreversibleBlocks();
      } else {
        ok := FlushCache(head);
      }
      mode := Stopped;
    }
  }

  lemma SortedTables(t: Tables)
    requires Ordered(t)
    ensures Sorted(t.blocks) && Sorted(t.transactions) && Sorted(t.multisig) && Sorted(t.operations)
    ensures Sorted(t.accounts) && Sorted(t.accountOperations) && Sorted(t.hardforks)
  {
    assert Sorted(Get(t, Blocks)) && Sorted(Get(t, Transactions)) && Sorted(Get(t, Multisig))
        && Sorted(Get(t, Operations));
    assert Sorted(Get(t, Accounts)) && Sorted(Get(t, AccountOperations)) && Sorted(Get(t, Hardforks));
  }

  lemma GoodParts(s: Sync)
    requires Good(s)
    ensures Ordered(s.cache)
  {
    CacheIsUpper(s);
  }

  /** Before the drain: conservation after the irreversible part was moved. */
  lemma GoodFlush(s: Sync)
    requires Good(s) && s.mode != Live && s.mode != Interrupted && s.mode != Stopped
    ensures var t := if s.mode == Start then Some(s) else DumpIrreversible(s);
            t.Some? && Conserved(t.value.(mode := Live))
  {
    hide Conserved, DumpIrreversible, EntriesOk;
    MoveKeeps(s);
    var t := if s.mode == Start then s else DumpIrreversible(s).value;
    SameRows(t.(mode := Stopped), Live, t.irreversible, t.lastFlushed);
  }
}
