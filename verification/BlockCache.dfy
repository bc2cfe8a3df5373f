/** The seven tables cached between blocks, and the operations that split and erase them in place. */
module BlockCache {
  datatype Row = Row(block: int, payload: string)

  datatype Table = Blocks | Transactions | Multisig | Operations | Accounts | AccountOperations | Hardforks

  /** One list of rows per table. */
  datatype Tables = Tables(
    blocks: seq<Row>, transactions: seq<Row>, multisig: seq<Row>, operations: seq<Row>,
    accounts: seq<Row>, accountOperations: seq<Row>, hardforks: seq<Row>)

  const EMPTY := Tables([], [], [], [], [], [], [])

  function Get(t: Tables, w: Table): seq<Row> {
    match w
    case Blocks => t.blocks
    case Transactions => t.transactions
    case Multisig => t.multisig
    case Operations => t.operations
    case Accounts => t.accounts
    case AccountOperations => t.accountOperations
    case Hardforks => t.hardforks
  }

  function Each(f: seq<Row> -> seq<Row>, t: Tables): (r: Tables)
    ensures forall w :: Get(r, w) == f(Get(t, w))
  {
    Tables(f(t.blocks), f(t.transactions), f(t.multisig), f(t.operations), f(t.accounts), f(t.accountOperations),
        f(t.hardforks))
  }

  function Joined(a: Tables, b: Tables): (r: Tables)
    ensures forall w :: Get(r, w) == Get(a, w) + Get(b, w)
  {
    Tables(a.blocks + b.blocks, a.transactions + b.transactions, a.multisig + b.multisig, a.operations + b.operations,
           a.accounts + b.accounts, a.accountOperations + b.accountOperations, a.hardforks + b.hardforks)
  }

  lemma SameTables(a: Tables, b: Tables)
    requires forall w :: Get(a, w) == Get(b, w)
    ensures a == b
  {
    assert a.blocks == Get(a, Blocks) && a.transactions == Get(a, Transactions) && a.multisig == Get(a, Multisig);
    assert a.operations == Get(a, Operations) && a.accounts == Get(a, Accounts);
    assert a.accountOperations == Get(a, AccountOperations) && a.hardforks == Get(a, Hardforks);
  }

  // ---- One table ----

  predicate Sorted(rows: seq<Row>) {
    forall i, j | 0 <= i < j < |rows| :: rows[i].block <= rows[j].block
  }

  /** The rows before the first one above block n. */
  function UpTo(rows: seq<Row>, n: int): (r: seq<Row>)
    ensures r <= rows
  {
    if rows == [] || rows[0].block > n then [] else [rows[0]] + UpTo(rows[1..], n)
  }

  function Beyond(rows: seq<Row>, n: int): seq<Row> {
    rows[|UpTo(rows, n)|..]
  }

  predicate AllUpTo(rows: seq<Row>, n: int) {
    forall i | 0 <= i < |rows| :: rows[i].block <= n
  }

  predicate AllBeyond(rows: seq<Row>, n: int) {
    forall i | 0 <= i < |rows| :: rows[i].block > n
  }

  lemma SortedTail(rows: seq<Row>)
    requires Sorted(rows) && rows != []
    ensures Sorted(rows[1..]) && AllBeyond(rows, rows[0].block - 1)
  {
  }

  lemma {:induction false} SplitsSorted(rows: seq<Row>, n: int)
    requires Sorted(rows)
    ensures AllUpTo(UpTo(rows, n), n) && AllBeyond(Beyond(rows, n), n)
    ensures UpTo(rows, n) + Beyond(rows, n) == rows
  {
    hide Sorted;
    if rows != [] {
      SortedTail(rows);
      if rows[0].block <= n {
        SplitsSorted(rows[1..], n);
        assert Beyond(rows, n) == Beyond(rows[1..], n);
      }
    }
  }

  /** Where a row of a sorted table ends up. */
  lemma SplitAt(rows: seq<Row>, n: int, i: nat)
    requires Sorted(rows) && i < |rows|
    ensures rows[i].block <= n ==> i < |UpTo(rows, n)| && UpTo(rows, n)[i] == rows[i]
    ensures rows[i].block > n ==> i >= |UpTo(rows, n)| && Beyond(rows, n)[i - |UpTo(rows, n)|] == rows[i]
  {
    hide UpTo, Sorted;
    SplitsSorted(rows, n);
    var low, high := UpTo(rows, n), Beyond(rows, n);
    assert rows[i] == (low + high)[i];
  }

  /** The split is the only one: lower part up to n, upper part beyond. */
  lemma {:induction false} SplitUnique(a: seq<Row>, b: seq<Row>, n: int)
    requires AllUpTo(a, n) && AllBeyond(b, n)
    ensures UpTo(a + b, n) == a && Beyond(a + b, n) == b
  {
    if a == [] {
      assert a + b == b;
    } else {
      assert (a + b)[1..] == a[1..] + b;
      SplitUnique(a[1..], b, n);
      assert Beyond(a + b, n) == b;
    }
  }

  lemma {:induction false} UpToPrefix(a: seq<Row>, b: seq<Row>, n: int)
    requires AllUpTo(a, n)
    ensures UpTo(a + b, n) == a + UpTo(b, n)
  {
    if a == [] {
      assert a + b == b;
    } else {
      assert (a + b)[1..] == a[1..] + b;
      UpToPrefix(a[1..], b, n);
    }
  }

  lemma NothingBeyond(rows: seq<Row>, n: int)
    requires AllUpTo(rows, n)
    ensures UpTo(rows, n) == rows
  {
    SplitUnique(rows, [], n);
    assert rows + [] == rows;
  }

  /** std::upper_bound over the rows of a table. */
  method UpperBound(rows: seq<Row>, n: int) returns (k: nat)
    requires Sorted(rows)
    ensures k <= |rows| && AllUpTo(rows[..k], n) && AllBeyond(rows[k..], n)
  {
    var lo, hi := 0, |rows|;
    while lo < hi
      invariant lo <= hi <= |rows|
      invariant AllUpTo(rows[..lo], n) && AllBeyond(rows[hi..], n)
    {
      var mid := (lo + hi) / 2;
      if rows[mid].block <= n {
        lo := mid + 1;
      } else {
        hi := mid;
      }
    }
    k := lo;
  }

  /** move_items_upto_block: the moved rows are put before what the target already holds. */
  method MoveItems(target: seq<Row>, source: seq<Row>, n: int) returns (target': seq<Row>, source': seq<Row>)
    requires Sorted(source)
    ensures target' == UpTo(source, n) + target && source' == Beyond(source, n)
  {
    var k := UpperBound(source, n);
    assert source[..k] + source[k..] == source;
    SplitUnique(source[..k], source[k..], n);
    target', source' := source[..k] + target, source[k..];
  }

  /** erase_items_greater_than_block: cut at the lower bound of n + 1. */
  method EraseItems(rows: seq<Row>, n: int) returns (kept: seq<Row>)
    requires Sorted(rows)
    ensures kept == UpTo(rows, n)
  {
    var k := UpperBound(rows, n);
    assert rows[..k] + rows[k..] == rows;
    SplitUnique(rows[..k], rows[k..], n);
    kept := rows[..k];
  }

  // ---- All tables ----

  function Lower(t: Tables, n: int): Tables {
    Each(rows => UpTo(rows, n), t)
  }

  function Upper(t: Tables, n: int): Tables {
    Each(rows => Beyond(rows, n), t)
  }

  predicate HasBlock(blocks: seq<Row>, n: int) {
    exists i :: 0 <= i < |blocks| && blocks[i].block == n
  }

  predicate Covered(rows: seq<Row>, blocks: seq<Row>) {
    forall i | 0 <= i < |rows| :: HasBlock(blocks, rows[i].block)
  }

  predicate Strict(blocks: seq<Row>) {
    forall i, j | 0 <= i < j < |blocks| :: blocks[i].block < blocks[j].block
  }

  /** Tables in block order, where every row belongs to a cached block. */
  ghost predicate Ordered(t: Tables) {
    Strict(t.blocks) && forall w :: Sorted(Get(t, w)) && Covered(Get(t, w), t.blocks)
  }

  lemma CoveredParts(rows: seq<Row>, blocks: seq<Row>, n: int)
    requires Sorted(rows) && Sorted(blocks) && Covered(rows, blocks)
    ensures Covered(UpTo(rows, n), UpTo(blocks, n)) && Covered(Beyond(rows, n), Beyond(blocks, n))
  {
    hide UpTo, Sorted;
    SplitsSorted(rows, n);
    var low, high := UpTo(rows, n), Beyond(rows, n);
    forall i | 0 <= i < |low| ensures HasBlock(UpTo(blocks, n), low[i].block) {
      assert low[i] == rows[i];
      var j :| 0 <= j < |blocks| && blocks[j].block == rows[i].block;
      SplitAt(blocks, n, j);
    }
    forall i | 0 <= i < |high| ensures HasBlock(Beyond(blocks, n), high[i].block) {
      assert high[i] == rows[|low| + i];
      var j :| 0 <= j < |blocks| && blocks[j].block == high[i].block;
      SplitAt(blocks, n, j);
    }
  }

  lemma SplitOrdered(t: Tables, n: int)
    requires Ordered(t)
    ensures Ordered(Lower(t, n)) && Ordered(Upper(t, n))
    ensures forall w :: AllUpTo(Get(Lower(t, n), w), n) && AllBeyond(Get(Upper(t, n), w), n)
    ensures Joined(Lower(t, n), Upper(t, n)) == t
  {
    hide UpTo, Covered;
    forall w
      ensures Covered(Get(Lower(t, n), w), Lower(t, n).blocks) && Covered(Get(Upper(t, n), w), Upper(t, n).blocks)
      ensures AllUpTo(Get(Lower(t, n), w), n) && AllBeyond(Get(Upper(t, n), w), n)
      ensures Get(Joined(Lower(t, n), Upper(t, n)), w) == Get(t, w)
    {
      SplitsSorted(Get(t, w), n);
      CoveredParts(Get(t, w), t.blocks, n);
    }
    SameTables(Joined(Lower(t, n), Upper(t, n)), t);
  }

  /** No block row means no rows at all. */
  lemma NoBlocksNoRows(t: Tables)
    requires Ordered(t) && t.blocks == []
    ensures t == EMPTY
  {
    forall w ensures Get(t, w) == Get(EMPTY, w) {
      assert Get(t, w) != [] ==> HasBlock(t.blocks, Get(t, w)[0].block);
    }
    SameTables(t, EMPTY);
  }
}
