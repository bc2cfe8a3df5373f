/** From the cached rows of a live block to its push_block command, for any completion order of the writers. */
module LivePush {
  import opened BlockCache
  import opened Rendering
  import Synchronization

  /** How many threads write transactions, operations and account operations; the others have one. */
  datatype Widths = Widths(transactions: nat, operations: nat, accountOperations: nat)

  function Width(ws: Widths, t: Table): nat {
    match t
    case Transactions => ws.transactions
    case Operations => ws.operations
    case AccountOperations => ws.accountOperations
    case _ => 1
  }

  predicate HasWriters(ws: Widths) {
    ws.transactions > 0 && ws.operations > 0 && ws.accountOperations > 0
  }

  /** A writer: its table and its place among that table's threads. */
  type Writer = (Table, nat)

  /** The text each writer's callback has stored; nothing where it was cleared. */
  type Slots = map<Writer, string>

  function TextAt(slots: Slots, w: Writer): string {
    if w in slots then slots[w] else []
  }

  function Texts(slots: Slots, t: Table, k: nat): seq<string> {
    if k == 0 then [] else Texts(slots, t, k - 1) + [TextAt(slots, (t, k - 1))]
  }

  function TableText(slots: Slots, ws: Widths, t: Table): string {
    Merged(Texts(slots, t, Width(ws, t)))
  }

  // ---- Steps ----

  function Assigned(data: Tables, ws: Widths, w: Writer): seq<Row>
    requires HasWriters(ws)
  {
    Slice(Get(data, w.0), Width(ws, w.0), w.1)
  }

  /** A writer works off its chunk; one without rows only reports. */
  function Process(slots: Slots, data: Tables, ws: Widths, w: Writer): Slots
    requires HasWriters(ws)
  {
    var rows := Assigned(data, ws, w);
    if rows == [] then slots else slots[w := Render(rows)]
  }

  function ProcessAll(slots: Slots, data: Tables, ws: Widths, order: seq<Writer>): Slots
    requires HasWriters(ws)
  {
    if order == [] then slots
    else Process(ProcessAll(slots, data, ws, order[..|order| - 1]), data, ws, order[|order| - 1])
  }

  /** An argument of the call: the rows of a table as an array of its row type. */
  function ArrayOf(text: string, table: string): string {
    OPEN + text + "]::hafd." + table + "[]"
  }

  const OPEN := ",ARRAY["

  /** What closes the array of one table and opens the next. */
  function Between(table: string): string {
    "]::hafd." + table + "[]" + OPEN
  }

  lemma AfterTransactions()
    ensures "]::hafd.transactions[],ARRAY[" == Between("transactions")
  {
  }

  lemma AfterMultisig()
    ensures "]::hafd.transactions_multisig[],ARRAY[" == Between("transactions_multisig")
  {
  }

  lemma AfterOperations()
    ensures "]::hafd.operations[],ARRAY[" == Between("operations")
  {
  }

  lemma AfterAccounts()
    ensures "]::hafd.accounts[],ARRAY[" == Between("accounts")
  {
  }

  lemma AfterAccountOperations()
    ensures "]::hafd.account_operations[],ARRAY[" == Between("account_operations")
  {
  }

  lemma Reassociate(s: string, open: string, text: string, close: string, table: string, end: string, next: string)
    ensures s + open + text + (close + table + end + open) + next
            == s + (open + text + close + table + end) + open + next
  {
  }

  lemma NextArray(s: string, text: string, table: string, next: string)
    ensures s + OPEN + text + Between(table) + next == s + ArrayOf(text, table) + OPEN + next
  {
    Reassociate(s, OPEN, text, "]::hafd.", table, "[]", next);
  }

  function Command(lite: bool, block: string, transactions: string, multisig: string, operations: string,
                   accounts: string, accountOperations: string, hardforks: string): string
  {
    "SELECT hive." + (if lite then "push_block_lite" else "push_block") + "(" + block + "::hafd.blocks"
    + ArrayOf(transactions, "transactions") + ArrayOf(multisig, "transactions_multisig")
    + ArrayOf(operations, "operations") + ArrayOf(accounts, "accounts")
    + ArrayOf(accountOperations, "account_operations") + ArrayOf(hardforks, "applied_hardforks") + ")"
  }

  /** The command as it is put together piece by piece. */
  method BuildCommand(lite: bool, block: string, transactions: string, multisig: string, operations: string,
                      accounts: string, accountOperations: string, hardforks: string) returns (sql: string)
    ensures sql == Command(lite, block, transactions, multisig, operations, accounts, accountOperations, hardforks)
  {
    hide ArrayOf, Between;
    AfterTransactions();
    AfterMultisig();
    AfterOperations();
    AfterAccounts();
    AfterAccountOperations();
    sql := if lite then "SELECT hive.push_block_lite(" else "SELECT hive.push_block(";
    sql := sql + block;
    ghost var s1 := "SELECT hive." + (if lite then "push_block_lite" else "push_block") + "(" + block + "::hafd.blocks";
    Head(lite, block);
    sql := sql + "::hafd.blocks,ARRAY[";
    assert sql == s1 + OPEN;
    sql := sql + transactions;
    sql := sql + "]::hafd.transactions[],ARRAY[";
    sql := sql + multisig;
    NextArray(s1, transactions, "transactions", multisig);
    ghost var s2 := s1 + ArrayOf(transactions, "transactions");
    sql := sql + "]::hafd.transactions_multisig[],ARRAY[";
    sql := sql + operations;
    NextArray(s2, multisig, "transactions_multisig", operations);
    ghost var s3 := s2 + ArrayOf(multisig, "transactions_multisig");
    sql := sql + "]::hafd.operations[],ARRAY[";
    sql := sql + accounts;
    NextArray(s3, operations, "operations", accounts);
    ghost var s4 := s3 + ArrayOf(operations, "operations");
    sql := sql + "]::hafd.accounts[],ARRAY[";
    sql := sql + accountOperations;
    NextArray(s4, accounts, "accounts", accountOperations);
    ghost var s5 := s4 + ArrayOf(accounts, "accounts");
    sql := sql + "]::hafd.account_operations[],ARRAY[";
    sql := sql + hardforks;
    NextArray(s5, accountOperations, "account_operations", hardforks);
    sql := sql + "]::hafd.applied_hardforks[])";
    LastArray(s5 + ArrayOf(accountOperations, "account_operations"), hardforks);
  }

  lemma Head(lite: bool, block: string)
    ensures (if lite then "SELECT hive.push_block_lite(" else "SELECT hive.push_block(") + block
            + "::hafd.blocks,ARRAY["
         == "SELECT hive." + (if lite then "push_block_lite" else "push_block") + "(" + block + "::hafd.blocks" + OPEN
  {
    assert "SELECT hive.push_block(" == "SELECT hive." + "push_block" + "(";
    assert "SELECT hive.push_block_lite(" == "SELECT hive." + "push_block_lite" + "(";
    assert "::hafd.blocks,ARRAY[" == "::hafd.blocks" + OPEN;
  }

  lemma LastArray(s: string, text: string)
    ensures s + OPEN + text + "]::hafd.applied_hardforks[])" == s + ArrayOf(text, "applied_hardforks") + ")"
  {
    assert "]::hafd.applied_hardforks[])" == "]::hafd." + "applied_hardforks" + "[]" + ")";
  }

  function SlotsCommand(lite: bool, slots: Slots, ws: Widths): string {
    Command(lite, TableText(slots, ws, Blocks), TableText(slots, ws, Transactions), TableText(slots, ws, Multisig),
            TableText(slots, ws, Operations), TableText(slots, ws, Accounts), TableText(slots, ws, AccountOperations),
            TableText(slots, ws, Hardforks))
  }

  /** The command a single thread would have written for the rows of one block. */
  function BlockCommand(lite: bool, data: Tables): string {
    Command(lite, Render(data.blocks), Render(data.transactions), Render(data.multisig), Render(data.operations),
            Render(data.accounts), Render(data.accountOperations), Render(data.hardforks))
  }

  predicate IsSplit(t: Table) {
    t == Transactions || t == Operations || t == AccountOperations
  }

  /** execute_push_block: without a block text nothing is sent and split tables keep their strings. */
  function Fire(lite: bool, slots: Slots, ws: Widths, commands: seq<string>): (Slots, seq<string>) {
    if TableText(slots, ws, Blocks) != [] then (map[], commands + [SlotsCommand(lite, slots, ws)])
    else (map w | w in slots && IsSplit(w.0) :: slots[w], commands)
  }

  class LivesyncDumper {
    const ws: Widths
    const lite: bool
    var slots: Slots
    var commands: seq<string>

    constructor (ws: Widths, lite: bool)
      ensures this.ws == ws && this.lite == lite && slots == map[] && commands == []
    {
      this.ws, this.lite := ws, lite;
      slots, commands := map[], [];
    }

    /** The callback of one writer thread. */
    method StoreText(w: Writer, text: string)
      modifies this`slots
      ensures slots == old(slots)[w := text]
    {
      slots := slots[w := text];
    }

    method WriterDone(data: Tables, w: Writer)
      requires HasWriters(ws)
      modifies this`slots
      ensures slots == Process(old(slots), data, ws, w)
    {
      var rows := Assigned(data, ws, w);
      if rows != [] {
        var text := FlushScalarLiveData(rows);
        StoreText(w, text);
      }
    }

    method ExecutePushBlock()
      modifies this`slots, this`commands
      ensures (slots, commands) == Fire(lite, old(slots), ws, old(commands))
    {
      hide Command, Merged, Texts;
      var block, _ := GetMergedStrings(Texts(slots, Blocks, 1));
      if block != [] {
        var transactions, _ := GetMergedStrings(Texts(slots, Transactions, ws.transactions));
        var operations, _ := GetMergedStrings(Texts(slots, Operations, ws.operations));
        var accountOperations, _ := GetMergedStrings(Texts(slots, AccountOperations, ws.accountOperations));
        var command := BuildCommand(lite, block, transactions, TableText(slots, ws, Multisig), operations,
                                    TableText(slots, ws, Accounts), accountOperations, TableText(slots, ws, Hardforks));
        commands := commands + [command];
        slots := map w | w in slots && !IsSplit(w.0) :: slots[w];
      }
      slots := map w | w in slots && IsSplit(w.0) :: slots[w];
    }
  }

  // ---- Any completion order gives the same command ----

  lemma {:induction false} SlotAfter(data: Tables, ws: Widths, order: seq<Writer>, w: Writer)
    requires HasWriters(ws)
    ensures TextAt(ProcessAll(map[], data, ws, order), w) == if w in order then Render(Assigned(data, ws, w)) else []
  {
    hide Render, Slice;
    NoRows();
    if order != [] {
      var k := |order| - 1;
      SlotAfter(data, ws, order[..k], w);
      assert order == order[..k] + [order[k]];
    }
  }

  /** Every writer has reported. */
  ghost predicate Complete(ws: Widths, order: seq<Writer>) {
    forall t: Table, i: nat | i < Width(ws, t) :: (t, i) in order
  }

  lemma {:induction false} TextsAfter(data: Tables, ws: Widths, order: seq<Writer>, t: Table, k: nat)
    requires HasWriters(ws) && Complete(ws, order) && k <= Width(ws, t)
    ensures Texts(ProcessAll(map[], data, ws, order), t, k) == RenderAll(Slices(Get(data, t), Width(ws, t), k))
  {
    hide Render, Slice, Slices, RenderAll, ProcessAll, TextAt, Get;
    if k == 0 {
      NoSlices(Get(data, t), Width(ws, t));
    } else {
      TextsAfter(data, ws, order, t, k - 1);
      SlotAfter(data, ws, order, (t, k - 1));
      assert (t, k - 1) in order;
      LastSlice(Get(data, t), Width(ws, t), k);
    }
  }

  lemma NoSlices(rows: seq<Row>, writers: nat)
    requires writers > 0
    ensures RenderAll(Slices(rows, writers, 0)) == []
  {
  }

  lemma LastSlice(rows: seq<Row>, writers: nat, k: nat)
    requires 0 < k <= writers
    ensures RenderAll(Slices(rows, writers, k))
            == RenderAll(Slices(rows, writers, k - 1)) + [Render(Slice(rows, writers, k - 1))]
  {
    hide Render, Slice;
    var parts := Slices(rows, writers, k);
    assert parts[..|parts| - 1] == Slices(rows, writers, k - 1);
  }

  lemma TableTextAfter(data: Tables, ws: Widths, order: seq<Writer>, t: Table)
    requires HasWriters(ws) && Complete(ws, order)
    ensures TableText(ProcessAll(map[], data, ws, order), ws, t) == Render(Get(data, t))
  {
    TextsAfter(data, ws, order, t, Width(ws, t));
    ParallelIsSerial(Get(data, t), Width(ws, t));
  }

  /**
   * One block: whatever order the writers finish in, the command is the serial one, and nothing
   * is left behind for the next block.
   */
  lemma OneBlock(lite: bool, data: Tables, ws: Widths, order: seq<Writer>, commands: seq<string>)
    requires HasWriters(ws) && Complete(ws, order) && data.blocks != []
    ensures Fire(lite, ProcessAll(map[], data, ws, order), ws, commands)
            == (map[], commands + [BlockCommand(lite, data)])
  {
    hide ProcessAll, TableText, Render, Command;
    TableTextAfter(data, ws, order, Blocks);
    TableTextAfter(data, ws, order, Transactions);
    TableTextAfter(data, ws, order, Multisig);
    TableTextAfter(data, ws, order, Operations);
    TableTextAfter(data, ws, order, Accounts);
    TableTextAfter(data, ws, order, AccountOperations);
    TableTextAfter(data, ws, order, Hardforks);
    RenderEmptyIff(data.blocks);
  }

  lemma {:induction false} KeptKeys(data: Tables, ws: Widths, order: seq<Writer>, w: Writer)
    requires HasWriters(ws)
    ensures w in ProcessAll(map[], data, ws, order) <==> w in order && Assigned(data, ws, w) != []
  {
    hide Render, Slice;
    if order != [] {
      var k := |order| - 1;
      KeptKeys(data, ws, order[..k], w);
      assert order == order[..k] + [order[k]];
    }
  }

  lemma FirstSlice(rows: seq<Row>, writers: nat)
    requires writers > 0 && rows != []
    ensures Slice(rows, writers, 0) != []
  {
    var length := BatchLength(|rows|, writers);
    assert length >= 1 by { RoundUp(|rows|, writers, length); }
    assert 0 * length == 0;
  }

  lemma NoSlice(writers: nat, k: nat)
    requires writers > 0
    ensures Slice([], writers, k) == []
  {
  }

  predicate NoSplitRows(data: Tables) {
    data.transactions == [] && data.operations == [] && data.accountOperations == []
  }

  /**
   * The clean-up depends on the block row: everything is cleared if and only if there is one, or
   * there are no rows of the split tables, whose strings would stay.
   */
  lemma NothingLeftIff(lite: bool, data: Tables, ws: Widths, order: seq<Writer>, commands: seq<string>)
    requires HasWriters(ws) && Complete(ws, order)
    ensures Fire(lite, ProcessAll(map[], data, ws, order), ws, commands).0 == map[]
       <==> data.blocks != [] || NoSplitRows(data)
  {
    hide ProcessAll, TableText, Render, Slice, SlotsCommand;
    var slots := ProcessAll(map[], data, ws, order);
    TableTextAfter(data, ws, order, Blocks);
    RenderEmptyIff(data.blocks);
    var kept := map w | w in slots && IsSplit(w.0) :: slots[w];
    assert kept == map[] <==> NoSplitRows(data) by {
      KeptIsEmptyIff(data, ws, order, kept);
    }
  }

  lemma KeptIsEmptyIff(data: Tables, ws: Widths, order: seq<Writer>, kept: Slots)
    requires HasWriters(ws) && Complete(ws, order)
    requires kept == map w | w in ProcessAll(map[], data, ws, order) && IsSplit(w.0) ::
                               ProcessAll(map[], data, ws, order)[w]
    ensures kept == map[] <==> NoSplitRows(data)
  {
    hide ProcessAll, Render, Slice;
    if NoSplitRows(data) {
      forall w: Writer ensures w !in kept {
        KeptKeys(data, ws, order, w);
        if IsSplit(w.0) { NoSlice(Width(ws, w.0), w.1); }
      }
    } else {
      var t := if data.transactions != [] then Transactions else if data.operations != [] then Operations
               else AccountOperations;
      KeptKeys(data, ws, order, (t, 0));
      FirstSlice(Get(data, t), Width(ws, t));
      assert (t, 0) in kept;
    }
  }

  // ---- What stands where in the command ----

  /** The row type of a table in the database. */
  function TypeName(t: Table): string {
    match t
    case Blocks => "blocks"
    case Transactions => "transactions"
    case Multisig => "transactions_multisig"
    case Operations => "operations"
    case Accounts => "accounts"
    case AccountOperations => "account_operations"
    case Hardforks => "applied_hardforks"
  }

  /** The arrays of the call, in the order of the parameters of push_block. */
  const ARRAYS := [Transactions, Multisig, Operations, Accounts, AccountOperations, Hardforks]

  /** Each row in parentheses, on a line of its own, a comma before every row but the first. */
  function RowList(rows: seq<Row>): string {
    if rows == [] then ""
    else
      var before, last := rows[..|rows| - 1], rows[|rows| - 1];
      RowList(before) + (if before == [] then "" else ",") + "(" + last.payload + ")\n"
  }

  /** The rows of each table as an array of that table's row type. */
  function Arrays(data: Tables, ts: seq<Table>): string {
    if ts == [] then ""
    else ",ARRAY[" + RowList(Get(data, ts[0])) + "]::hafd." + TypeName(ts[0]) + "[]" + Arrays(data, ts[1..])
  }

  lemma {:induction false} RenderIsRowList(rows: seq<Row>)
    ensures Render(rows) == RowList(rows)
  {
    hide Render;
    NoRows();
    if rows != [] {
      var before, last := rows[..|rows| - 1], rows[|rows| - 1];
      RenderIsRowList(before);
      RenderAppend(before, [last]);
      OneRow(last);
      assert rows == before + [last];
      LastRow(RowList(before), before == [], last.payload);
    }
  }

  lemma LastRow(text: string, first: bool, payload: string)
    requires first ==> text == ""
    ensures text + (if first then "" else ",") + "(" + payload + ")\n"
         == if first then "(" + payload + ")\n" else text + "," + ("(" + payload + ")\n")
  {
    assert "" + "" + "(" == "(";
  }

  lemma NextArrays(data: Tables, t: Table, rest: seq<Table>)
    ensures Arrays(data, [t] + rest) == ArrayOf(Render(Get(data, t)), TypeName(t)) + Arrays(data, rest)
  {
    hide Render, RowList, Get, TypeName;
    RenderIsRowList(Get(data, t));
    assert ([t] + rest)[1..] == rest;
  }

  lemma NoArrays(data: Tables)
    ensures Arrays(data, []) == ""
  {
  }

  /**
   * The command of a block, word by word: the call, lite or not, with the block row, and then for each
   * table in order its rows, under that table's type.
   */
  lemma CommandText(lite: bool, data: Tables)
    ensures BlockCommand(lite, data)
         == (if lite then "SELECT hive.push_block_lite(" else "SELECT hive.push_block(")
            + RowList(data.blocks) + "::hafd.blocks" + Arrays(data, ARRAYS) + ")"
  {
    hide Render, RowList, ArrayOf, Arrays;
    RenderIsRowList(data.blocks);
    var head := "SELECT hive." + (if lite then "push_block_lite" else "push_block") + "(" + RowList(data.blocks)
                + "::hafd.blocks";
    CommandHead(lite, RowList(data.blocks));
    ArraysUnfold(data);
    var a, b, c := ArrayOf(Render(data.transactions), "transactions"),
        ArrayOf(Render(data.multisig), "transactions_multisig"), ArrayOf(Render(data.operations), "operations");
    var d, e, f := ArrayOf(Render(data.accounts), "accounts"),
        ArrayOf(Render(data.accountOperations), "account_operations"),
        ArrayOf(Render(data.hardforks), "applied_hardforks");
    Regroup(head, a, b, c, d, e, f);
  }

  lemma CommandHead(lite: bool, block: string)
    ensures (if lite then "SELECT hive.push_block_lite(" else "SELECT hive.push_block(") + block + "::hafd.blocks"
         == "SELECT hive." + (if lite then "push_block_lite" else "push_block") + "(" + block + "::hafd.blocks"
  {
    assert "SELECT hive.push_block(" == "SELECT hive." + "push_block" + "(";
    assert "SELECT hive.push_block_lite(" == "SELECT hive." + "push_block_lite" + "(";
  }

  lemma ArraysUnfold(data: Tables)
    ensures Arrays(data, ARRAYS)
         == ArrayOf(Render(data.transactions), "transactions")
            + (ArrayOf(Render(data.multisig), "transactions_multisig")
            + (ArrayOf(Render(data.operations), "operations")
            + (ArrayOf(Render(data.accounts), "accounts")
            + (ArrayOf(Render(data.accountOperations), "account_operations")
            + (ArrayOf(Render(data.hardforks), "applied_hardforks") + "")))))
  {
    hide Render, ArrayOf, Arrays;
    NoArrays(data);
    NextArrays(data, Hardforks, []);
    NextArrays(data, AccountOperations, [Hardforks]);
    NextArrays(data, Accounts, [AccountOperations, Hardforks]);
    NextArrays(data, Operations, [Accounts, AccountOperations, Hardforks]);
    NextArrays(data, Multisig, [Operations, Accounts, AccountOperations, Hardforks]);
    NextArrays(data, Transactions, [Multisig, Operations, Accounts, AccountOperations, Hardforks]);
    assert [Hardforks] + [] == [Hardforks];
    assert [AccountOperations] + [Hardforks] == [AccountOperations, Hardforks];
    assert [Accounts] + [AccountOperations, Hardforks] == [Accounts, AccountOperations, Hardforks];
    assert [Operations] + [Accounts, AccountOperations, Hardforks]
        == [Operations, Accounts, AccountOperations, Hardforks];
    assert [Multisig] + [Operations, Accounts, AccountOperations, Hardforks]
        == [Multisig, Operations, Accounts, AccountOperations, Hardforks];
    assert [Transactions] + [Multisig, Operations, Accounts, AccountOperations, Hardforks] == ARRAYS;
  }

  lemma Regroup(s: string, a: string, b: string, c: string, d: string, e: string, f: string)
    ensures s + a + b + c + d + e + f + ")" == s + (a + (b + (c + (d + (e + (f + "")))))) + ")"
  {
    assert f + "" == f;
    assert s + (a + (b + (c + (d + (e + f))))) == s + a + (b + (c + (d + (e + f))));
    assert s + a + (b + (c + (d + (e + f)))) == s + a + b + (c + (d + (e + f)));
    assert s + a + b + (c + (d + (e + f))) == s + a + b + c + (d + (e + f));
  }

  /** Every live flush of every run becomes one command with exactly one block's rows. */
  lemma LiveFlushCommand(
    c: Synchronization.Config, head: int, final: int, run: seq<Synchronization.Event>, s: Synchronization.Sync, i: nat,
    lite: bool, ws: Widths, order: seq<Writer>, commands: seq<string>)
    requires Synchronization.Reaches(c, head, final, run, s) && i < |s.log| && s.log[i].LiveBlock?
    requires HasWriters(ws) && Complete(ws, order)
    ensures Synchronization.BlockRows(s.log[i].data, s.log[i].num)
    ensures Fire(lite, ProcessAll(map[], s.log[i].data, ws, order), ws, commands)
         == (map[], commands + [BlockCommand(lite, s.log[i].data)])
  {
    Synchronization.LiveFlushIsOneBlock(c, head, final, run, s, i);
    OneBlock(lite, s.log[i].data, ws, order, commands);
  }
}
