/**
 * The live dumper over whole runs: the texts are those that each writer stores when it finishes a
 * chunk, and a command is put together from whatever texts are there when the rendezvous fires.
 */
module LiveDump {
  import opened Common
  import opened BlockCache
  import opened DataProcessor
  import opened Pipeline
  import LivePush

  /** Options, and the rows of the block of each number. */
  datatype Setup = Setup(lite: bool, ws: LivePush.Widths, rows: nat -> Tables)

  datatype Live = Live(s: State, slots: LivePush.Slots, commands: seq<string>)

  /** The writer threads: four alone at their table and the three split tables' threads. */
  function Threads(ws: LivePush.Widths): nat {
    4 + ws.transactions + ws.operations + ws.accountOperations
  }

  function WriterAt(ws: LivePush.Widths, i: nat): LivePush.Writer {
    if i == 0 then (Blocks, 0)
    else if i == 1 then (Multisig, 0)
    else if i == 2 then (Accounts, 0)
    else if i == 3 then (Hardforks, 0)
    else if i < 4 + ws.transactions then (Transactions, i - 4)
    else if i < 4 + ws.transactions + ws.operations then (Operations, i - 4 - ws.transactions)
    else (AccountOperations, i - 4 - ws.transactions - ws.operations)
  }

  function Index(ws: LivePush.Widths, w: LivePush.Writer): nat {
    match w.0
    case Blocks => 0
    case Multisig => 1
    case Accounts => 2
    case Hardforks => 3
    case Transactions => 4 + w.1
    case Operations => 4 + ws.transactions + w.1
    case AccountOperations => 4 + ws.transactions + ws.operations + w.1
  }

  lemma WriterIndex(ws: LivePush.Widths, w: LivePush.Writer)
    requires w.1 < LivePush.Width(ws, w.0)
    ensures Index(ws, w) < Threads(ws) && WriterAt(ws, Index(ws, w)) == w
  {
  }

  /** How many rows of the block each writer gets. */
  function Shares(c: Setup, num: nat): (shares: seq<nat>)
    requires LivePush.HasWriters(c.ws)
    ensures |shares| == Threads(c.ws)
  {
    seq(Threads(c.ws), i requires 0 <= i < Threads(c.ws) => |LivePush.Assigned(c.rows(num), c.ws, WriterAt(c.ws, i))|)
  }

  predicate StoresText(e: Event) {
    e.Commit? || (e.Throw? && e.stored)
  }

  /** A step of the writers, with what it does to the texts and the commands. */
  function LiveStep(c: Setup, l: Live, a: Action): Option<Live>
    requires LivePush.HasWriters(c.ws)
  {
    match Step(l.s, a)
    case None => None
    case Some(t) =>
      match a
      case Start(num, shares) =>
        if c.rows(num).blocks != [] && shares == Shares(c, num) then Some(l.(s := t)) else None
      case Work(w, e) =>
        if StoresText(e) then
          var rows := c.rows(Current(l.s.ws[w]).num);
          Some(l.(s := t, slots := LivePush.Process(l.slots, rows, c.ws, WriterAt(c.ws, w))))
        else if e.Fire? then
          var (slots, commands) := LivePush.Fire(c.lite, l.slots, c.ws, l.commands);
          Some(Live(t, slots, commands))
        else Some(l.(s := t))
      case _ => Some(l.(s := t))
  }

  function LiveRun(c: Setup, l: Live, run: seq<Action>): Option<Live>
    requires LivePush.HasWriters(c.ws)
    decreases |run|
  {
    if run == [] then Some(l)
    else
      match LiveStep(c, l, run[0])
      case None => None
      case Some(m) => LiveRun(c, m, run[1..])
  }

  function LiveInit(c: Setup): Live {
    Live(Init(Threads(c.ws)), map[], [])
  }

  // ---- The wait between two blocks ----

  /** complete_data_processing has returned for every writer. */
  predicate Waited(s: State) {
    forall i | 0 <= i < |s.ws| :: !s.ws[i].busy || s.ws[i].cancel
  }

  predicate Gone(v: Worker) {
    v.threw || v.pc.Leaving? || v.pc.Ended?
  }

  /** A writer that has failed or ended, or has nothing left to report or to fire. */
  predicate Through(v: Worker) {
    Gone(v) || (v.reported == |v.accepted| && !Active(v))
  }

  predicate AllThrough(s: State) {
    forall i | 0 <= i < |s.ws| :: Through(s.ws[i])
  }

  ghost predicate Waits(s: State, run: seq<Action>)
    decreases |run|
  {
    run != [] ==>
      && (run[0].Start? ==> Waited(s))
      && (Step(s, run[0]).Some? ==> Waits(Step(s, run[0]).value, run[1..]))
  }

  ghost predicate Serial(s: State, run: seq<Action>)
    decreases |run|
  {
    run != [] ==>
      && (run[0].Start? ==> AllThrough(s))
      && (Step(s, run[0]).Some? ==> Serial(Step(s, run[0]).value, run[1..]))
  }

  ghost predicate CancelledFailed(ws: seq<Worker>) {
    forall i | 0 <= i < |ws| :: ws[i].cancel ==> ws[i].threw
  }

  lemma NextCancelled(v: Worker, e: Event)
    requires Consistent(v) && Enabled(v, e) && !e.SetCancel? && (v.cancel ==> v.threw)
    ensures Next(v, e).cancel ==> Next(v, e).threw
  {
  }

  lemma StepKeepsCancelled(s: State, a: Action)
    requires Good(s) && CancelledFailed(s.ws) && Step(s, a).Some? && !Cancels(a)
    ensures CancelledFailed(Step(s, a).value.ws)
  {
    hide Good, Rendezvous.Arrive, Next, Enabled, Orderly;
    GoodOrderly(s);
    match a
    case Start(_, _) =>
    case Offer => ConsistentOf(s.ws[s.next]); NextCancelled(s.ws[s.next], Enqueue(Offered(s)));
    case ReportTo(w) =>
      var outcome := Rendezvous.Arrive(|s.ws|, s.counts, Current(s.ws[w]).num).1;
      ConsistentOf(s.ws[w]);
      CanReport(s.ws[w], outcome);
      NextCancelled(s.ws[w], Report(outcome));
    case Work(w, e) => ConsistentOf(s.ws[w]); NextCancelled(s.ws[w], e);
  }

  lemma GoodOrderly(s: State)
    requires Good(s)
    ensures AllOrderly(s.ws) && |s.ws| > 0
  {
    hide Delivery;
    DeliveryOrderly(s);
  }

  lemma ConsistentOf(v: Worker)
    requires Orderly(v)
    ensures Consistent(v)
  {
    hide Consistent;
  }

  lemma DoneIsThrough(v: Worker)
    requires Consistent(v) && (v.cancel ==> v.threw) && (!v.busy || v.cancel)
    ensures Through(v)
  {
  }

  lemma WaitedThrough(s: State)
    requires Good(s) && CancelledFailed(s.ws) && Waited(s)
    ensures AllThrough(s)
  {
    hide Good, Through, Orderly;
    GoodOrderly(s);
    forall i | 0 <= i < |s.ws| ensures Through(s.ws[i]) {
      ConsistentOf(s.ws[i]);
      DoneIsThrough(s.ws[i]);
    }
  }

  /** If nobody calls cancel(), the wait ends early only for a writer that has failed. */
  lemma {:induction false} WaitsSerial(s: State, run: seq<Action>)
    requires Good(s) && CancelledFailed(s.ws) && Waits(s, run) && forall i | 0 <= i < |run| :: !Cancels(run[i])
    ensures Serial(s, run)
    decreases |run|
  {
    hide Good, Step, Waited, AllThrough;
    if run != [] {
      assert !Cancels(run[0]);
      if Waited(s) { WaitedThrough(s); }
      if Step(s, run[0]).Some? {
        StepKeepsGood(s, run[0]);
        StepKeepsCancelled(s, run[0]);
        WaitsSerial(Step(s, run[0]).value, run[1..]);
      }
    }
  }

  // ---- Every writer is at the current block ----

  /** What a writer at work has not reported, or is firing, is of the given block. */
  ghost predicate InTurn(v: Worker, num: nat) {
    !Gone(v) ==>
      && (forall j | v.reported <= j < |v.accepted| :: v.accepted[j].num == num)
      && (Active(v) ==> Last(v) == num)
  }

  ghost predicate Taken(v: Worker, num: nat) {
    Took(v, num) || !v.cont || v.threw
  }

  ghost predicate InLine(s: State) {
    && (forall i | 0 <= i < |s.ws| :: InTurn(s.ws[i], LastNum(s)))
    && (forall i | 0 <= i < |s.ws| && i < s.next && s.batches != [] :: Taken(s.ws[i], LastNum(s)))
  }

  lemma NextInTurn(v: Worker, e: Event, num: nat)
    requires Orderly(v) && Enabled(v, e) && !e.Enqueue? && InTurn(v, num)
    ensures InTurn(Next(v, e), num)
  {
    assert Next(v, e).accepted == v.accepted;
  }

  lemma NextTaken(v: Worker, e: Event, num: nat)
    requires Enabled(v, e) && !e.Enqueue? && Taken(v, num)
    ensures Taken(Next(v, e), num)
  {
    hide Took;
    SameAccepted(v, Next(v, e), num);
  }

  /** A writer not at work anymore, or with nothing left: it accepts the block, or is closed or failed. */
  lemma OfferInTurn(v: Worker, c: Chunk)
    requires Orderly(v) && Enabled(v, Enqueue(c)) && InTurn(v, c.num) && !Took(v, c.num)
    ensures var v' := Next(v, Enqueue(c));
            InTurn(v', c.num) && Taken(v', c.num) && (Drops(v) ==> Closed(v))
  {
    var v' := Next(v, Enqueue(c));
    if !Gone(v) {
      TurnOf(v, c.num);
      assert v.reported == |v.accepted|;
      assert Last(v') == Last(v);
    }
    if Accepts(v) { assert v'.accepted[|v.accepted|] == c; }
  }

  /** A writer that is through starts the next block with nothing left of this one. */
  lemma ThroughInTurn(v: Worker, num: nat)
    requires Through(v)
    ensures InTurn(v, num)
  {
  }

  lemma NotYetTaken(s: State, w: nat)
    requires Delivery(s) && w < |s.ws| && s.next <= w && s.batches != []
    ensures !Took(s.ws[w], LastNum(s))
  {
    if Took(s.ws[w], LastNum(s)) {
      var j := PartOf(s, w, LastNum(s));
    }
  }

  lemma OneInLine(s: State, w: nat, v: Worker, t: State)
    requires InLine(s) && w < |s.ws| && InTurn(v, LastNum(s)) && t.ws == s.ws[w := v] && t.batches == s.batches
    requires w < t.next && s.batches != [] ==> Taken(v, LastNum(s))
    requires s.next <= t.next <= s.next + 1 && (t.next > s.next ==> w == s.next)
    ensures InLine(t)
  {
    hide InTurn, Taken;
  }

  lemma StepKeepsInLine(s: State, a: Action)
    requires Good(s) && InLine(s) && Step(s, a).Some? && (a.Start? ==> AllThrough(s))
    ensures InLine(Step(s, a).value)
  {
    hide Good, Rendezvous.Arrive, Next, Enabled, Orderly, InTurn, Taken;
    GoodOrderly(s);
    var t := Step(s, a).value;
    match a
    case Start(num, _) =>
      forall i | 0 <= i < |s.ws| ensures InTurn(s.ws[i], num) {
        assert Through(s.ws[i]);
        ThroughInTurn(s.ws[i], num);
      }
    case Offer =>
      NotYetTaken(s, s.next) by { GoodDelivery(s); }
      OfferInTurn(s.ws[s.next], Offered(s));
      OneInLine(s, s.next, t.ws[s.next], t);
    case ReportTo(w) =>
      var outcome := Rendezvous.Arrive(|s.ws|, s.counts, Current(s.ws[w]).num).1;
      CanReport(s.ws[w], outcome);
      NextInTurn(s.ws[w], Report(outcome), LastNum(s));
      if Taken(s.ws[w], LastNum(s)) { NextTaken(s.ws[w], Report(outcome), LastNum(s)); }
      OneInLine(s, w, t.ws[w], t);
    case Work(w, e) =>
      NextInTurn(s.ws[w], e, LastNum(s));
      if Taken(s.ws[w], LastNum(s)) { NextTaken(s.ws[w], e, LastNum(s)); }
      OneInLine(s, w, t.ws[w], t);
  }

  /** Then no queue is full, so a dropped block has met a writer that is closed for good. */
  lemma {:induction false} SerialRaceFree(s: State, run: seq<Action>)
    requires Good(s) && InLine(s) && Serial(s, run)
    ensures RaceFree(s, run)
    decreases |run|
  {
    hide Good, Step, InLine;
    if run != [] {
      if Step(s, run[0]).Some? {
        StepKeepsGood(s, run[0]);
        StepKeepsInLine(s, run[0]);
        SerialRaceFree(Step(s, run[0]).value, run[1..]);
      }
      DropsAreFinal(s, run[0]);
    }
  }

  lemma DropsAreFinal(s: State, a: Action)
    requires Good(s) && InLine(s)
    ensures !RacesCancel(s, a)
  {
    hide Good, Orderly, InTurn, Taken;
    if a.Offer? && s.next < |s.ws| && Drops(s.ws[s.next]) {
      GoodOrderly(s);
      GoodDelivery(s);
      NotYetTaken(s, s.next);
      OfferInTurn(s.ws[s.next], Chunk(LastNum(s), 0));
    }
  }

  // ---- The texts are those of the current block ----

  /** Writer v has finished with batch num. */
  ghost predicate Finished(v: Worker, num: nat) {
    exists j :: 0 <= j < v.committed && j < |v.accepted| && v.accepted[j].num == num
  }

  /** The texts are what the writers in `order` stored for the current block, and whoever finished is among them. */
  ghost predicate TextsOf(c: Setup, l: Live, order: seq<LivePush.Writer>)
    requires LivePush.HasWriters(c.ws)
  {
    && l.slots == LivePush.ProcessAll(map[], c.rows(LastNum(l.s)), c.ws, order)
    && forall i | 0 <= i < |l.s.ws| && Finished(l.s.ws[i], LastNum(l.s)) :: WriterAt(c.ws, i) in order
  }

  ghost predicate InProgress(c: Setup, l: Live)
    requires LivePush.HasWriters(c.ws)
  {
    exists order :: TextsOf(c, l, order)
  }

  /** The writer will never report the current block. */
  ghost predicate Blocking(s: State, w: nat)
    requires w < |s.ws|
  {
    var v := s.ws[w];
    (Gone(v) && !Has(v, LastNum(s))) || (!v.cont && !Took(v, LastNum(s)))
  }

  ghost predicate Dead(s: State) {
    exists w :: 0 <= w < |s.ws| && Blocking(s, w)
  }

  function Commands(c: Setup, nums: seq<nat>): seq<string> {
    if nums == [] then []
    else Commands(c, nums[..|nums| - 1]) + [LivePush.BlockCommand(c.lite, c.rows(nums[|nums| - 1]))]
  }

  /** Nothing will be published any more, or the texts are exactly those of the block in progress. */
  ghost predicate TextsOk(c: Setup, l: Live)
    requires LivePush.HasWriters(c.ws)
  {
    || Dead(l.s)
    || (LastNum(l.s) in l.s.fired && l.slots == map[])
    || (LastNum(l.s) !in l.s.fired && InProgress(c, l))
  }

  ghost predicate LiveGood(c: Setup, l: Live)
    requires LivePush.HasWriters(c.ws)
  {
    && Good(l.s) && |l.s.ws| == Threads(c.ws) && InLine(l.s)
    && (forall j | 0 <= j < |l.s.batches| :: c.rows(l.s.batches[j].num).blocks != [])
    && (l.s.batches == [] ==> l.slots == map[])
    && l.commands == Commands(c, l.s.fired) && TextsOk(c, l)
  }

  // ---- A new block ----

  /** A block that nobody has left to report and that was not published has met a writer closed or failed. */
  lemma UnpublishedMeansShut(s: State)
    requires Good(s) && InLine(s) && AllThrough(s) && s.next == |s.ws| && s.batches != [] && LastNum(s) !in s.fired
    ensures exists w :: 0 <= w < |s.ws| && (Gone(s.ws[w]) || !s.ws[w].cont)
  {
    hide Good, Orderly, InTurn, Complete, Has;
    GoodOrderly(s);
    if forall w | 0 <= w < |s.ws| :: !Gone(s.ws[w]) && s.ws[w].cont {
      forall w | 0 <= w < |s.ws| ensures Has(s.ws[w], LastNum(s)) && !Active(s.ws[w]) && !s.ws[w].threw {
        assert Through(s.ws[w]);
        assert Taken(s.ws[w], LastNum(s));
        TookHas(s.ws[w], LastNum(s));
      }
      EveryoneHas(s.ws, LastNum(s));
      FiredWhenSettled(s, LastNum(s)) by { GoodFiring(s); }
    }
  }

  lemma EveryoneHas(ws: seq<Worker>, num: nat)
    requires forall w | 0 <= w < |ws| :: Has(ws[w], num)
    ensures Complete(ws, num)
  {
  }

  lemma TookHas(v: Worker, num: nat)
    requires Took(v, num) && v.reported == |v.accepted|
    ensures Has(v, num)
  {
  }

  lemma GoodFiring(s: State)
    requires Good(s)
    ensures FiringOrder(s.ws, s.fired)
  {
    hide Delivery, StoredOnce, FiringOrder, CountsMatch;
  }

  /** Nobody has taken a number that has not been started, and it has not been published. */
  lemma NewNumber(s: State, num: nat)
    requires Good(s) && num > LastNum(s)
    ensures num !in s.fired
    ensures forall w | 0 <= w < |s.ws| :: !Took(s.ws[w], num) && !Has(s.ws[w], num) && !Finished(s.ws[w], num)
  {
    hide Good, FiringOrder, Delivery;
    GoodDelivery(s);
    GoodFiring(s);
    GoodOrderly(s);
    forall w | 0 <= w < |s.ws| ensures !Took(s.ws[w], num) {
      TookIsKnown(s, w, num);
    }
    FiredTook(s.ws, s.fired, num);
  }

  lemma FiredTook(ws: seq<Worker>, fired: seq<nat>, num: nat)
    requires FiringOrder(ws, fired) && ws != []
    ensures num in fired ==> Took(ws[0], num)
  {
    FiredComplete(ws, fired, num);
    if num in fired { assert Has(ws[0], num); }
  }

  lemma StartKeepsTexts(c: Setup, l: Live, num: nat, shares: seq<nat>)
    requires LivePush.HasWriters(c.ws) && LiveGood(c, l) && AllThrough(l.s)
    requires LiveStep(c, l, Start(num, shares)).Some?
    ensures TextsOk(c, LiveStep(c, l, Start(num, shares)).value)
  {
    hide Good, InLine, Has, Took, Finished, LivePush.Process, LivePush.Fire, Shares, Gone;
    var s, m := l.s, LiveStep(c, l, Start(num, shares)).value;
    NewNumber(s, num);
    if Dead(s) {
      var w :| 0 <= w < |s.ws| && Blocking(s, w);
      assert Blocking(m.s, w);
    } else if s.batches != [] && LastNum(s) !in s.fired {
      UnpublishedMeansShut(s);
      var w :| 0 <= w < |s.ws| && (Gone(s.ws[w]) || !s.ws[w].cont);
      assert Blocking(m.s, w);
    } else {
      assert l.slots == map[];
      assert TextsOf(c, m, []);
    }
  }

  // ---- A step within a block ----

  lemma SomeGood(c: Setup, l: Live)
    requires LivePush.HasWriters(c.ws) && LiveGood(c, l)
    ensures Good(l.s) && InLine(l.s) && TextsOk(c, l) && |l.s.ws| == Threads(c.ws)
  {
    hide Good, InLine, TextsOk;
  }

  lemma NextBlocking(v: Worker, e: Event, num: nat)
    requires Orderly(v) && Enabled(v, e) && !e.Enqueue?
    ensures Gone(v) && !Has(v, num) ==> Gone(Next(v, e)) && !Has(Next(v, e), num)
    ensures !v.cont && !Took(v, num) ==> !Next(v, e).cont && !Took(Next(v, e), num)
  {
    hide Took, Has;
    var v' := Next(v, e);
    SameAccepted(v, v', num);
    if v'.reported == v.reported { QuietSame(v, v'); }
  }

  lemma OfferBlocking(v: Worker, c: Chunk, num: nat)
    requires Orderly(v) && Enabled(v, Enqueue(c))
    ensures Gone(v) && !Has(v, num) ==> Gone(Next(v, Enqueue(c))) && !Has(Next(v, Enqueue(c)), num)
    ensures !v.cont ==> Next(v, Enqueue(c)) == v
  {
    hide Has;
    QuietSame(v, Next(v, Enqueue(c)));
  }

  /** A writer that will never report the current block stays one. */
  lemma StepKeepsDead(s: State, a: Action)
    requires Good(s) && Dead(s) && Step(s, a).Some? && !a.Start?
    ensures Dead(Step(s, a).value)
  {
    hide Good, Rendezvous.Arrive, Next, Enabled, Orderly, Has, Took, Gone;
    GoodOrderly(s);
    var w :| 0 <= w < |s.ws| && Blocking(s, w);
    var t := Step(s, a).value;
    match a
    case Start(_, _) =>
    case Offer =>
      if s.next == w { OfferBlocking(s.ws[w], Offered(s), LastNum(s)); }
      assert Blocking(t, w);
    case ReportTo(i) =>
      if i == w {
        var outcome := Rendezvous.Arrive(|s.ws|, s.counts, Current(s.ws[w]).num).1;
        CanReport(s.ws[w], outcome);
        NextBlocking(s.ws[w], Report(outcome), LastNum(s));
      }
      assert Blocking(t, w);
    case Work(i, e) =>
      if i == w { NextBlocking(s.ws[w], e, LastNum(s)); }
      assert Blocking(t, w);
  }

  /** An event that stores no text finishes nothing. */
  lemma NextFinished(v: Worker, e: Event, num: nat)
    requires Consistent(v) && Enabled(v, e) && !StoresText(e)
    ensures Finished(Next(v, e), num) ==> Finished(v, num)
  {
    var v' := Next(v, e);
    assert v'.committed == v.committed;
    if Finished(v', num) {
      var j :| 0 <= j < v'.committed && j < |v'.accepted| && v'.accepted[j].num == num;
      assert v.accepted[j] == v'.accepted[j];
    }
  }

  /** The chunk a writer finishes is its part of the current block, which is not published. */
  lemma FinishesCurrent(s: State, w: nat, e: Event)
    requires Good(s) && InLine(s) && w < |s.ws| && Internal(s.ws[w], e) && StoresText(e)
    ensures Current(s.ws[w]).num == LastNum(s) && LastNum(s) !in s.fired
  {
    hide Good, InTurn, Complete;
    GoodOrderly(s);
    var v := s.ws[w];
    assert Orderly(v) && InTurn(v, LastNum(s));
    assert v.pc.Popped? && !Gone(v);
    assert v.accepted[v.reported].num == LastNum(s) by { TurnOf(v, LastNum(s)); }
    NotReported(v);
    FiredHas(s, w, LastNum(s));
  }

  lemma TurnOf(v: Worker, num: nat)
    requires InTurn(v, num) && !Gone(v)
    ensures v.reported < |v.accepted| ==> v.accepted[v.reported].num == num
    ensures Active(v) ==> Last(v) == num
  {
  }

  lemma NotReported(v: Worker)
    requires Orderly(v) && v.reported < |v.accepted|
    ensures !Has(v, v.accepted[v.reported].num)
  {
  }

  lemma FiredHas(s: State, w: nat, num: nat)
    requires Good(s) && w < |s.ws|
    ensures num in s.fired ==> Has(s.ws[w], num)
  {
    hide Good, FiringOrder, Has;
    GoodFiring(s);
    FiredHasIt(s.ws, s.fired, w, num);
  }

  lemma FiredHasIt(ws: seq<Worker>, fired: seq<nat>, w: nat, num: nat)
    requires FiringOrder(ws, fired) && w < |ws|
    ensures num in fired ==> Has(ws[w], num)
  {
    hide Has;
    FiredComplete(ws, fired, num);
  }

  /** Steps other than a new block, a stored text and a firing. */
  predicate Plain(a: Action) {
    !a.Start? && (a.Work? ==> !StoresText(a.e) && !a.e.Fire?)
  }

  lemma PlainFinished(s: State, a: Action, i: nat, num: nat)
    requires Good(s) && Step(s, a).Some? && Plain(a) && i < |s.ws|
    ensures |Step(s, a).value.ws| == |s.ws|
    ensures Finished(Step(s, a).value.ws[i], num) ==> Finished(s.ws[i], num)
  {
    hide Good, Rendezvous.Arrive, Next, Enabled, Orderly, Finished;
    GoodOrderly(s);
    ConsistentOf(s.ws[i]);
    match a
    case Start(_, _) =>
    case Offer => if s.next == i { NextFinished(s.ws[i], Enqueue(Offered(s)), num); }
    case ReportTo(w) =>
      if w == i {
        var outcome := Rendezvous.Arrive(|s.ws|, s.counts, Current(s.ws[w]).num).1;
        CanReport(s.ws[w], outcome);
        NextFinished(s.ws[i], Report(outcome), num);
      }
    case Work(w, e) => if w == i { NextFinished(s.ws[i], e, num); }
  }

  lemma PlainKeepsTexts(c: Setup, l: Live, a: Action)
    requires LivePush.HasWriters(c.ws) && LiveGood(c, l) && Plain(a) && LiveStep(c, l, a).Some?
    ensures TextsOk(c, LiveStep(c, l, a).value)
  {
    hide Good, InLine, Finished, LivePush.Process, LivePush.Fire, LivePush.ProcessAll, Shares, Next, Enabled,
        Rendezvous.Arrive;
    SomeGood(c, l);
    var m := LiveStep(c, l, a).value;
    if Dead(l.s) {
      StepKeepsDead(l.s, a);
    } else if LastNum(l.s) !in l.s.fired {
      var order :| TextsOf(c, l, order);
      forall i | 0 <= i < |m.s.ws| && Finished(m.s.ws[i], LastNum(m.s)) ensures WriterAt(c.ws, i) in order {
        PlainFinished(l.s, a, i, LastNum(l.s));
      }
      assert TextsOf(c, m, order);
    }
  }

  lemma OtherFinished(s: State, w: nat, e: Event, i: nat)
    requires w < |s.ws| && Internal(s.ws[w], e) && i < |s.ws| && i != w
    ensures WorkStep(s, w, e).ws[i] == s.ws[i]
  {
    hide Next, Enabled;
  }

  lemma StoreKeepsTexts(c: Setup, l: Live, w: nat, e: Event)
    requires LivePush.HasWriters(c.ws) && LiveGood(c, l) && StoresText(e) && LiveStep(c, l, Work(w, e)).Some?
    ensures TextsOk(c, LiveStep(c, l, Work(w, e)).value)
  {
    hide Good, InLine, Finished, LivePush.Process, LivePush.Fire, Shares, Next, Enabled, Rendezvous.Arrive;
    SomeGood(c, l);
    var m := LiveStep(c, l, Work(w, e)).value;
    FinishesCurrent(l.s, w, e);
    if Dead(l.s) {
      StepKeepsDead(l.s, Work(w, e));
    } else {
      var order :| TextsOf(c, l, order);
      var longer := order + [WriterAt(c.ws, w)];
      assert longer[..|order|] == order;
      forall i | 0 <= i < |m.s.ws| && Finished(m.s.ws[i], LastNum(m.s)) ensures WriterAt(c.ws, i) in longer {
        if i == w {
          assert longer[|order|] == WriterAt(c.ws, i);
        } else {
          OtherFinished(l.s, w, e, i);
          assert WriterAt(c.ws, i) in order;
        }
      }
      assert TextsOf(c, m, longer);
    }
  }

  // ---- A firing ----

  /** A firing is of the current block, which everybody has reported. */
  lemma FiresCurrent(s: State, w: nat)
    requires Good(s) && InLine(s) && w < |s.ws| && Internal(s.ws[w], Event.Fire)
    ensures Current(s.ws[w]).num == LastNum(s) && Complete(s.ws, LastNum(s)) && LastNum(s) !in s.fired
  {
    hide Good, InTurn, Complete;
    GoodOrderly(s);
    GoodFiring(s);
    var v := s.ws[w];
    assert Orderly(v) && InTurn(v, LastNum(s)) && Active(v);
    TurnOf(v, LastNum(s));
    ActiveIsLast(v, Event.Fire);
    assert Leads(s.ws, s.fired, v);
  }

  lemma CompleteFinished(s: State, num: nat)
    requires Good(s) && Complete(s.ws, num)
    ensures !Dead(s) || num != LastNum(s)
    ensures forall i | 0 <= i < |s.ws| :: Finished(s.ws[i], num)
  {
    hide Good;
    GoodOrderly(s);
    forall i | 0 <= i < |s.ws| ensures Finished(s.ws[i], num) && Has(s.ws[i], num) && Took(s.ws[i], num) {
      assert Has(s.ws[i], num) && Orderly(s.ws[i]);
      var j :| 0 <= j < s.ws[i].reported && j < |s.ws[i].accepted| && s.ws[i].accepted[j].num == num;
      assert j < s.ws[i].committed;
    }
  }

  lemma AllInOrder(c: Setup, l: Live, order: seq<LivePush.Writer>)
    requires LivePush.HasWriters(c.ws) && TextsOf(c, l, order) && |l.s.ws| == Threads(c.ws)
    requires forall i | 0 <= i < |l.s.ws| :: Finished(l.s.ws[i], LastNum(l.s))
    ensures LivePush.Complete(c.ws, order)
  {
    hide Finished, LivePush.ProcessAll;
    forall t: Table, k: nat | k < LivePush.Width(c.ws, t) ensures (t, k) in order {
      WriterIndex(c.ws, (t, k));
      assert Finished(l.s.ws[Index(c.ws, (t, k))], LastNum(l.s));
    }
  }

  lemma FirePublishes(c: Setup, l: Live, w: nat)
    requires LivePush.HasWriters(c.ws) && LiveGood(c, l) && LiveStep(c, l, Work(w, Event.Fire)).Some?
    ensures var m := LiveStep(c, l, Work(w, Event.Fire)).value;
            m.commands == Commands(c, m.s.fired) && m.slots == map[] && LastNum(m.s) in m.s.fired
  {
    hide Good, InLine, Finished, Complete, LivePush.Process, LivePush.ProcessAll, LivePush.Fire, LivePush.BlockCommand,
        Shares, Next, Enabled, Rendezvous.Arrive;
    SomeGood(c, l);
    var s, num := l.s, LastNum(l.s);
    FiresCurrent(s, w);
    CompleteFinished(s, num);
    var order :| TextsOf(c, l, order);
    AllInOrder(c, l, order);
    HasRows(c, l);
    LivePush.OneBlock(c.lite, c.rows(num), c.ws, order, l.commands);
    assert (s.fired + [num])[..|s.fired|] == s.fired;
    assert (s.fired + [num])[|s.fired|] == num;
  }

  lemma HasRows(c: Setup, l: Live)
    requires LivePush.HasWriters(c.ws) && LiveGood(c, l) && Complete(l.s.ws, LastNum(l.s))
    ensures c.rows(LastNum(l.s)).blocks != []
  {
    GoodDelivery(l.s);
    assert Has(l.s.ws[0], LastNum(l.s));
    var j := PartOf(l.s, 0, LastNum(l.s));
  }

  // ---- Whole runs ----

  lemma LiveStepKeeps(c: Setup, l: Live, a: Action)
    requires LivePush.HasWriters(c.ws) && LiveGood(c, l) && LiveStep(c, l, a).Some? && (a.Start? ==> AllThrough(l.s))
    ensures LiveGood(c, LiveStep(c, l, a).value)
  {
    hide Good, InLine, TextsOk, LivePush.Process, LivePush.Fire, Shares, Next, Enabled, Rendezvous.Arrive, Commands;
    StepKeepsGood(l.s, a);
    StepKeepsInLine(l.s, a);
    var m := LiveStep(c, l, a).value;
    StepKeepsShape(c, l, a);
    match a
    case Start(num, shares) => StartKeepsTexts(c, l, num, shares);
    case Offer => PlainKeepsTexts(c, l, a);
    case ReportTo(_) => PlainKeepsTexts(c, l, a);
    case Work(w, e) =>
      if StoresText(e) {
        StoreKeepsTexts(c, l, w, e);
      } else if e.Fire? {
        FirePublishes(c, l, w);
        assert TextsOk(c, m) by { Published(c, m); }
      } else {
        PlainKeepsTexts(c, l, a);
      }
  }

  lemma Published(c: Setup, m: Live)
    requires LivePush.HasWriters(c.ws) && LastNum(m.s) in m.s.fired && m.slots == map[]
    ensures TextsOk(c, m)
  {
  }

  /** The parts of the invariant that no step can touch, and which block has which rows. */
  lemma StepKeepsShape(c: Setup, l: Live, a: Action)
    requires LivePush.HasWriters(c.ws) && LiveGood(c, l) && LiveStep(c, l, a).Some?
    ensures var m := LiveStep(c, l, a).value;
            && |m.s.ws| == Threads(c.ws)
            && (forall j | 0 <= j < |m.s.batches| :: c.rows(m.s.batches[j].num).blocks != [])
            && ((a.Work? && a.e.Fire?) || m.s.fired == l.s.fired)
            && (m.s.batches == [] ==> m.slots == map[])
  {
    hide Good, InLine, TextsOk, Shares, Next, Enabled, Rendezvous.Arrive, Commands, LivePush.SlotsCommand;
    var m := LiveStep(c, l, a).value;
    if a.Work? && m.s.batches == [] {
      NothingToDo(l.s, a.w, a.e) by { SomeGood(c, l); }
    }
  }

  lemma NothingToDo(s: State, w: nat, e: Event)
    requires Good(s) && s.batches == [] && w < |s.ws| && Internal(s.ws[w], e)
    ensures !StoresText(e) && !e.Fire?
  {
    hide StoredOnce, FiringOrder, CountsMatch, Increasing, WasOffered;
    assert WriterOk(s, w);
    if s.ws[w].accepted != [] {
      var j := PartOf(s, w, s.ws[w].accepted[0].num);
    }
  }

  lemma InitLiveGood(c: Setup)
    requires LivePush.HasWriters(c.ws)
    ensures LiveGood(c, LiveInit(c))
  {
    hide Good;
    InitGood(Threads(c.ws));
    var l := LiveInit(c);
    assert forall i | 0 <= i < |l.s.ws| :: l.s.ws[i] == IDLE;
    assert TextsOf(c, l, []);
  }

  lemma {:induction false} LiveRunKeeps(c: Setup, l: Live, run: seq<Action>)
    requires LivePush.HasWriters(c.ws) && LiveGood(c, l) && LiveRun(c, l, run).Some? && Serial(l.s, run)
    ensures LiveGood(c, LiveRun(c, l, run).value)
    ensures Run(l.s, run) == Some(LiveRun(c, l, run).value.s)
    decreases |run|
  {
    hide LiveGood, LiveStep, Step, AllThrough;
    if run != [] {
      LiveStepProjects(c, l, run[0]);
      LiveStepKeeps(c, l, run[0]);
      LiveRunKeeps(c, LiveStep(c, l, run[0]).value, run[1..]);
    }
  }

  lemma LiveStepProjects(c: Setup, l: Live, a: Action)
    requires LivePush.HasWriters(c.ws) && LiveStep(c, l, a).Some?
    ensures Step(l.s, a) == Some(LiveStep(c, l, a).value.s)
  {
    hide Step, Shares, LivePush.Process, LivePush.Fire;
  }

  /** The published blocks are the first that the run began, in order. */
  predicate FirstPublished(fired: seq<nat>, run: seq<Action>) {
    |fired| <= |Started(run)| && forall k | 0 <= k < |fired| :: fired[k] == Started(run)[k].num
  }

  /**
   * Over every run in which a block is begun only when no writer at work has anything left to report,
   * with failures and cancel() anywhere: the published blocks are the first ones, and the commands are
   * the serial ones of exactly those blocks, each with exactly its rows.
   */
  lemma LiveRunCommands(c: Setup, run: seq<Action>, l: Live)
    requires LivePush.HasWriters(c.ws) && LiveRun(c, LiveInit(c), run) == Some(l) && Serial(LiveInit(c).s, run)
    ensures l.commands == Commands(c, l.s.fired)
    ensures FirstPublished(l.s.fired, run)
  {
    hide LiveRun, Run, Started, Serial, Good, InLine, TextsOk, RaceFree, RowsStored, Commands;
    InitLiveGood(c);
    LiveRunKeeps(c, LiveInit(c), run);
    SerialRaceFree(LiveInit(c).s, run) by { SomeGood(c, LiveInit(c)); }
    if l.s.fired != [] { Frontier(Threads(c.ws), run, l.s, |l.s.fired| - 1); }
    forall k | 0 <= k < |l.s.fired| ensures l.s.fired[k] == Started(run)[k].num {
      Frontier(Threads(c.ws), run, l.s, k);
    }
  }

  /** So it is in every run with the wait that the dumper makes, if nobody calls cancel(). */
  lemma WaitedRunCommands(c: Setup, run: seq<Action>, l: Live)
    requires LivePush.HasWriters(c.ws) && LiveRun(c, LiveInit(c), run) == Some(l)
    requires Waits(LiveInit(c).s, run) && forall i | 0 <= i < |run| :: !Cancels(run[i])
    ensures l.commands == Commands(c, l.s.fired)
    ensures FirstPublished(l.s.fired, run)
  {
    hide LiveRun, Serial, Good, Waits, Commands;
    InitGood(Threads(c.ws));
    assert forall i | 0 <= i < Threads(c.ws) :: LiveInit(c).s.ws[i] == IDLE;
    WaitsSerial(LiveInit(c).s, run);
    LiveRunCommands(c, run, l);
  }

  /** Once every writer is done, none being closed, cancelled or failed, every started batch is published. */
  lemma WaitedHasPublished(n: nat, run: seq<Action>, s: State, j: nat)
    requires n >= 1 && Run(Init(n), run) == Some(s) && s.next == |s.ws| && j < |Started(run)|
    requires forall i | 0 <= i < |s.ws| :: var v := s.ws[i]; !v.busy && v.cont && !v.cancel && !v.threw
    ensures Started(run)[j].num in s.fired
  {
    hide Run, Started, RaceFree, Good, Reachable, Complete, Closed;
    RunReaches(n, run, s);
    WritersReachable(n, s);
    InitGood(n);
    NeverCancelled(Init(n), run);
    RunKeepsPrefixed(Init(n), run) by { InitPrefixed(n); }
    forall i | 0 <= i < |s.ws|
      ensures !Active(s.ws[i]) && Has(s.ws[i], s.batches[j].num)
    {
      assert Delivered(s, i);
      CompletedMeansIdle(s.ws[i]);
      OpenIsNotClosed(s.ws[i]);
      assert s.ws[i].accepted[j].num == s.batches[j].num;
    }
    EveryoneHas(s.ws, s.batches[j].num);
    FiredIffComplete(n, s, s.batches[j].num);
  }

  lemma OpenIsNotClosed(v: Worker)
    requires v.cont && v.queue == []
    ensures !Closed(v)
  {
  }
}
