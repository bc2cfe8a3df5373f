/** What a batch dropped during cancel() costs, and when a later batch can still be published. */
module PipelineRace {
  import opened Common
  import opened DataProcessor
  import opened Pipeline

  // ---- One run that loses a batch ----

  /** A single writer between two batches. */
  function One(w: Worker, fired: seq<nat>, bs: seq<Batch>, db: multiset<RowId>): State {
    State([w], map[], fired, bs, 1, db)
  }

  /** Appends one action to a run that ends in s. */
  lemma {:induction false} Then(s0: State, run: seq<Action>, s: State, a: Action, t: State)
    returns (longer: seq<Action>)
    requires Run(s0, run) == Some(s) && Step(s, a) == Some(t)
    ensures Run(s0, longer) == Some(t)
    decreases |run|
  {
    if run == [] {
      longer := [a];
      assert longer[1..] == [];
    } else {
      var rest := Then(Step(s0, run[0]).value, run[1..], s, a, t);
      longer := [run[0]] + rest;
      assert longer[1..] == rest;
    }
  }

  /** The producer starts a batch of one row and offers it. */
  lemma Give(s0: State, run: seq<Action>, w: Worker, fired: seq<nat>, bs: seq<Batch>, db: multiset<RowId>, num: nat)
    returns (longer: seq<Action>)
    requires Run(s0, run) == Some(One(w, fired, bs, db))
    requires (Accepts(w) || Drops(w)) && num > LastNum(One(w, fired, bs, db))
    ensures Run(s0, longer) == Some(One(Next(w, Enqueue(Chunk(num, 1))), fired, bs + [Batch(num, [1])], db))
  {
    var s := One(w, fired, bs, db);
    var t := s.(batches := bs + [Batch(num, [1])], next := 0);
    var u := One(Next(w, Enqueue(Chunk(num, 1))), fired, bs + [Batch(num, [1])], db);
    assert Step(s, Start(num, [1])) == Some(t);
    assert t.ws[0 := u.ws[0]] == u.ws;
    longer := Then(s0, run, s, Start(num, [1]), t);
    longer := Then(s0, longer, t, Offer, u);
  }

  lemma Works(s0: State, run: seq<Action>, w: Worker, fired: seq<nat>, bs: seq<Batch>, db: multiset<RowId>, e: Event)
    returns (longer: seq<Action>)
    requires Run(s0, run) == Some(One(w, fired, bs, db)) && Internal(w, e) && !e.Throw?
    ensures Run(s0, longer) ==
            Some(One(Next(w, e), if e.Fire? then fired + [Current(w).num] else fired, bs,
                     if e.Commit? then db + Rows(0, Current(w)) else db))
  {
    var s := One(w, fired, bs, db);
    assert s.ws[0 := Next(w, e)] == [Next(w, e)];
    longer := Then(s0, run, s, Work(0, e), WorkStep(s, 0, e));
  }

  lemma ReportsAlone(s0: State, run: seq<Action>, w: Worker, fired: seq<nat>, bs: seq<Batch>, db: multiset<RowId>)
    returns (longer: seq<Action>)
    requires Run(s0, run) == Some(One(w, fired, bs, db)) && w.pc.Processed? && HasCurrent(w)
    ensures Run(s0, longer) == Some(One(Next(w, Report(Completed)), fired, bs, db))
  {
    var s := One(w, fired, bs, db);
    var v := Next(w, Report(Completed));
    assert s.ws[0 := v] == [v];
    longer := Then(s0, run, s, ReportTo(0), One(v, fired, bs, db));
  }

  lemma Publishes(s0: State, run: seq<Action>, w: Worker, fired: seq<nat>, bs: seq<Batch>, db: multiset<RowId>)
    returns (longer: seq<Action>)
    requires Run(s0, run) == Some(One(w, fired, bs, db)) && w.pc.Processed? && HasCurrent(w)
    ensures Run(s0, longer) ==
            Some(One(w.(pc := Reported, reported := w.reported + 1), fired + [Current(w).num], bs, db))
  {
    hide Run;
    var v := Next(w, Report(Completed));
    longer := ReportsAlone(s0, run, w, fired, bs, db);
    longer := Works(s0, longer, v, fired, bs, db, Erase);
    longer := Works(s0, longer, Next(v, Erase), fired, bs, db, Fire);
  }

  /** The worker after it has taken, committed and published its first queued chunk. */
  function Done(w: Worker): Worker
    requires w.queue != []
  {
    w.(queue := w.queue[1..], popped := w.popped + 1, committed := w.committed + 1, reported := w.reported + 1,
       busy := w.busy && w.queue[1..] != [])
  }

  lemma Cycle(s0: State, run: seq<Action>, w: Worker, fired: seq<nat>, bs: seq<Batch>, db: multiset<RowId>)
    returns (longer: seq<Action>)
    requires Run(s0, run) == Some(One(w, fired, bs, db))
    requires Consistent(w) && w.pc.Waiting? && w.cont && w.queue != []
    ensures Run(s0, longer) == Some(One(Done(w), fired + [w.queue[0].num], bs, db + Rows(0, w.queue[0])))
  {
    hide Run;
    var v := Next(w, Pop);
    assert Current(v) == w.queue[0];
    longer := Works(s0, run, w, fired, bs, db, Pop);
    longer := Works(s0, longer, v, fired, bs, db, Commit);
    v := Next(v, Commit);
    var db' := db + Rows(0, w.queue[0]);
    longer := Publishes(s0, longer, v, fired, bs, db');
    v := v.(pc := Reported, reported := v.reported + 1);
    longer := Works(s0, longer, v, fired + [w.queue[0].num], bs, db', Drain);
  }

  /** Batches 1 and 2 fill the queue, cancel() stores its flag, and batch 3 is dropped. */
  lemma DropWhileOpen(s0: State) returns (run: seq<Action>, w: Worker)
    requires s0 == One(IDLE, [], [], multiset{})
    ensures w == Worker([Chunk(1, 1), Chunk(2, 1)], true, true, true, Waiting, [Chunk(1, 1), Chunk(2, 1)], 0, 0, 0,
            false)
    ensures Run(s0, run) == Some(One(w, [], [Batch(1, [1]), Batch(2, [1]), Batch(3, [1])], multiset{}))
  {
    assert Run(s0, []) == Some(s0);
    hide Run;
    var db := multiset{};
    run := Give(s0, [], IDLE, [], [], db, 1);
    w := Next(IDLE, Enqueue(Chunk(1, 1)));
    assert [] + [Batch(1, [1])] == [Batch(1, [1])];
    run := Give(s0, run, w, [], [Batch(1, [1])], db, 2);
    w := Next(w, Enqueue(Chunk(2, 1)));
    assert [Batch(1, [1])] + [Batch(2, [1])] == [Batch(1, [1]), Batch(2, [1])];
    run := Works(s0, run, w, [], [Batch(1, [1]), Batch(2, [1])], db, SetCancel);
    w := Next(w, SetCancel);
    run := Give(s0, run, w, [], [Batch(1, [1]), Batch(2, [1])], db, 3);
    assert [Batch(1, [1]), Batch(2, [1])] + [Batch(3, [1])] == [Batch(1, [1]), Batch(2, [1]), Batch(3, [1])];
  }

  /**
   * Without race freedom the frontier is lost: batch 3 is dropped while cancel() has only stored
   * _cancel, batch 4 is accepted and published, and batch 3's row never reaches the database.
   */
  lemma RaceLosesABatch() returns (run: seq<Action>, s: State)
    ensures Run(Init(1), run) == Some(s)
    ensures 4 in s.fired && |s.batches| == 4 && s.batches[2] == Batch(3, [1])
    ensures s.db[RowId(3, 0, 0)] == 0
  {
    hide Run;
    var s0 := Init(1);
    assert s0 == One(IDLE, [], [], multiset{});
    var w;
    run, w := DropWhileOpen(s0);
    var bs := [Batch(1, [1]), Batch(2, [1]), Batch(3, [1])];
    var db := multiset{};
    run := Cycle(s0, run, w, [], bs, db);
    w, db := Done(w), db + Rows(0, Chunk(1, 1));
    assert [] + [1] == [1];
    run := Give(s0, run, w, [1], bs, db, 4);
    w, bs := Next(w, Enqueue(Chunk(4, 1))), bs + [Batch(4, [1])];
    run := Cycle(s0, run, w, [1], bs, db);
    w, db := Done(w), db + Rows(0, Chunk(2, 1));
    assert [1] + [2] == [1, 2];
    run := Cycle(s0, run, w, [1, 2], bs, db);
    assert [1, 2] + [4] == [1, 2, 4];
    s := One(Done(w), [1, 2, 4], bs, db + Rows(0, Chunk(4, 1)));
    assert s.fired[2] == 4;
  }

  // ---- When a later batch can still be published ----

  predicate Open(v: Worker) {
    v.cont && !v.threw
  }

  ghost predicate AllOpen(ws: seq<Worker>) {
    forall i | 0 <= i < |ws| :: Open(ws[i])
  }

  predicate Idle(v: Worker) {
    v.pc.Waiting? && v.queue == []
  }

  function Remaining(v: Worker): nat {
    6 * |v.queue| + Rank(v.pc)
  }

  /** What an open worker does next. */
  function NextMove(v: Worker, w: nat): Action {
    match v.pc
    case Waiting => Work(w, Pop)
    case Popped => Work(w, Commit)
    case Processed => ReportTo(w)
    case Triggered => Work(w, Erase)
    case Firing => Work(w, Fire)
    case _ => Work(w, Drain)
  }

  /** Only writer w moved, and it accepted nothing. */
  ghost predicate Moved(s: State, t: State, w: nat) {
    && t.batches == s.batches && t.next == s.next && |t.ws| == |s.ws| && w < |s.ws|
    && (forall i | 0 <= i < |s.ws| && i != w :: t.ws[i] == s.ws[i])
    && t.ws[w].accepted == s.ws[w].accepted && Open(t.ws[w])
  }

  lemma MoveShrinks(v: Worker, w: nat)
    requires Orderly(v) && Open(v) && !Idle(v) && !v.pc.Processed?
    ensures var a := NextMove(v, w);
            && a.Work? && a.w == w && Internal(v, a.e) && Next(v, a.e).accepted == v.accepted
            && Open(Next(v, a.e)) && Remaining(Next(v, a.e)) < Remaining(v)
  {
  }

  lemma WorkMoves(s: State, w: nat)
    requires Good(s) && w < |s.ws| && Open(s.ws[w]) && !Idle(s.ws[w]) && !s.ws[w].pc.Processed?
    ensures var t := Step(s, NextMove(s.ws[w], w));
            t.Some? && Moved(s, t.value, w) && Remaining(t.value.ws[w]) < Remaining(s.ws[w])
  {
    hide StoredOnce, FiringOrder, CountsMatch, Increasing, WasOffered, Orderly, Next, Remaining, NextMove, Internal;
    assert WriterOk(s, w);
    MoveShrinks(s.ws[w], w);
  }

  lemma ReportMoves(s: State, w: nat)
    requires Good(s) && w < |s.ws| && Open(s.ws[w]) && s.ws[w].pc.Processed?
    ensures var t := Step(s, NextMove(s.ws[w], w));
            t.Some? && Moved(s, t.value, w) && Remaining(t.value.ws[w]) < Remaining(s.ws[w])
  {
    hide StoredOnce, FiringOrder, CountsMatch, Increasing, WasOffered, Rendezvous.Arrive, Complete, Count;
    assert WriterOk(s, w);
    ReportOutcome(s, w);
  }

  lemma {:induction false} Appended(s: State, run: seq<Action>, t: State, more: seq<Action>)
    requires Run(s, run) == Some(t)
    ensures Run(s, run + more) == Run(t, more)
    decreases |run|
  {
    hide Step;
    if run == [] {
      assert run + more == more;
    } else {
      assert (run + more)[1..] == run[1..] + more;
      Appended(Step(s, run[0]).value, run[1..], t, more);
    }
  }

  lemma OneStep(s: State, a: Action)
    requires Step(s, a).Some?
    ensures Run(s, [a]) == Step(s, a)
  {
    hide Step;
    assert [a][1..] == [];
  }

  /** Neither starts a batch nor cancels anybody. */
  ghost predicate Steady(run: seq<Action>) {
    forall i | 0 <= i < |run| :: !run[i].Start? && !Cancels(run[i])
  }

  lemma {:induction false} Settle(s: State, w: nat) returns (run: seq<Action>, t: State)
    requires Good(s) && w < |s.ws| && Open(s.ws[w])
    ensures Run(s, run) == Some(t) && Good(t) && Moved(s, t, w) && Idle(t.ws[w]) && Steady(run)
    decreases Remaining(s.ws[w])
  {
    hide Good, Step, Open;
    if Idle(s.ws[w]) {
      run, t := [], s;
    } else {
      var a := NextMove(s.ws[w], w);
      if s.ws[w].pc.Processed? { ReportMoves(s, w); } else { WorkMoves(s, w); }
      StepKeepsGood(s, a);
      var rest;
      rest, t := Settle(Step(s, a).value, w);
      run := [a] + rest;
      OneStep(s, a);
      Appended(s, [a], Step(s, a).value, rest);
    }
  }

  /** Nothing was accepted, everybody below k is idle and nobody else moved. */
  ghost predicate Settled(s: State, t: State, k: nat) {
    && t.batches == s.batches && t.next == s.next && |t.ws| == |s.ws| && AllOpen(t.ws) && k <= |s.ws|
    && (forall i | 0 <= i < |s.ws| :: t.ws[i].accepted == s.ws[i].accepted)
    && (forall i | 0 <= i < k :: Idle(t.ws[i]))
    && (forall i | k <= i < |s.ws| :: t.ws[i] == s.ws[i])
  }

  lemma {:induction false} SettleAll(s: State, k: nat) returns (run: seq<Action>, t: State)
    requires Good(s) && AllOpen(s.ws) && k <= |s.ws|
    ensures Run(s, run) == Some(t) && Good(t) && Settled(s, t, k) && Steady(run)
  {
    hide Good, Step, Open, Idle;
    if k == 0 {
      run, t := [], s;
    } else {
      var u, rest;
      run, u := SettleAll(s, k - 1);
      rest, t := Settle(u, k - 1);
      Appended(s, run, u, rest);
      run := run + rest;
    }
  }

  /** The worker itself has not moved. */
  predicate SameWork(v: Worker, v': Worker) {
    v'.pc == v.pc && v'.popped == v.popped && v'.committed == v.committed && v'.reported == v.reported
        && v'.cancel == v.cancel
  }

  /** One more chunk was accepted, of the given batch. */
  predicate Extended(v: Worker, v': Worker, num: nat) {
    v.accepted <= v'.accepted && |v'.accepted| == |v.accepted| + 1 && v'.accepted[|v.accepted|].num == num
  }

  /** Writers from s.next on have accepted the last batch, and nothing else has happened. */
  ghost predicate OfferedAll(s: State, t: State) {
    && t.batches == s.batches && t.next == |s.ws| == |t.ws| && AllOpen(t.ws)
    && (forall i | 0 <= i < |s.ws| :: |t.ws[i].queue| <= |s.ws[i].queue| + 1)
    && (forall i | s.next <= i < |s.ws| :: Took(t.ws[i], LastNum(s)) && Extended(s.ws[i], t.ws[i], LastNum(s)))
    && (forall i | 0 <= i < |s.ws| && i < s.next :: t.ws[i] == s.ws[i])
    && (forall i | 0 <= i < |s.ws| :: SameWork(s.ws[i], t.ws[i]) && s.ws[i].accepted <= t.ws[i].accepted)
  }

  ghost predicate HasRoom(s: State) {
    forall i | s.next <= i < |s.ws| :: |s.ws[i].queue| < MAX_QUEUED_CHUNKS
  }

  lemma OfferAccepts(s: State)
    requires Shape(s) && s.next < |s.ws| && Open(s.ws[s.next]) && |s.ws[s.next].queue| < MAX_QUEUED_CHUNKS
    ensures var t := Step(s, Offer);
            && t.Some? && t.value == s.(ws := s.ws[s.next := t.value.ws[s.next]], next := s.next + 1)
            && |t.value.ws| == |s.ws| && Open(t.value.ws[s.next]) && Took(t.value.ws[s.next], LastNum(s))
            && |t.value.ws[s.next].queue| == |s.ws[s.next].queue| + 1
            && SameWork(s.ws[s.next], t.value.ws[s.next])
            && Extended(s.ws[s.next], t.value.ws[s.next], LastNum(s))
  {
    hide Increasing;
    var v := Next(s.ws[s.next], Enqueue(Offered(s)));
    assert v.accepted[|s.ws[s.next].accepted|].num == LastNum(s);
  }

  lemma {:induction false} OfferRest(s: State) returns (run: seq<Action>, t: State)
    requires Good(s) && AllOpen(s.ws) && HasRoom(s)
    ensures Run(s, run) == Some(t) && Good(t) && OfferedAll(s, t) && Steady(run)
    ensures forall i | 0 <= i < |run| :: run[i].Offer?
    decreases |s.ws| - s.next
  {
    hide Good, Step, Open, Took;
    GoodDelivery(s);
    if s.next == |s.ws| {
      run, t := [], s;
    } else {
      OfferAccepts(s);
      StepKeepsGood(s, Offer);
      var u := Step(s, Offer).value;
      var rest;
      rest, t := OfferRest(u);
      run := [Offer] + rest;
      OneStep(s, Offer);
      Appended(s, [Offer], u, rest);
    }
  }

  /** The batch that comes next, without rows. */
  function NewBatch(s: State): Action {
    Start(LastNum(s) + 1, seq(|s.ws|, _ => 0))
  }

  lemma NewBatchStarts(s: State)
    requires s.next == |s.ws|
    ensures var t := Step(s, NewBatch(s));
            t.Some? && t.value.ws == s.ws && t.value.next == 0 && LastNum(t.value) == LastNum(s) + 1
  {
  }

  /** Once everybody is idle, what everybody accepted has been published. */
  lemma SettledHasFired(s: State, num: nat)
    requires Good(s) && AllOpen(s.ws) && forall i | 0 <= i < |s.ws| :: Idle(s.ws[i]) && Took(s.ws[i], num)
    ensures num in s.fired
  {
    hide StoredOnce, CountsMatch, Increasing, WasOffered;
    forall i | 0 <= i < |s.ws| ensures Has(s.ws[i], num) {
      assert WriterOk(s, i) && Idle(s.ws[i]) && Took(s.ws[i], num);
    }
    FiredWhenSettled(s, num);
  }

  ghost predicate FiresLater(s: State, run: seq<Action>) {
    Run(s, run).Some? && exists k :: 0 <= k < |Run(s, run).value.fired| && Run(s, run).value.fired[k] > LastNum(s)
  }

  /** Between two batches, everybody open and with room in the queue for the next one. */
  ghost predicate AtRest(s: State) {
    Good(s) && AllOpen(s.ws) && s.next == |s.ws| && forall i | 0 <= i < |s.ws| :: |s.ws[i].queue| <= 1
  }

  /** The queues can be worked off and the batch being offered finished. */
  lemma Rest(s: State) returns (run: seq<Action>, t: State)
    requires Good(s) && AllOpen(s.ws)
    ensures Run(s, run) == Some(t) && AtRest(t) && t.batches == s.batches
  {
    hide Good, Run, Step, Open, Took;
    var rest, u;
    run, u := SettleAll(s, |s.ws|);
    assert forall i | 0 <= i < |u.ws| :: Idle(u.ws[i]);
    rest, t := OfferRest(u);
    Appended(s, run, u, rest);
    run := run + rest;
  }

  /** A new batch can be started, accepted by everybody and published. */
  lemma PublishNew(s: State) returns (run: seq<Action>, t: State)
    requires AtRest(s)
    ensures Run(s, run) == Some(t) && LastNum(s) + 1 in t.fired
  {
    hide Good, Run, Step, Open, Took;
    var a, u, v, rest := NewBatch(s), s, s, [];
    NewBatchStarts(s);
    StepKeepsGood(s, a);
    OneStep(s, a);
    u := Step(s, a).value;
    rest, v := OfferRest(u);
    Appended(s, [a], u, rest);
    run := [a] + rest;
    rest, t := SettleAll(v, |v.ws|);
    Appended(s, run, v, rest);
    run := run + rest;
    SettledTook(v, t, LastNum(u));
    SettledHasFired(t, LastNum(u));
  }

  lemma SettledTook(s: State, t: State, num: nat)
    requires Settled(s, t, |s.ws|) && forall i | 0 <= i < |s.ws| :: Took(s.ws[i], num)
    ensures forall i | 0 <= i < |t.ws| :: Idle(t.ws[i]) && Took(t.ws[i], num)
  {
    forall i | 0 <= i < |t.ws| ensures Took(t.ws[i], num) {
      SameAccepted(s.ws[i], t.ws[i], num);
    }
  }

  lemma OpenCanFire(s: State) returns (run: seq<Action>)
    requires Good(s) && AllOpen(s.ws)
    ensures FiresLater(s, run)
  {
    hide Good, Run, AtRest;
    var rest, t, u;
    run, t := Rest(s);
    rest, u := PublishNew(t);
    Appended(s, run, t, rest);
    run := run + rest;
    var k :| 0 <= k < |u.fired| && u.fired[k] == LastNum(t) + 1;
    assert u.fired[k] > LastNum(s);
  }

  /** A writer that is closed or failed loses every batch still to come. */
  lemma ShutLoses(s: State, w: nat, num: nat)
    requires Good(s) && w < |s.ws| && !Open(s.ws[w]) && num > LastNum(s)
    ensures Lost(s, w, num)
  {
    hide StoredOnce, FiringOrder, CountsMatch, Delivery, Took;
    TookIsKnown(s, w, num);
  }

  /**
   * In every state of every run: a batch not yet started can still be published if and only if
   * every writer is open and has not failed. So a batch dropped while cancel() is half done is
   * followed by a later publication exactly in that case.
   */
  lemma LaterFiresIff(n: nat, s: State)
    requires n >= 1 && Reaches(n, s)
    ensures (exists run :: FiresLater(s, run)) <==> AllOpen(s.ws)
  {
    hide Reaches, Run, Good, Open, Lost;
    ReachesGood(n, s);
    if AllOpen(s.ws) {
      var run := OpenCanFire(s);
    } else {
      var w :| 0 <= w < |s.ws| && !Open(s.ws[w]);
      forall run ensures !FiresLater(s, run) {
        ShutNeverFires(n, s, w, run);
      }
    }
  }

  lemma ShutNeverFires(n: nat, s: State, w: nat, run: seq<Action>)
    requires n >= 1 && Reaches(n, s) && w < |s.ws| && !Open(s.ws[w])
    ensures !FiresLater(s, run)
  {
    hide Reaches, Run, Good, Open, Lost;
    ReachesGood(n, s);
    if Run(s, run).Some? {
      var t := Run(s, run).value;
      forall k | 0 <= k < |t.fired| ensures t.fired[k] <= LastNum(s) {
        if t.fired[k] > LastNum(s) {
          ShutLoses(s, w, t.fired[k]);
          LostNeverFires(n, s, run, w, t.fired[k]);
        }
      }
    }
  }

  /** A later batch is published although a row of batch b is missing. */
  ghost predicate BreaksFrontier(s: State, run: seq<Action>, b: Batch) {
    FiresLater(s, run) && !RowsStored(Run(s, run).value.db, b)
  }

  /** Batch b, given last, was not accepted by writer w, which was to get rows of it. */
  ghost predicate DroppedLast(n: nat, before: seq<Action>, s: State, w: nat, b: Batch) {
    && n >= 1 && Run(Init(n), before) == Some(s) && w < |s.ws| && w < s.next
    && Started(before) != [] && b == Started(before)[|Started(before)| - 1]
    && w < |b.rows| && b.rows[w] > 0 && !Took(s.ws[w], b.num)
  }

  /** The frontier can be broken behind the batch just dropped exactly when every writer is open and has not failed. */
  lemma DropBreaksFrontierIff(n: nat, before: seq<Action>, s: State, w: nat, b: Batch)
    requires DroppedLast(n, before, s, w, b)
    ensures (exists run :: BreaksFrontier(s, run, b)) <==> AllOpen(s.ws)
  {
    hide Reaches, Run, Started, Good, Open, Took, RowsStored;
    RunReaches(n, before, s);
    LaterFiresIff(n, s);
    forall run | FiresLater(s, run) ensures BreaksFrontier(s, run, b) {
      DroppedStaysMissing(n, before, s, w, b, run);
    }
  }

  lemma DroppedStaysMissing(n: nat, before: seq<Action>, s: State, w: nat, b: Batch, run: seq<Action>)
    requires DroppedLast(n, before, s, w, b) && Run(s, run).Some?
    ensures !RowsStored(Run(s, run).value.db, b)
  {
    hide Reaches, Run, Started, Good, Took;
    var t := Run(s, run).value;
    RunReaches(n, before, s);
    RunKeepsGood(s, run);
    assert Missed(s, w, b.num);
    LostForever(s, run, w, b.num);
    GoodStored(t);
    MissedIsNotStored(t, w, b.num, 0);
    assert t.db[RowId(b.num, w, 0)] != 1;
  }

  lemma GoodStored(s: State)
    requires Good(s)
    ensures StoredOnce(s)
  {
  }
}
