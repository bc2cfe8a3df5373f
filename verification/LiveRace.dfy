/** Why the live dumper waits between two blocks: a run whose command holds rows of both. */
module LiveRace {
  import opened Common
  import opened BlockCache
  import opened DataProcessor
  import opened Pipeline
  import opened PipelineRace
  import opened LiveDump
  import opened Rendering
  import LivePush

  // ---- From a run of the writers to a run of the dumper ----

  ghost predicate StartsFit(c: Setup, run: seq<Action>)
    requires LivePush.HasWriters(c.ws)
  {
    forall i | 0 <= i < |run| && run[i].Start? ::
      c.rows(run[i].num).blocks != [] && run[i].rows == Shares(c, run[i].num)
  }

  lemma {:induction false} Lifted(c: Setup, l: Live, run: seq<Action>)
    requires LivePush.HasWriters(c.ws) && StartsFit(c, run) && Run(l.s, run).Some?
    ensures LiveRun(c, l, run).Some? && LiveRun(c, l, run).value.s == Run(l.s, run).value
    decreases |run|
  {
    hide Step, Shares, LivePush.Process, LivePush.Fire;
    if run != [] {
      var m := LiveStep(c, l, run[0]).value;
      Lifted(c, m, run[1..]);
    }
  }

  lemma {:induction false} LiveJoin(c: Setup, l: Live, run: seq<Action>, m: Live, more: seq<Action>)
    requires LivePush.HasWriters(c.ws) && LiveRun(c, l, run) == Some(m)
    ensures LiveRun(c, l, run + more) == LiveRun(c, m, more)
    decreases |run|
  {
    hide LiveStep;
    if run == [] {
      assert run + more == more;
    } else {
      assert (run + more)[1..] == run[1..] + more;
      LiveJoin(c, LiveStep(c, l, run[0]).value, run[1..], m, more);
    }
  }

  lemma OneLive(c: Setup, l: Live, a: Action)
    requires LivePush.HasWriters(c.ws) && LiveStep(c, l, a).Some?
    ensures LiveRun(c, l, [a]) == LiveStep(c, l, a)
  {
    hide LiveStep;
    assert [a][1..] == [];
  }

  // ---- Texts before the first firing ----

  /** What a writer has stored for the last of these chunks that had rows for it. */
  function Latest(c: Setup, chunks: seq<Chunk>, w: LivePush.Writer): string
    requires LivePush.HasWriters(c.ws)
  {
    if chunks == [] then []
    else
      var rows := LivePush.Assigned(c.rows(chunks[|chunks| - 1].num), c.ws, w);
      if rows != [] then Render(rows) else Latest(c, chunks[..|chunks| - 1], w)
  }

  function Committed(v: Worker): seq<Chunk>
    requires v.committed <= |v.accepted|
  {
    v.accepted[..v.committed]
  }

  ghost predicate HasLatest(c: Setup, l: Live, i: nat)
    requires LivePush.HasWriters(c.ws) && i < |l.s.ws|
  {
    var v := l.s.ws[i];
    var w := WriterAt(c.ws, i);
    v.committed <= |v.accepted| && LivePush.TextAt(l.slots, w) == Latest(c, Committed(v), w)
  }

  ghost predicate NoneFired(c: Setup, l: Live)
    requires LivePush.HasWriters(c.ws)
  {
    l.s.fired == [] ==> l.commands == [] && forall i | 0 <= i < |l.s.ws| && i < Threads(c.ws) :: HasLatest(c, l, i)
  }

  lemma Different(ws: LivePush.Widths, i: nat, j: nat)
    requires i < Threads(ws) && j < Threads(ws) && i != j
    ensures WriterAt(ws, i) != WriterAt(ws, j)
  {
  }

  lemma StillCommitted(v: Worker, e: Event)
    requires Consistent(v) && Enabled(v, e) && !StoresText(e)
    ensures var v' := Next(v, e); v'.committed == v.committed <= |v'.accepted| && Committed(v') == Committed(v)
  {
    var v' := Next(v, e);
    assert v.accepted <= v'.accepted;
  }

  lemma NewlyCommitted(v: Worker, e: Event)
    requires Consistent(v) && Enabled(v, e) && StoresText(e)
    ensures var v' := Next(v, e);
            && HasCurrent(v) && v.committed <= |v.accepted| && v'.committed <= |v'.accepted|
            && Committed(v') == Committed(v) + [Current(v)]
  {
  }

  lemma StillLatest(c: Setup, l: Live, a: Action, i: nat)
    requires LivePush.HasWriters(c.ws) && Good(l.s) && Plain(a) && LiveStep(c, l, a).Some?
    requires i < |l.s.ws| && HasLatest(c, l, i)
    ensures var m := LiveStep(c, l, a).value; |m.s.ws| == |l.s.ws| && HasLatest(c, m, i)
  {
    hide Good, Rendezvous.Arrive, Next, Enabled, Orderly, LivePush.TextAt, Latest, Committed, WriterAt, Shares;
    var s := l.s;
    GoodOrderly(s);
    ConsistentOf(s.ws[i]);
    match a
    case Start(_, _) =>
    case Offer => if s.next == i { StillCommitted(s.ws[i], Enqueue(Offered(s))); }
    case ReportTo(w) =>
      if w == i {
        var outcome := Rendezvous.Arrive(|s.ws|, s.counts, Current(s.ws[w]).num).1;
        CanReport(s.ws[w], outcome);
        StillCommitted(s.ws[i], Report(outcome));
      }
    case Work(w, e) => if w == i { StillCommitted(s.ws[i], e); }
  }

  lemma LatestAfter(c: Setup, slots: LivePush.Slots, chunks: seq<Chunk>, chunk: Chunk, w: LivePush.Writer)
    requires LivePush.HasWriters(c.ws) && LivePush.TextAt(slots, w) == Latest(c, chunks, w)
    ensures LivePush.TextAt(LivePush.Process(slots, c.rows(chunk.num), c.ws, w), w) == Latest(c, chunks + [chunk], w)
  {
    hide Render, LivePush.Assigned;
    assert (chunks + [chunk])[..|chunks|] == chunks;
  }

  lemma OtherText(slots: LivePush.Slots, data: Tables, ws: LivePush.Widths, w: LivePush.Writer, other: LivePush.Writer)
    requires LivePush.HasWriters(ws) && other != w
    ensures LivePush.TextAt(LivePush.Process(slots, data, ws, w), other) == LivePush.TextAt(slots, other)
  {
    hide Render, LivePush.Assigned;
  }

  lemma NewLatest(c: Setup, l: Live, w: nat, e: Event, i: nat)
    requires LivePush.HasWriters(c.ws) && Good(l.s) && StoresText(e) && LiveStep(c, l, Work(w, e)).Some?
    requires i < |l.s.ws| == Threads(c.ws) && HasLatest(c, l, i)
    ensures var m := LiveStep(c, l, Work(w, e)).value; |m.s.ws| == |l.s.ws| && HasLatest(c, m, i)
  {
    hide Good, Next, Enabled, Orderly, Committed, WriterAt, Shares, Latest, LivePush.Process, LivePush.TextAt;
    var s := l.s;
    var rows := c.rows(Current(s.ws[w]).num);
    if i == w {
      GoodOrderly(s);
      ConsistentOf(s.ws[w]);
      NewlyCommitted(s.ws[w], e);
      LatestAfter(c, l.slots, Committed(s.ws[w]), Current(s.ws[w]), WriterAt(c.ws, w));
    } else {
      assert WriterAt(c.ws, i) != WriterAt(c.ws, w) by { Different(c.ws, i, w); }
      OtherText(l.slots, rows, c.ws, WriterAt(c.ws, w), WriterAt(c.ws, i));
    }
  }

  lemma NoneFiredStep(c: Setup, l: Live, a: Action)
    requires LivePush.HasWriters(c.ws) && Good(l.s) && |l.s.ws| == Threads(c.ws)
    requires NoneFired(c, l) && LiveStep(c, l, a).Some?
    ensures NoneFired(c, LiveStep(c, l, a).value) && |LiveStep(c, l, a).value.s.ws| == |l.s.ws|
  {
    hide Good, Rendezvous.Arrive, Next, Enabled, HasLatest, Shares, LivePush.Process, LivePush.Fire;
    var m := LiveStep(c, l, a).value;
    if m.s.fired == [] {
      forall i | 0 <= i < |m.s.ws| && i < Threads(c.ws) ensures HasLatest(c, m, i) {
        assert HasLatest(c, l, i);
        if Plain(a) {
          StillLatest(c, l, a, i);
        } else if a.Work? {
          NewLatest(c, l, a.w, a.e, i);
        } else {
          SameLatest(c, l, m, i);
        }
      }
    }
  }

  lemma SameLatest(c: Setup, l: Live, m: Live, i: nat)
    requires LivePush.HasWriters(c.ws) && i < |l.s.ws| && HasLatest(c, l, i) && m.s.ws == l.s.ws && m.slots == l.slots
    ensures HasLatest(c, m, i)
  {
  }

  lemma {:induction false} NoneFiredRun(c: Setup, l: Live, run: seq<Action>)
    requires LivePush.HasWriters(c.ws) && Good(l.s) && |l.s.ws| == Threads(c.ws)
    requires NoneFired(c, l) && LiveRun(c, l, run).Some?
    ensures NoneFired(c, LiveRun(c, l, run).value)
    decreases |run|
  {
    hide Good, NoneFired, LiveStep, Step;
    if run != [] {
      LiveStepProjects(c, l, run[0]);
      StepKeepsGood(l.s, run[0]);
      NoneFiredStep(c, l, run[0]);
      NoneFiredRun(c, LiveStep(c, l, run[0]).value, run[1..]);
    }
  }

  // ---- Joining runs ----

  lemma {:induction false} WaitsAppend(s: State, run: seq<Action>, t: State, more: seq<Action>)
    requires Run(s, run) == Some(t) && Waits(s, run) && Waits(t, more)
    ensures Waits(s, run + more)
    decreases |run|
  {
    hide Step, Waited;
    if run == [] {
      assert run + more == more;
    } else {
      assert (run + more)[1..] == run[1..] + more;
      WaitsAppend(Step(s, run[0]).value, run[1..], t, more);
    }
  }

  lemma {:induction false} NoStartWaits(s: State, run: seq<Action>)
    requires forall i | 0 <= i < |run| :: !run[i].Start?
    ensures Waits(s, run)
    decreases |run|
  {
    hide Step, Waited;
    if run != [] && Step(s, run[0]).Some? {
      NoStartWaits(Step(s, run[0]).value, run[1..]);
    }
  }

  /** The blocks that are begun have their rows, and the run either waits or cancels nobody. */
  ghost predicate Fits(c: Setup, s: State, run: seq<Action>, early: bool)
    requires LivePush.HasWriters(c.ws)
  {
    && StartsFit(c, run)
    && (if early then Waits(s, run) else forall i | 0 <= i < |run| :: !Cancels(run[i]))
  }

  lemma FitsAppend(c: Setup, s: State, run: seq<Action>, t: State, more: seq<Action>, early: bool)
    requires LivePush.HasWriters(c.ws) && Run(s, run) == Some(t) && Fits(c, s, run, early) && Fits(c, t, more, early)
    ensures Fits(c, s, run + more, early) && Run(s, run + more) == Run(t, more)
  {
    hide Run, Waits, Shares;
    Appended(s, run, t, more);
    if early { WaitsAppend(s, run, t, more); }
  }

  lemma SteadyFits(c: Setup, s: State, run: seq<Action>, early: bool)
    requires LivePush.HasWriters(c.ws) && Steady(run)
    ensures Fits(c, s, run, early)
  {
    hide Waits;
    NoStartWaits(s, run);
  }

  // ---- Two blocks at once ----

  const FIRST := EMPTY.(blocks := [Row(1, "a")], accountOperations := [Row(1, "b")])
  const SECOND := EMPTY.(blocks := [Row(2, "c")])

  function RowsOf(num: nat): Tables {
    if num == 1 then FIRST else SECOND
  }

  function Example(): (c: Setup)
    ensures LivePush.HasWriters(c.ws) && Threads(c.ws) == 7
  {
    Setup(false, LivePush.Widths(1, 1, 1), RowsOf)
  }

  /** The producer begins a block and every writer accepts its part. */
  lemma QueueBlock(c: Setup, s: State, num: nat, early: bool) returns (run: seq<Action>, t: State)
    requires LivePush.HasWriters(c.ws) && Good(s) && AllOpen(s.ws) && s.next == |s.ws| == Threads(c.ws)
    requires num > LastNum(s) && c.rows(num).blocks != [] && (early ==> Waited(s))
    requires forall i | 0 <= i < |s.ws| :: |s.ws[i].queue| <= 1
    ensures Run(s, run) == Some(t) && Good(t) && AllOpen(t.ws) && t.next == |t.ws| == |s.ws| && Fits(c, s, run, early)
    ensures |t.batches| == |s.batches| + 1 && s.batches <= t.batches && LastNum(t) == num
    ensures forall i | 0 <= i < |s.ws| ::
              && SameWork(s.ws[i], t.ws[i]) && s.ws[i].accepted <= t.ws[i].accepted
              && Took(t.ws[i], num) && |t.ws[i].queue| <= |s.ws[i].queue| + 1
  {
    hide Good, Run, Shares, Took, Open, SameWork, Waits;
    var a := Start(num, Shares(c, num));
    var u := Step(s, a).value;
    StepKeepsGood(s, a);
    OneStep(s, a);
    FirstFits(c, s, num, early);
    var rest;
    rest, t := OfferRest(u);
    SteadyFits(c, u, rest, early);
    FitsAppend(c, s, [a], u, rest, early);
    run := [a] + rest;
  }

  lemma FirstFits(c: Setup, s: State, num: nat, early: bool)
    requires LivePush.HasWriters(c.ws) && c.rows(num).blocks != [] && (early ==> Waited(s))
    ensures Fits(c, s, [Start(num, Shares(c, num))], early)
  {
    hide Step, Shares, Waited;
    var run := [Start(num, Shares(c, num))];
    assert run[1..] == [];
    assert Step(s, run[0]).Some? ==> Waits(Step(s, run[0]).value, []);
  }

  /** cancel() has stored its flag for everybody below k and not cleared the other one. */
  ghost predicate Flagged(s: State, t: State, k: nat) {
    && t == s.(ws := t.ws) && |t.ws| == |s.ws| && k <= |s.ws|
    && forall i | 0 <= i < |s.ws| :: t.ws[i] == s.ws[i].(cancel := i < k || s.ws[i].cancel)
  }

  lemma {:induction false} FlagAll(s: State, k: nat) returns (run: seq<Action>, t: State)
    requires Good(s) && k <= |s.ws|
    ensures Run(s, run) == Some(t) && Good(t) && Flagged(s, t, k) && forall i | 0 <= i < |run| :: !run[i].Start?
  {
    hide Good;
    if k == 0 {
      run, t := [], s;
    } else {
      var u;
      run, u := FlagAll(s, k - 1);
      var a := Work(k - 1, SetCancel);
      t := Step(u, a).value;
      StepKeepsGood(u, a);
      OneStep(u, a);
      Appended(s, run, u, [a]);
      run := run + [a];
    }
  }

  /** Every writer has both blocks queued and has not begun to work. */
  ghost predicate BothQueued(s: State) {
    && Good(s) && AllOpen(s.ws) && |s.ws| == 7 && |s.batches| == 2 && s.batches[0].num == 1 && s.batches[1].num == 2
    && forall i | 0 <= i < 7 :: Untouched(s.ws[i]) && Took(s.ws[i], 1) && Took(s.ws[i], 2)
  }

  predicate Untouched(v: Worker) {
    v.pc.Waiting? && v.popped == v.committed == v.reported == 0
  }

  lemma TookMore(v: Worker, v': Worker, num: nat)
    requires Took(v, num) && v.accepted <= v'.accepted
    ensures Took(v', num)
  {
    var j :| 0 <= j < |v.accepted| && v.accepted[j].num == num;
    assert v'.accepted[j] == v.accepted[j];
  }

  lemma QueueBoth(early: bool) returns (run: seq<Action>, s: State)
    ensures Run(Init(7), run) == Some(s) && BothQueued(s) && Fits(Example(), Init(7), run, early)
  {
    hide Good, Run, Took, Fits, Waits, Shares;
    var c, s0 := Example(), Init(7);
    assert forall i | 0 <= i < 7 :: s0.ws[i] == IDLE;
    InitGood(7);
    var s1, s2, rest := s0, s0, [];
    run, s1 := QueueBlock(c, s0, 1, early);
    s2 := s1;
    if early {
      rest, s2 := FlagAll(s1, 7);
      FlagsFit(c, s1, rest);
      FitsAppend(c, s0, run, s1, rest, early);
      run := run + rest;
    }
    forall i | 0 <= i < 7 ensures Took(s2.ws[i], 1) {
      TookMore(s1.ws[i], s2.ws[i], 1);
    }
    rest, s := QueueBlock(c, s2, 2, early);
    FitsAppend(c, s0, run, s2, rest, early);
    run := run + rest;
    forall i | 0 <= i < 7 ensures Took(s.ws[i], 1) && Untouched(s.ws[i]) {
      TookMore(s2.ws[i], s.ws[i], 1);
    }
    assert s.batches[0] == s1.batches[0];
  }

  lemma FlagsFit(c: Setup, s: State, run: seq<Action>)
    requires LivePush.HasWriters(c.ws) && forall i | 0 <= i < |run| :: !run[i].Start?
    ensures Fits(c, s, run, true)
  {
    hide Waits;
    NoStartWaits(s, run);
  }

  predicate OneThenTwo(chunks: seq<Chunk>) {
    |chunks| == 2 && chunks[0].num == 1 && chunks[1].num == 2
  }

  lemma BothAccepted(s: State, i: nat)
    requires BothQueued(s) && i < 7
    ensures OneThenTwo(s.ws[i].accepted)
  {
    hide StoredOnce, FiringOrder, CountsMatch, WasOffered;
    var cs := s.ws[i].accepted;
    assert WriterOk(s, i);
    forall j | 0 <= j < |cs| ensures cs[j].num == 1 || cs[j].num == 2 {
      var b := PartOf(s, i, cs[j].num);
    }
    assert Took(s.ws[i], 1) && Took(s.ws[i], 2);
    var a :| 0 <= a < |cs| && cs[a].num == 1;
    var b :| 0 <= b < |cs| && cs[b].num == 2;
    OnlyTwo(cs, a, b);
  }

  lemma OnlyTwo(cs: seq<Chunk>, a: nat, b: nat)
    requires Rising(cs) && forall j | 0 <= j < |cs| :: cs[j].num == 1 || cs[j].num == 2
    requires a < |cs| && b < |cs| && cs[a].num == 1 && cs[b].num == 2
    ensures OneThenTwo(cs)
  {
    Climbs(cs, |cs| - 1);
  }

  lemma {:induction false} Climbs(cs: seq<Chunk>, j: nat)
    requires Rising(cs) && j < |cs|
    ensures cs[j].num >= cs[0].num + j
  {
    if j > 0 { Climbs(cs, j - 1); }
  }

  /** Everybody but the last writer has worked off both blocks; the last one has touched nothing. */
  ghost predicate SixAhead(s: State) {
    && Good(s) && |s.ws| == 7 && s.fired == [] && Open(s.ws[6]) && Untouched(s.ws[6])
    && (forall i | 0 <= i < 7 :: OneThenTwo(s.ws[i].accepted))
    && (forall i | 0 <= i < 6 :: Idle(s.ws[i]))
  }

  lemma GetAhead(s: State) returns (run: seq<Action>, t: State)
    requires BothQueued(s)
    ensures Run(s, run) == Some(t) && Steady(run) && SixAhead(t)
  {
    hide Good, Run, Took, Idle;
    run, t := SettleAll(s, 6);
    forall i | 0 <= i < 7 ensures OneThenTwo(t.ws[i].accepted) {
      BothAccepted(s, i);
    }
    NoReportNoFiring(t, 6);
  }

  lemma NoReportNoFiring(s: State, w: nat)
    requires Good(s) && w < |s.ws| && s.ws[w].reported == 0
    ensures s.fired == []
  {
    hide Good;
    if s.fired != [] { FiredHas(s, w, s.fired[0]); }
  }

  /** The last writer is about to fire block 1. */
  ghost predicate AboutToFire(s: State) {
    && Good(s) && |s.ws| == 7 && s.fired == [] && s.ws[6].pc.Firing?
    && (forall i | 0 <= i < 7 :: OneThenTwo(s.ws[i].accepted))
    && (forall i | 0 <= i < 6 :: s.ws[i].committed == 2) && s.ws[6].committed == s.ws[6].popped == 1
  }

  lemma IdleHas(s: State, i: nat)
    requires Good(s) && i < |s.ws| && Idle(s.ws[i]) && OneThenTwo(s.ws[i].accepted)
    ensures s.ws[i].committed == 2 && Has(s.ws[i], 1)
  {
    hide Good;
    GoodOrderly(s);
    assert Orderly(s.ws[i]);
    assert s.ws[i].accepted[0].num == 1;
  }

  /** Two steps of the last writer: it takes block 1 and stores its text. */
  lemma LastCommits(s: State) returns (run: seq<Action>, t: State)
    requires SixAhead(s)
    ensures Run(s, run) == Some(t) && Steady(run) && Good(t) && t.fired == []
    ensures |t.ws| == 7 && s.ws[6].queue != [] && forall i | 0 <= i < 6 :: t.ws[i] == s.ws[i]
    ensures t.ws[6] == s.ws[6].(queue := s.ws[6].queue[1..], pc := Processed, popped := 1, committed := 1)
  {
    hide Good, Run;
    GoodOrderly(s);
    assert Orderly(s.ws[6]);
    var u := Step(s, Work(6, Pop)).value;
    StepKeepsGood(s, Work(6, Pop));
    OneStep(s, Work(6, Pop));
    t := Step(u, Work(6, Commit)).value;
    StepKeepsGood(u, Work(6, Commit));
    OneStep(u, Work(6, Commit));
    Appended(s, [Work(6, Pop)], u, [Work(6, Commit)]);
    run := [Work(6, Pop)] + [Work(6, Commit)];
  }

  /** Its report completes block 1. */
  lemma LastReports(s: State) returns (run: seq<Action>, t: State)
    requires Good(s) && |s.ws| == 7 && s.fired == [] && forall i | 0 <= i < 7 :: OneThenTwo(s.ws[i].accepted)
    requires forall i | 0 <= i < 6 :: Idle(s.ws[i])
    requires s.ws[6].pc.Processed? && s.ws[6].popped == s.ws[6].committed == 1 && s.ws[6].reported == 0
    ensures Run(s, run) == Some(t) && Steady(run) && AboutToFire(t)
  {
    hide Good, Run, Rendezvous.Arrive, Idle, Has;
    var u := ReportStep(s, 6);
    StepKeepsGood(s, ReportTo(6));
    OneStep(s, ReportTo(6));
    ReportOutcome(s, 6) by { GoodRendezvous(s); }
    forall i | 0 <= i < 7 ensures Has(u.ws[i], 1) && (i < 6 ==> u.ws[i].committed == 2) {
      if i < 6 { IdleHas(s, i); } else { FirstHas(u.ws[6]); }
    }
    EveryoneHas(u.ws, 1);
    assert u.ws[6].pc.Triggered?;
    t := Step(u, Work(6, Erase)).value;
    StepKeepsGood(u, Work(6, Erase));
    OneStep(u, Work(6, Erase));
    Appended(s, [ReportTo(6)], u, [Work(6, Erase)]);
    run := [ReportTo(6)] + [Work(6, Erase)];
  }

  lemma FirstHas(v: Worker)
    requires v.reported == 1 && OneThenTwo(v.accepted)
    ensures Has(v, 1)
  {
    assert v.accepted[0].num == 1;
  }

  lemma ToTheFiring(early: bool) returns (run: seq<Action>, s: State)
    ensures Run(Init(7), run) == Some(s) && AboutToFire(s) && Fits(Example(), Init(7), run, early)
  {
    hide Good, Run, Fits, Steady, BothQueued, OneThenTwo;
    var c, rest, t, u := Example(), [], Init(7), Init(7);
    run, s := QueueBoth(early);
    rest, t := GetAhead(s);
    SteadyFits(c, s, rest, early);
    FitsAppend(c, Init(7), run, s, rest, early);
    run := run + rest;
    rest, u := LastCommits(t);
    SteadyFits(c, t, rest, early);
    FitsAppend(c, Init(7), run, t, rest, early);
    run := run + rest;
    rest, s := LastReports(u);
    SteadyFits(c, u, rest, early);
    FitsAppend(c, Init(7), run, u, rest, early);
    run := run + rest;
  }

  // ---- What the command holds ----

  lemma WholeSlice(rows: seq<Row>)
    ensures Slice(rows, 1, 0) == rows
  {
    CutEnds(|rows|, 1);
  }

  lemma AssignedOne(data: Tables, ws: LivePush.Widths, t: Table)
    requires ws == LivePush.Widths(1, 1, 1)
    ensures LivePush.Assigned(data, ws, (t, 0)) == Get(data, t)
  {
    hide Slice;
    WholeSlice(Get(data, t));
  }

  lemma LatestOne(c: Setup, chunks: seq<Chunk>, t: Table)
    requires c == Example() && |chunks| == 1 && chunks[0].num == 1
    ensures Latest(c, chunks, (t, 0)) == Render(Get(FIRST, t))
  {
    hide LivePush.Assigned, Get;
    AssignedOne(FIRST, c.ws, t);
    RenderEmptyIff(Get(FIRST, t));
    assert chunks[..0] == [];
  }

  lemma LatestTwo(c: Setup, chunks: seq<Chunk>, t: Table)
    requires c == Example() && OneThenTwo(chunks)
    ensures Latest(c, chunks, (t, 0)) == if Get(SECOND, t) != [] then Render(Get(SECOND, t)) else Render(Get(FIRST, t))
  {
    hide LivePush.Assigned, Get, Render;
    AssignedOne(SECOND, c.ws, t);
    LatestOne(c, chunks[..1], t);
  }

  lemma OneText(slots: LivePush.Slots, ws: LivePush.Widths, t: Table)
    requires ws == LivePush.Widths(1, 1, 1)
    ensures LivePush.TableText(slots, ws, t) == LivePush.TextAt(slots, (t, 0))
  {
    var text := LivePush.TextAt(slots, (t, 0));
    assert LivePush.Texts(slots, t, 0) == [];
    assert LivePush.Texts(slots, t, 1) == [] + [text];
    assert [text][..0] == [];
    assert Merged([]) == [];
    assert Merged([text]) == text;
  }

  /** What each table contributes: block 2 where it has rows, block 1 for the last writer. */
  function Mixed(t: Table): string {
    if t == AccountOperations || Get(SECOND, t) == [] then Render(Get(FIRST, t)) else Render(Get(SECOND, t))
  }

  /** The block row of block 2 with the account operation of block 1. */
  const MIXED_COMMAND :=
    LivePush.Command(false, Render(SECOND.blocks), [], [], [], [], Render(FIRST.accountOperations), [])

  lemma TextsThere(c: Setup, l: Live, t: Table)
    requires c == Example() && AboutToFire(l.s) && NoneFired(c, l)
    ensures LivePush.TableText(l.slots, c.ws, t) == Mixed(t)
  {
    hide Good, Latest, Render, Get, LivePush.TextAt, LivePush.TableText;
    var i := Index(c.ws, (t, 0));
    WriterIndex(c.ws, (t, 0));
    OneText(l.slots, c.ws, t);
    assert HasLatest(c, l, i);
    var v := l.s.ws[i];
    if i == 6 {
      LatestOne(c, Committed(v), t);
    } else {
      assert Committed(v) == v.accepted;
      LatestTwo(c, Committed(v), t);
    }
  }

  lemma StartFresh(c: Setup)
    requires LivePush.HasWriters(c.ws)
    ensures NoneFired(c, LiveInit(c))
  {
  }

  /**
   * A run in which block 2 is begun before block 1 is done. The command published for block 1 has
   * the block row of block 2 and the account operation of block 1. Without `early` nobody is
   * cancelled; with it every writer is, which is why the dumper's wait has let the producer go on.
   */
  lemma MixedBlocks(early: bool) returns (run: seq<Action>, l: Live)
    ensures LiveRun(Example(), LiveInit(Example()), run) == Some(l)
    ensures if early then Waits(Init(7), run) else forall i | 0 <= i < |run| :: !Cancels(run[i])
    ensures l.s.fired == [1]
    ensures l.commands == [MIXED_COMMAND]
  {
    hide Good, Run, LiveRun, Waits, AboutToFire, NoneFired, Render, LivePush.Command, Shares;
    var c := Example();
    var s;
    run, s := ToTheFiring(early);
    Lifted(c, LiveInit(c), run);
    var m := LiveRun(c, LiveInit(c), run).value;
    InitGood(7);
    StartFresh(c);
    NoneFiredRun(c, LiveInit(c), run);
    l := FireMixed(c, m);
    OneLive(c, m, Work(6, Event.Fire));
    LiveJoin(c, LiveInit(c), run, m, [Work(6, Event.Fire)]);
    SteadyFits(c, s, [Work(6, Event.Fire)], early);
    FitsAppend(c, Init(7), run, s, [Work(6, Event.Fire)], early);
    run := run + [Work(6, Event.Fire)];
  }

  lemma FireMixed(c: Setup, m: Live) returns (l: Live)
    requires c == Example() && AboutToFire(m.s) && NoneFired(c, m)
    ensures LiveStep(c, m, Work(6, Event.Fire)) == Some(l) && l.s.fired == [1]
    ensures l.commands == [MIXED_COMMAND]
  {
    hide Good, HasLatest, LivePush.TableText, LivePush.Command, Shares, Render;
    NoRows();
    RenderEmptyIff(SECOND.blocks);
    TextsThere(c, m, Blocks);
    TextsThere(c, m, Transactions);
    TextsThere(c, m, Multisig);
    TextsThere(c, m, Operations);
    TextsThere(c, m, Accounts);
    TextsThere(c, m, AccountOperations);
    TextsThere(c, m, Hardforks);
    l := LiveStep(c, m, Work(6, Event.Fire)).value;
  }
}
