/** Exactly when a live block may be begun, while no writer is closed or failed. */
module LiveWait {
  import opened Common
  import opened DataProcessor
  import opened Pipeline
  import opened PipelineRace
  import opened LiveDump
  import opened LiveRace
  import opened LiveTexts
  import opened LiveAlone
  import opened Rendering
  import LivePush

  // ---- Before the publication: one writer runs ahead ----

  /** What writer i has not reported, writer j has not reported either. */
  ghost predicate Behind(s: State, i: nat, j: nat)
    requires i < |s.ws| && j < |s.ws|
  {
    forall k | s.ws[i].reported <= k < |s.ws[i].accepted| :: !Has(s.ws[j], s.ws[i].accepted[k].num)
  }

  /** Writer i is at work, does not fire, and cannot complete a block before writer j has reported it. */
  ghost predicate CanRun(c: Setup, m: Live, i: nat, j: nat) {
    && Good(m.s) && |m.s.ws| == Threads(c.ws) && i < |m.s.ws| && j < |m.s.ws| && i != j
    && Open(m.s.ws[i]) && !Active(m.s.ws[i]) && Behind(m.s, i, j)
  }

  /** The slot of writer i holds what it stored last, if that was not empty. */
  ghost predicate StoredLast(c: Setup, m: Live, i: nat)
    requires LivePush.HasWriters(c.ws) && i < |m.s.ws|
  {
    var v := m.s.ws[i];
    && 0 < v.committed <= |v.accepted|
    && var num := v.accepted[v.committed - 1].num;
       LivePush.Assigned(c.rows(num), c.ws, WriterAt(c.ws, i)) != [] ==> SlotOf(c, m, i) == TextOf(c, num, i)
  }

  /** Only writer i moved, on its own: the slots of the others are as they were. */
  ghost predicate OnlyOne(c: Setup, m: Live, m': Live, i: nat) {
    && Moved(m.s, m'.s, i) && m'.s.fired == m.s.fired
    && m.s.ws[i].committed <= m'.s.ws[i].committed
    && forall k | 0 <= k < |m.s.ws| && k != i :: SlotOf(c, m', k) == SlotOf(c, m, k)
  }

  lemma ReportIsCounted(s: State, i: nat, j: nat)
    requires Good(s) && i < |s.ws| && j < |s.ws| && i != j && Behind(s, i, j)
    requires s.ws[i].pc.Processed? && HasCurrent(s.ws[i])
    ensures ReportStep(s, i).ws[i].pc.Reported? && ReportStep(s, i).ws[i].reported == s.ws[i].reported + 1
    ensures ReportStep(s, i).ws[i].accepted == s.ws[i].accepted && !ReportStep(s, i).ws[i].threw
  {
    hide Good, Rendezvous.Arrive, Has;
    GoodOrderly(s);
    var u := ReportStep(s, i);
    ReportOutcome(s, i) by { GoodRendezvous(s); }
    assert Orderly(s.ws[i]);
    ReportsNext(s.ws[i], Report(Counted));
    assert u.ws[j] == s.ws[j] && !Has(u.ws[j], Last(u.ws[i])) by { LastReported(s.ws[i], u.ws[i]); }
    assert !Complete(u.ws, Last(u.ws[i]));
  }

  lemma LastReported(v: Worker, v': Worker)
    requires v.reported < |v.accepted| && v'.accepted == v.accepted && v'.reported == v.reported + 1
    ensures Last(v') == v.accepted[v.reported].num
  {
  }

  /** One move of writer i: what it stored is in its slot, and no other slot has changed. */
  ghost predicate MoveOk(c: Setup, m: Live, m': Live, i: nat, j: nat)
    requires LivePush.HasWriters(c.ws)
  {
    && CanRun(c, m', i, j) && OnlyOne(c, m, m', i)
    && (m'.s.ws[i].committed > m.s.ws[i].committed ==> StoredLast(c, m', i))
    && (m'.s.ws[i].committed == m.s.ws[i].committed ==> m'.slots == m.slots)
  }

  lemma StillBehind(s: State, t: State, i: nat, j: nat)
    requires i < |s.ws| == |t.ws| && j < |s.ws| && Behind(s, i, j) && t.ws[j] == s.ws[j]
    requires t.ws[i].accepted == s.ws[i].accepted && s.ws[i].reported <= t.ws[i].reported
    ensures Behind(t, i, j)
  {
    hide Has;
  }

  lemma ReportOnce(c: Setup, m: Live, i: nat, j: nat)
    requires LivePush.HasWriters(c.ws) && CanRun(c, m, i, j) && m.s.ws[i].pc.Processed?
    ensures var m' := LiveStep(c, m, ReportTo(i)); m'.Some? && MoveOk(c, m, m'.value, i, j)
  {
    hide Good, Behind, Rendezvous.Arrive, Next, LivePush.TextAt;
    var s := m.s;
    ReportMoves(s, i);
    ReportIsCounted(s, i, j);
    StepKeepsGood(s, ReportTo(i));
    StillBehind(s, ReportStep(s, i), i, j);
    SameCommitted(s, i);
  }

  lemma SameCommitted(s: State, i: nat)
    requires i < |s.ws| && s.ws[i].pc.Processed? && HasCurrent(s.ws[i])
    ensures ReportStep(s, i).ws[i].committed == s.ws[i].committed
  {
    hide Rendezvous.Arrive;
  }

  /** A move of writer i that is no report. */
  ghost predicate AloneOk(c: Setup, m: Live, m': Live, i: nat)
    requires LivePush.HasWriters(c.ws)
  {
    && Good(m'.s) && OnlyOne(c, m, m', i) && m'.s.ws[i].reported == m.s.ws[i].reported && !Active(m'.s.ws[i])
    && Remaining(m'.s.ws[i]) < Remaining(m.s.ws[i])
    && (m'.s.ws[i].committed > m.s.ws[i].committed ==> StoredLast(c, m', i))
    && (m'.s.ws[i].committed == m.s.ws[i].committed ==> m'.slots == m.slots)
  }

  lemma CommitAlone(c: Setup, m: Live, i: nat)
    requires LivePush.HasWriters(c.ws) && Good(m.s) && i < |m.s.ws| == Threads(c.ws)
    requires Open(m.s.ws[i]) && m.s.ws[i].pc.Popped?
    ensures var m' := LiveStep(c, m, Work(i, Commit)); m'.Some? && AloneOk(c, m, m'.value, i)
  {
    hide Good, LivePush.Assigned, Render, WriterAt, LivePush.Fire;
    var s := m.s;
    WorkMoves(s, i);
    StepKeepsGood(s, Work(i, Commit));
    GoodOrderly(s);
    assert Orderly(s.ws[i]);
    forall k | 0 <= k < |s.ws| && k != i ensures WriterAt(c.ws, k) != WriterAt(c.ws, i) {
      Different(c.ws, k, i);
    }
  }

  lemma OtherAlone(c: Setup, m: Live, i: nat)
    requires LivePush.HasWriters(c.ws) && Good(m.s) && i < |m.s.ws| == Threads(c.ws) && !Idle(m.s.ws[i])
    requires Open(m.s.ws[i]) && (m.s.ws[i].pc.Waiting? || m.s.ws[i].pc.Reported?)
    ensures var m' := LiveStep(c, m, NextMove(m.s.ws[i], i)); m'.Some? && AloneOk(c, m, m'.value, i)
  {
    hide Good, LivePush.Process, LivePush.Fire, LivePush.TextAt;
    WorkMoves(m.s, i);
    StepKeepsGood(m.s, NextMove(m.s.ws[i], i));
  }

  lemma AtWork(s: State, i: nat)
    requires Good(s) && i < |s.ws| && Open(s.ws[i]) && !Active(s.ws[i])
    ensures var pc := s.ws[i].pc; pc.Waiting? || pc.Popped? || pc.Processed? || pc.Reported?
  {
    hide Good;
    GoodOrderly(s);
    assert Orderly(s.ws[i]);
  }

  lemma MoveOnce(c: Setup, m: Live, i: nat, j: nat)
    requires LivePush.HasWriters(c.ws) && CanRun(c, m, i, j) && !Idle(m.s.ws[i])
    ensures var a := NextMove(m.s.ws[i], i); var m' := LiveStep(c, m, a);
            && m'.Some? && !a.Start? && MoveOk(c, m, m'.value, i, j)
            && Remaining(m'.value.s.ws[i]) < Remaining(m.s.ws[i])
  {
    hide Good, Behind, LiveStep, Next, Enabled, StoredLast, SlotOf;
    var s, a := m.s, NextMove(m.s.ws[i], i);
    AtWork(s, i);
    if s.ws[i].pc.Processed? {
      ReportMoves(s, i);
      ReportOnce(c, m, i, j);
      LiveStepProjects(c, m, a);
    } else {
      if s.ws[i].pc.Popped? { CommitAlone(c, m, i); } else { OtherAlone(c, m, i); }
      StillBehind(s, LiveStep(c, m, a).value.s, i, j);
    }
  }

  lemma OnlyOneTransitive(c: Setup, l: Live, m: Live, n: Live, i: nat)
    requires OnlyOne(c, l, m, i) && OnlyOne(c, m, n, i)
    ensures OnlyOne(c, l, n, i)
  {
    hide SlotOf;
  }

  lemma {:induction false} RunAhead(c: Setup, m: Live, i: nat, j: nat) returns (run: seq<Action>, m': Live)
    requires LivePush.HasWriters(c.ws) && CanRun(c, m, i, j)
    ensures LiveRun(c, m, run) == Some(m') && NoStart(run) && CanRun(c, m', i, j) && OnlyOne(c, m, m', i)
    ensures Idle(m'.s.ws[i])
    ensures m'.s.ws[i].committed > m.s.ws[i].committed ==> StoredLast(c, m', i)
    ensures m'.s.ws[i].committed == m.s.ws[i].committed ==> m'.slots == m.slots
    decreases Remaining(m.s.ws[i])
  {
    hide Good, Behind, LiveStep, StoredLast, NextMove, Remaining, SlotOf;
    if Idle(m.s.ws[i]) {
      run, m' := [], m;
      assert OnlyOne(c, m, m, i) by { CanRunOne(c, m, i, j); }
    } else {
      MoveOnce(c, m, i, j);
      var a := NextMove(m.s.ws[i], i);
      var n := LiveStep(c, m, a).value;
      var rest;
      rest, m' := RunAhead(c, n, i, j);
      run := [a] + rest;
      assert run[1..] == rest;
      OnlyOneTransitive(c, m, n, m', i);
      if m'.s.ws[i].committed == n.s.ws[i].committed > m.s.ws[i].committed {
        SameStored(c, n, m', i);
      }
    }
  }

  lemma CanRunOne(c: Setup, m: Live, i: nat, j: nat)
    requires CanRun(c, m, i, j)
    ensures OnlyOne(c, m, m, i)
  {
    hide Good, Behind;
  }

  lemma SameStored(c: Setup, m: Live, m': Live, i: nat)
    requires LivePush.HasWriters(c.ws) && i < |m.s.ws| == |m'.s.ws| && StoredLast(c, m, i) && m'.slots == m.slots
    requires m'.s.ws[i].accepted == m.s.ws[i].accepted && m'.s.ws[i].committed == m.s.ws[i].committed
    ensures StoredLast(c, m', i)
  {
  }

  // ---- All but one run ahead ----

  /** Everybody but writer j may run ahead of it, through the block accepted last. */
  ghost predicate AllCanRun(c: Setup, m: Live, j: nat) {
    && |m.s.ws| == Threads(c.ws) && j < |m.s.ws| && Good(m.s)
    && forall i | 0 <= i < |m.s.ws| && i != j :: CanRun(c, m, i, j) && m.s.ws[i].committed < |m.s.ws[i].accepted|
  }

  /** Those below k have; nobody else has moved. */
  ghost predicate AheadUpTo(c: Setup, m: Live, m': Live, j: nat, k: nat)
    requires LivePush.HasWriters(c.ws)
  {
    && Good(m'.s) && |m'.s.ws| == |m.s.ws| && j < |m.s.ws| && k <= |m.s.ws| && m'.s.fired == m.s.fired
    && (forall i | 0 <= i < |m.s.ws| :: m'.s.ws[i].accepted == m.s.ws[i].accepted)
    && (forall i | 0 <= i < |m.s.ws| && (i == j || i >= k) :: m'.s.ws[i] == m.s.ws[i])
    && (forall i | 0 <= i < k && i != j :: Idle(m'.s.ws[i]) && StoredLast(c, m', i))
    && SlotOf(c, m', j) == SlotOf(c, m, j)
  }

  lemma StillCanRun(c: Setup, m: Live, m': Live, i: nat, j: nat)
    requires CanRun(c, m, i, j) && Good(m'.s) && |m'.s.ws| == |m.s.ws|
    requires m'.s.ws[i] == m.s.ws[i] && m'.s.ws[j] == m.s.ws[j]
    ensures CanRun(c, m', i, j)
  {
    hide Good, Has;
  }

  lemma StillStored(c: Setup, m: Live, m': Live, i: nat)
    requires LivePush.HasWriters(c.ws) && i < |m.s.ws| == |m'.s.ws| && StoredLast(c, m, i)
    requires m'.s.ws[i] == m.s.ws[i] && SlotOf(c, m', i) == SlotOf(c, m, i)
    ensures StoredLast(c, m', i)
  {
    hide SlotOf;
  }

  lemma IdleCommitted(s: State, i: nat)
    requires Good(s) && i < |s.ws| && Idle(s.ws[i])
    ensures s.ws[i].committed == s.ws[i].reported == |s.ws[i].accepted|
  {
    hide Good;
    GoodOrderly(s);
    assert Orderly(s.ws[i]);
  }

  lemma {:induction false} RunOthers(c: Setup, m: Live, j: nat, k: nat) returns (run: seq<Action>, m': Live)
    requires LivePush.HasWriters(c.ws) && AllCanRun(c, m, j) && k <= |m.s.ws|
    ensures LiveRun(c, m, run) == Some(m') && NoStart(run) && AheadUpTo(c, m, m', j, k)
  {
    hide Good, CanRun, StoredLast, Idle, SlotOf, LiveStep;
    if k == 0 {
      run, m' := [], m;
    } else {
      var i, n, rest := k - 1, m, [];
      run, n := RunOthers(c, m, j, i);
      if i == j {
        m' := n;
      } else {
        StillCanRun(c, m, n, i, j);
        rest, m' := RunAhead(c, n, i, j);
        CanRunGood(c, m', i, j);
        IdleCommitted(m'.s, i);
        forall p | 0 <= p < i && p != j ensures StoredLast(c, m', p) {
          StillStored(c, n, m', p);
        }
        LiveJoin(c, m, run, n, rest);
        run := run + rest;
      }
    }
  }

  lemma CanRunGood(c: Setup, m: Live, i: nat, j: nat)
    requires CanRun(c, m, i, j)
    ensures Good(m.s) && i < |m.s.ws|
  {
    hide Good;
  }

  // ---- The last one completes its block ----

  /** Writer j goes on until it is about to report. */
  lemma {:induction false} Approach(c: Setup, m: Live, j: nat) returns (run: seq<Action>, m': Live)
    requires LivePush.HasWriters(c.ws) && Good(m.s) && j < |m.s.ws| == Threads(c.ws)
    requires Open(m.s.ws[j]) && !Active(m.s.ws[j]) && m.s.ws[j].reported < |m.s.ws[j].accepted|
    ensures LiveRun(c, m, run) == Some(m') && NoStart(run) && Good(m'.s) && OnlyOne(c, m, m', j)
    ensures m'.s.ws[j].pc.Processed? && m'.s.ws[j].reported == m.s.ws[j].reported && !m'.s.ws[j].threw
    ensures m'.s.ws[j].committed > m.s.ws[j].committed ==> StoredLast(c, m', j)
    ensures m'.s.ws[j].committed == m.s.ws[j].committed ==> m'.slots == m.slots
    decreases Remaining(m.s.ws[j])
  {
    hide Good, StoredLast, SlotOf, LiveStep;
    AtWork(m.s, j);
    if m.s.ws[j].pc.Processed? {
      run, m' := [], m;
    } else {
      var a := NextMove(m.s.ws[j], j);
      NotIdle(m.s, j);
      if m.s.ws[j].pc.Popped? { CommitAlone(c, m, j); } else { OtherAlone(c, m, j); }
      var n := LiveStep(c, m, a).value;
      var rest;
      rest, m' := Approach(c, n, j);
      OneLive(c, m, a);
      LiveJoin(c, m, [a], n, rest);
      run := [a] + rest;
      OnlyOneTransitive(c, m, n, m', j);
      if m'.s.ws[j].committed == n.s.ws[j].committed > m.s.ws[j].committed {
        SameStored(c, n, m', j);
      }
    }
  }

  lemma NotIdle(s: State, j: nat)
    requires Good(s) && j < |s.ws| && s.ws[j].reported < |s.ws[j].accepted|
    ensures !Idle(s.ws[j])
  {
    hide Good;
    if Idle(s.ws[j]) { IdleCommitted(s, j); }
  }

  /** Its report completes the block that everybody else has reported. */
  lemma Completes(c: Setup, m: Live, j: nat) returns (run: seq<Action>, m': Live)
    requires LivePush.HasWriters(c.ws) && Good(m.s) && j < |m.s.ws| && m.s.ws[j].pc.Processed? && Open(m.s.ws[j])
    requires m.s.ws[j].reported < |m.s.ws[j].accepted|
    requires forall i | 0 <= i < |m.s.ws| && i != j :: Has(m.s.ws[i], m.s.ws[j].accepted[m.s.ws[j].reported].num)
    ensures LiveRun(c, m, run) == Some(m') && NoStart(run) && m'.slots == m.slots && |m'.s.ws| == |m.s.ws|
    ensures m'.s.ws[j].pc.Firing? && Last(m'.s.ws[j]) == m.s.ws[j].accepted[m.s.ws[j].reported].num
    ensures Moved(m.s, m'.s, j)
  {
    hide Good, Rendezvous.Arrive, Has, LivePush.Process, LivePush.Fire;
    var s, num := m.s, m.s.ws[j].accepted[m.s.ws[j].reported].num;
    GoodOrderly(s);
    assert Orderly(s.ws[j]);
    ReportsNext(s.ws[j], Report(Counted));
    ReportOutcome(s, j) by { GoodRendezvous(s); }
    var u := ReportStep(s, j);
    LastReported(s.ws[j], u.ws[j]);
    assert Has(u.ws[j], num) by { ReportAdds(s.ws[j], u.ws[j], num); }
    EveryoneHas(u.ws, num);
    var n := LiveStep(c, m, ReportTo(j)).value;
    OneLive(c, m, ReportTo(j));
    StepKeepsGood(s, ReportTo(j));
    EraseMoves(c, n, j);
    m' := LiveStep(c, n, Work(j, Erase)).value;
    OneLive(c, n, Work(j, Erase));
    LiveJoin(c, m, [ReportTo(j)], n, [Work(j, Erase)]);
    run := [ReportTo(j)] + [Work(j, Erase)];
  }

  lemma EraseMoves(c: Setup, m: Live, j: nat)
    requires LivePush.HasWriters(c.ws) && Good(m.s) && j < |m.s.ws| && m.s.ws[j].pc.Triggered? && Open(m.s.ws[j])
    ensures var m' := LiveStep(c, m, Work(j, Erase));
            && m'.Some? && m'.value.slots == m.slots && |m'.value.s.ws| == |m.s.ws|
            && m'.value.s.ws[j].pc.Firing? && Last(m'.value.s.ws[j]) == Last(m.s.ws[j])
            && Moved(m.s, m'.value.s, j)
  {
    hide Good;
    GoodOrderly(m.s);
    assert Orderly(m.s.ws[j]);
    ActiveIsLast(m.s.ws[j], Erase);
  }

  // ---- The run that mixes ----

  lemma RoomForOne(v: Worker, num: nat)
    requires Orderly(v) && InTurn(v, num) && !Gone(v)
    ensures |v.queue| <= 1
  {
    var cs := v.accepted[v.reported..];
    assert Rising(cs) && forall k | 0 <= k < |cs| :: cs[k].num == num;
    if cs != [] { Climbs(cs, |cs| - 1); }
  }

  /** The block is begun and everybody accepts its part. */
  lemma BlockAccepted(c: Setup, l: Live, num: nat) returns (run: seq<Action>, m: Live)
    requires LivePush.HasWriters(c.ws) && LiveGood(c, l) && AllOpen(l.s.ws) && l.s.next == |l.s.ws|
    requires num > LastNum(l.s) && c.rows(num).blocks != []
    ensures var first := LiveStep(c, l, Start(num, Shares(c, num)));
            first.Some? && LiveRun(c, first.value, run) == Some(m) && NoStart(run)
    ensures Good(m.s) && AllOpen(m.s.ws) && |m.s.ws| == |l.s.ws| == Threads(c.ws) && m.slots == l.slots
    ensures forall i | 0 <= i < |l.s.ws| :: SameWork(l.s.ws[i], m.s.ws[i]) && Extended(l.s.ws[i], m.s.ws[i], num)
  {
    hide Good, Open, InTurn, Taken, TextsOk, LiveRun, Run, Shares, SameWork, Took, LivePush.Process, LivePush.Fire;
    var a := Start(num, Shares(c, num));
    var first := LiveStep(c, l, a).value;
    StepKeepsGood(l.s, a);
    forall i | 0 <= i < |l.s.ws| ensures |l.s.ws[i].queue| <= 1 {
      OpenIsThere(l.s, i);
      RoomForOne(l.s.ws[i], LastNum(l.s));
    }
    var t;
    run, t := OfferRest(first.s);
    Lifted(c, first, run);
    OffersKeepSlots(c, first, run);
    m := LiveRun(c, first, run).value;
  }

  lemma {:induction false} OffersKeepSlots(c: Setup, l: Live, run: seq<Action>)
    requires LivePush.HasWriters(c.ws) && LiveRun(c, l, run).Some? && forall i | 0 <= i < |run| :: run[i].Offer?
    ensures LiveRun(c, l, run).value.slots == l.slots
    decreases |run|
  {
    hide Step, LivePush.Process, LivePush.Fire, Shares;
    if run != [] {
      OffersKeepSlots(c, LiveStep(c, l, run[0]).value, run[1..]);
    }
  }

  /** What a writer has not reported, a late one has not reported either. */
  lemma LateLacks(s: State, i: nat, j: nat, k: nat)
    requires Good(s) && InLine(s) && AllOpen(s.ws) && Late(s, j) && i < |s.ws| && i != j
    requires s.ws[i].reported <= k < |s.ws[i].accepted|
    ensures !Active(s.ws[i]) && !Has(s.ws[j], s.ws[i].accepted[k].num)
  {
    hide Good, Has;
    assert Open(s.ws[i]) && Open(s.ws[j]) && InTurn(s.ws[i], LastNum(s)) && InTurn(s.ws[j], LastNum(s));
    OpenIsThere(s, i);
    OpenIsThere(s, j);
    GoodFiring(s);
    NotReportedAt(s.ws[i], k);
    assert Active(s.ws[j]) ==> Leads(s.ws, s.fired, s.ws[j]);
  }

  lemma OthersIdleOrNot(s: State, i: nat, j: nat)
    requires Good(s) && Late(s, j) && i < |s.ws| && i != j
    ensures !Active(s.ws[i])
  {
    hide Good, Has;
    GoodFiring(s);
  }

  lemma OneCanRun(c: Setup, l: Live, m: Live, i: nat, j: nat, num: nat)
    requires Good(l.s) && InLine(l.s) && AllOpen(l.s.ws) && Late(l.s, j) && num > LastNum(l.s)
    requires Good(m.s) && AllOpen(m.s.ws) && |m.s.ws| == |l.s.ws| == Threads(c.ws) && i < |l.s.ws| && i != j
    requires SameWork(l.s.ws[i], m.s.ws[i]) && Extended(l.s.ws[i], m.s.ws[i], num)
    requires SameWork(l.s.ws[j], m.s.ws[j]) && Extended(l.s.ws[j], m.s.ws[j], num)
    ensures CanRun(c, m, i, j) && m.s.ws[i].committed < |m.s.ws[i].accepted|
  {
    hide Good, Has, InLine, Late;
    assert Open(l.s.ws[i]) && Open(m.s.ws[i]) && Open(l.s.ws[j]) by { LateIn(l.s, j); }
    OpenIsThere(l.s, i);
    OpenIsThere(l.s, j);
    OthersIdleOrNot(l.s, i, j);
    NewNumber(l.s, num);
    var v, v' := l.s.ws[i], m.s.ws[i];
    forall k | v'.reported <= k < |v'.accepted| ensures !Has(m.s.ws[j], v'.accepted[k].num) {
      SameHas(l.s.ws[j], m.s.ws[j], v'.accepted[k].num);
      if k < |v.accepted| {
        assert v'.accepted[k] == v.accepted[k];
        LateLacks(l.s, i, j, k);
      }
    }
  }

  /** Everybody else has run ahead: they have reported both blocks, and a slot with rows holds the new one. */
  lemma AheadMeans(c: Setup, l: Live, m: Live, m': Live, j: nat, num: nat, i: nat)
    requires LivePush.HasWriters(c.ws) && Good(l.s) && |m.s.ws| == |l.s.ws| == Threads(c.ws)
    requires AheadUpTo(c, m, m', j, |m.s.ws|) && i < |m.s.ws| && i != j
    requires Extended(l.s.ws[i], m.s.ws[i], num) && Took(l.s.ws[i], LastNum(l.s))
    ensures Has(m'.s.ws[i], LastNum(l.s)) && Has(m'.s.ws[i], num)
    ensures HasRowsIn(c, num, i) ==> SlotOf(c, m', i) == TextOf(c, num, i)
  {
    hide Good, TextOf, SlotOf, LivePush.Assigned, WriterAt;
    IdleCommitted(m'.s, i);
    assert StoredLast(c, m', i);
    var v' := m'.s.ws[i];
    TookMore(l.s.ws[i], v', LastNum(l.s));
    TookHas(v', LastNum(l.s));
    assert v'.accepted[|v'.accepted| - 1].num == num;
  }

  /** A writer that has finished the current block has stored its text. */
  ghost predicate StoredCurrent(c: Setup, m: Live, j: nat, cur: nat)
    requires LivePush.HasWriters(c.ws) && j < |m.s.ws|
  {
    Finished(m.s.ws[j], cur) && HasRowsIn(c, cur, j) ==> SlotOf(c, m, j) == TextOf(c, cur, j)
  }

  lemma CurrentStored(c: Setup, l: Live, j: nat)
    requires LivePush.HasWriters(c.ws) && LiveGood(c, l) && AllOpen(l.s.ws)
    requires LastNum(l.s) !in l.s.fired && j < |l.s.ws|
    ensures StoredCurrent(c, l, j, LastNum(l.s))
  {
    hide Good, InLine, Finished, LivePush.ProcessAll, LivePush.Assigned, Render;
    SomeGood(c, l);
    OpenIsAlive(l.s);
    var order :| TextsOf(c, l, order);
    LivePush.SlotAfter(c.rows(LastNum(l.s)), c.ws, order, WriterAt(c.ws, j));
  }

  lemma StillStoredCurrent(c: Setup, l: Live, m: Live, j: nat, cur: nat)
    requires LivePush.HasWriters(c.ws) && j < |l.s.ws| == |m.s.ws| && StoredCurrent(c, l, j, cur)
    requires Orderly(l.s.ws[j]) && m.s.ws[j].committed == l.s.ws[j].committed
    requires l.s.ws[j].accepted <= m.s.ws[j].accepted && SlotOf(c, m, j) == SlotOf(c, l, j)
    ensures StoredCurrent(c, m, j, cur)
  {
    hide SlotOf, HasRowsIn, TextOf;
    var v, v' := l.s.ws[j], m.s.ws[j];
    if Finished(v', cur) {
      var k :| 0 <= k < v'.committed && k < |v'.accepted| && v'.accepted[k].num == cur;
      assert v.accepted[k].num == cur;
    }
  }

  /** The late writer goes on to fire the current block, with its own text; nobody else's slot changes. */
  lemma LateFires(c: Setup, l: Live, m: Live, j: nat) returns (run: seq<Action>, m': Live)
    requires LivePush.HasWriters(c.ws) && Good(l.s) && InLine(l.s) && AllOpen(l.s.ws) && Late(l.s, j)
    requires Good(m.s) && |m.s.ws| == |l.s.ws| == Threads(c.ws) && Open(m.s.ws[j])
    requires SameWork(l.s.ws[j], m.s.ws[j]) && l.s.ws[j].accepted <= m.s.ws[j].accepted
    requires Took(l.s.ws[j], LastNum(l.s)) && StoredCurrent(c, m, j, LastNum(l.s))
    requires forall i | 0 <= i < |m.s.ws| && i != j :: Has(m.s.ws[i], LastNum(l.s))
    ensures LiveRun(c, m, run) == Some(m') && NoStart(run) && |m'.s.ws| == |m.s.ws|
    ensures m'.s.ws[j].pc.Firing? && Last(m'.s.ws[j]) == LastNum(l.s)
    ensures m'.s.ws[j].accepted == m.s.ws[j].accepted && Open(m'.s.ws[j])
    ensures forall i | 0 <= i < |m.s.ws| && i != j :: SlotOf(c, m', i) == SlotOf(c, m, i) && m'.s.ws[i] == m.s.ws[i]
    ensures HasRowsIn(c, LastNum(l.s), j) ==> SlotOf(c, m', j) == TextOf(c, LastNum(l.s), j)
  {
    hide Good, Has, LiveStep, LiveRun, SlotOf, Took, TextOf, HasRowsIn, Finished, StoredLast;
    assert Open(l.s.ws[j]) && InTurn(l.s.ws[j], LastNum(l.s));
    OpenIsThere(l.s, j);
    OpenIsThere(m.s, j);
    var v := m.s.ws[j];
    if v.pc.Firing? {
      run, m' := [], m;
      assert LiveRun(c, m, []) == Some(m) by { NothingRun(c, m); }
      SameLast(l.s.ws[j], v);
      LastFinished(v);
    } else if v.pc.Triggered? {
      EraseMoves(c, m, j);
      m' := LiveStep(c, m, Work(j, Erase)).value;
      OneLive(c, m, Work(j, Erase));
      run := [Work(j, Erase)];
      SameLast(l.s.ws[j], v);
      LastFinished(v);
      SameSlots(c, m, m');
    } else {
      var n, rest;
      FirstUnreported(l.s.ws[j], v, LastNum(l.s));
      run, n := Approach(c, m, j);
      StoredByNow(c, m, n, j, LastNum(l.s));
      rest, m' := Completes(c, n, j);
      LiveJoin(c, m, run, n, rest);
      run := run + rest;
      SameSlots(c, n, m');
    }
  }

  lemma LastFinished(v: Worker)
    requires Orderly(v) && Active(v)
    ensures Finished(v, Last(v))
  {
    assert v.accepted[v.reported - 1].num == Last(v);
  }

  /** About to report the current block, the writer has its text in its slot. */
  lemma StoredByNow(c: Setup, m: Live, n: Live, j: nat, cur: nat)
    requires LivePush.HasWriters(c.ws) && Good(n.s) && OnlyOne(c, m, n, j) && StoredCurrent(c, m, j, cur)
    requires n.s.ws[j].pc.Processed? && n.s.ws[j].reported < |n.s.ws[j].accepted|
    requires n.s.ws[j].accepted[n.s.ws[j].reported].num == cur
    requires n.s.ws[j].committed > m.s.ws[j].committed ==> StoredLast(c, n, j)
    requires n.s.ws[j].committed == m.s.ws[j].committed ==> n.slots == m.slots
    ensures HasRowsIn(c, cur, j) ==> SlotOf(c, n, j) == TextOf(c, cur, j)
  {
    hide Good, TextOf, LivePush.TextAt, LivePush.Assigned, WriterAt;
    GoodOrderly(n.s);
    assert Orderly(n.s.ws[j]);
    if n.s.ws[j].committed == m.s.ws[j].committed {
      assert m.s.ws[j].accepted[m.s.ws[j].committed - 1].num == cur;
    }
  }

  lemma NothingRun(c: Setup, m: Live)
    requires LivePush.HasWriters(c.ws)
    ensures LiveRun(c, m, []) == Some(m)
  {
  }

  lemma SameSlots(c: Setup, m: Live, m': Live)
    requires m'.slots == m.slots
    ensures forall i: nat :: SlotOf(c, m', i) == SlotOf(c, m, i)
  {
  }

  lemma SameLast(v: Worker, v': Worker)
    requires Orderly(v) && v'.reported == v.reported && v.accepted <= v'.accepted
    ensures Last(v') == Last(v)
  {
    QuietSame(v, v');
  }

  lemma FirstUnreported(v: Worker, v': Worker, num: nat)
    requires Orderly(v) && InTurn(v, num) && !Gone(v) && Took(v, num) && !Has(v, num)
    requires v'.reported == v.reported && v.accepted <= v'.accepted
    ensures v'.reported < |v'.accepted| && v'.accepted[v'.reported].num == num
  {
  }

  // ---- After the firing, the new block lacks what was cleared ----

  /** After the current block comes the new one. */
  lemma NewIsNext(s: State, j: nat, v: Worker, v': Worker, num: nat)
    requires Good(s) && j < |s.ws| && v == s.ws[j] && Extended(v, v', num) && num > LastNum(s)
    requires Orderly(v') && v'.reported > 0 && Last(v') == LastNum(s)
    ensures v'.reported == |v.accepted| && v'.accepted[v'.reported].num == num
  {
    hide Good;
    GoodDelivery(s);
    GoodOrderly(s);
    assert v'.accepted[v'.reported - 1].num == LastNum(s);
    if v'.reported < |v.accepted| {
      assert v.accepted[v'.reported] == v'.accepted[v'.reported];
      TookIsKnown(s, j, v.accepted[v'.reported].num);
    }
  }

  lemma FireStep(c: Setup, m: Live, j: nat) returns (q: Live)
    requires LivePush.HasWriters(c.ws) && Good(m.s) && j < |m.s.ws| && m.s.ws[j].pc.Firing? && SlotOf(c, m, 0) != []
    ensures LiveStep(c, m, Work(j, Event.Fire)) == Some(q) && Good(q.s) && q.slots == map[] && |q.s.ws| == |m.s.ws|
    ensures q.s.ws[j] == m.s.ws[j].(pc := Reported)
    ensures forall i | 0 <= i < |m.s.ws| && i != j :: q.s.ws[i] == m.s.ws[i]
  {
    hide Good, LivePush.Fire, LivePush.Process, SlotOf;
    CanFire(m.s, j);
    FireClears(c, m);
    StepKeepsGood(m.s, Work(j, Event.Fire));
    q := LiveStep(c, m, Work(j, Event.Fire)).value;
  }

  lemma NothingThere(c: Setup, m: Live)
    requires m.slots == map[]
    ensures forall i: nat :: SlotOf(c, m, i) == []
  {
  }

  lemma RowsMakeText(c: Setup, num: nat, i: nat)
    requires LivePush.HasWriters(c.ws) && HasRowsIn(c, num, i)
    ensures TextOf(c, num, i) != []
  {
    RenderEmptyIff(LivePush.Assigned(c.rows(num), c.ws, WriterAt(c.ws, i)));
  }

  /** The current block is fired and its firing clears the slots; the new one is then fired without writer i's text. */
  lemma FiresWithout(c: Setup, m: Live, i: nat, j: nat, num: nat) returns (run: seq<Action>, m': Live)
    requires LivePush.HasWriters(c.ws) && Good(m.s) && |m.s.ws| == Threads(c.ws)
    requires i < |m.s.ws| && j < |m.s.ws| && i != j
    requires m.s.ws[j].pc.Firing? && Open(m.s.ws[j]) && SlotOf(c, m, 0) != [] && HasRowsIn(c, num, i)
    requires m.s.ws[j].reported < |m.s.ws[j].accepted| && m.s.ws[j].accepted[m.s.ws[j].reported].num == num
    requires forall k | 0 <= k < |m.s.ws| && k != j :: Has(m.s.ws[k], num)
    ensures LiveRun(c, m, run) == Some(m') && NoStart(run) && Foreign(c, m')
  {
    hide Good, Has, LiveStep, LiveRun, SlotOf, TextOf, HasRowsIn, StoredLast;
    var q := FireStep(c, m, j);
    var a, n, rest := Work(j, Event.Fire), q, [];
    OneLive(c, m, a);
    NothingThere(c, q);
    rest, n := Approach(c, q, j);
    LiveJoin(c, m, [a], q, rest);
    run := [a] + rest;
    rest, m' := Completes(c, n, j);
    LiveJoin(c, m, run, n, rest);
    run := run + rest;
    SameSlots(c, n, m');
    RowsMakeText(c, num, i);
    assert ForeignText(c, m', j, i);
  }

  lemma FiresForeign(c: Setup, m: Live, i: nat, j: nat, cur: nat, num: nat)
    requires LivePush.HasWriters(c.ws) && i < |m.s.ws| && j < |m.s.ws|
    requires m.s.ws[j].pc.Firing? && Last(m.s.ws[j]) == cur
    requires SlotOf(c, m, i) == TextOf(c, num, i) != TextOf(c, cur, i)
    ensures Foreign(c, m)
  {
    hide TextOf, SlotOf;
    assert ForeignText(c, m, j, i);
  }

  /** Everybody but the late writer has run ahead, and it is about to fire the current block. */
  ghost predicate AllAhead(c: Setup, m: Live, i: nat, j: nat, cur: nat, num: nat)
    requires LivePush.HasWriters(c.ws)
  {
    && Good(m.s) && |m.s.ws| == Threads(c.ws) && i < |m.s.ws| && j < |m.s.ws| && i != j
    && m.s.ws[j].pc.Firing? && Open(m.s.ws[j]) && Last(m.s.ws[j]) == cur && SlotOf(c, m, 0) != []
    && SlotOf(c, m, i) == TextOf(c, num, i) && HasRowsIn(c, num, i)
    && m.s.ws[j].reported < |m.s.ws[j].accepted| && m.s.ws[j].accepted[m.s.ws[j].reported].num == num
    && forall k | 0 <= k < |m.s.ws| && k != j :: Has(m.s.ws[k], num)
  }

  /** Everybody but the late writer has reported both blocks; the late one is where it was. */
  ghost predicate OthersAhead(c: Setup, l: Live, m: Live, j: nat, num: nat)
    requires LivePush.HasWriters(c.ws)
  {
    && Good(m.s) && |m.s.ws| == |l.s.ws| == Threads(c.ws) && j < |m.s.ws| && Open(m.s.ws[j])
    && SameWork(l.s.ws[j], m.s.ws[j]) && Extended(l.s.ws[j], m.s.ws[j], num) && SlotOf(c, m, j) == SlotOf(c, l, j)
    && (forall k | 0 <= k < |m.s.ws| && k != j :: Has(m.s.ws[k], LastNum(l.s)) && Has(m.s.ws[k], num))
    && (forall k | 0 <= k < |m.s.ws| && k != j :: HasRowsIn(c, num, k) ==> SlotOf(c, m, k) == TextOf(c, num, k))
  }

  lemma GetOthersAhead(c: Setup, l: Live, num: nat, j: nat) returns (run: seq<Action>, m: Live)
    requires LivePush.HasWriters(c.ws) && LiveGood(c, l) && AllOpen(l.s.ws) && l.s.next == |l.s.ws| && l.s.batches != []
    requires num > LastNum(l.s) && c.rows(num).blocks != [] && LastNum(l.s) !in l.s.fired && Late(l.s, j)
    ensures var first := LiveStep(c, l, Start(num, Shares(c, num)));
            first.Some? && LiveRun(c, first.value, run) == Some(m) && NoStart(run)
    ensures OthersAhead(c, l, m, j, num)
  {
    hide Good, InLine, TextsOk, Open, Has, Took, LiveStep, LiveRun, SlotOf, TextOf, SameWork, CanRun, Late, HasRowsIn,
        StoredLast, Idle, Shares, Orderly;
    SomeGood(c, l);
    LateIn(l.s, j);
    var a, rest;
    run, a := BlockAccepted(c, l, num);
    forall k | 0 <= k < |l.s.ws| && k != j
      ensures CanRun(c, a, k, j) && a.s.ws[k].committed < |a.s.ws[k].accepted|
    {
      OneCanRun(c, l, a, k, j, num);
    }
    rest, m := RunOthers(c, a, j, |a.s.ws|);
    LiveJoin(c, LiveStep(c, l, Start(num, Shares(c, num))).value, run, a, rest);
    run := run + rest;
    forall k | 0 <= k < |a.s.ws| && k != j
      ensures Has(m.s.ws[k], LastNum(l.s)) && Has(m.s.ws[k], num)
      ensures HasRowsIn(c, num, k) ==> SlotOf(c, m, k) == TextOf(c, num, k)
    {
      CurrentTaken(c, l, k);
      AheadMeans(c, l, a, m, j, num, k);
    }
    SameSlots(c, l, a);
  }

  lemma GetAllAhead(c: Setup, l: Live, num: nat, i: nat, j: nat) returns (run: seq<Action>, m: Live)
    requires LivePush.HasWriters(c.ws) && LiveGood(c, l) && AllOpen(l.s.ws) && l.s.next == |l.s.ws| && l.s.batches != []
    requires num > LastNum(l.s) && c.rows(num).blocks != [] && LastNum(l.s) !in l.s.fired && Crosses(c, l.s, num, i, j)
    ensures var first := LiveStep(c, l, Start(num, Shares(c, num)));
            first.Some? && LiveRun(c, first.value, run) == Some(m) && NoStart(run)
    ensures AllAhead(c, m, i, j, LastNum(l.s), num)
  {
    hide Good, InLine, TextsOk, Open, Has, Took, LiveStep, LiveRun, SlotOf, TextOf, SameWork, Late, HasRowsIn,
        StoredCurrent, Shares, Orderly;
    SomeGood(c, l);
    GoodOrderly(l.s);
    var cur, n, rest := LastNum(l.s), l, [];
    run, n := GetOthersAhead(c, l, num, j);
    CurrentTaken(c, l, j);
    CurrentStored(c, l, j);
    SameCounts(l.s.ws[j], n.s.ws[j]);
    StillStoredCurrent(c, l, n, j, cur);
    rest, m := LateFires(c, l, n, j);
    LiveJoin(c, LiveStep(c, l, Start(num, Shares(c, num))).value, run, n, rest);
    run := run + rest;
    LiveRunGood(c, l, num, run, m);
    FiringReady(c, l, m, j, num);
    BlockText(c, num);
    CurrentHasBlock(c, l);
    BlockText(c, cur);
  }

  lemma SameCounts(v: Worker, v': Worker)
    requires SameWork(v, v')
    ensures v'.committed == v.committed && v'.reported == v.reported
  {
  }

  lemma CurrentHasBlock(c: Setup, l: Live)
    requires LivePush.HasWriters(c.ws) && LiveGood(c, l) && l.s.batches != []
    ensures c.rows(LastNum(l.s)).blocks != []
  {
    hide Good, InLine, TextsOk;
    assert l.s.batches[|l.s.batches| - 1].num == LastNum(l.s);
  }

  lemma {:induction false} RunIsGood(c: Setup, l: Live, run: seq<Action>)
    requires LivePush.HasWriters(c.ws) && Good(l.s) && LiveRun(c, l, run).Some?
    ensures Good(LiveRun(c, l, run).value.s)
    decreases |run|
  {
    hide Good, LiveStep, Step;
    if run != [] {
      LiveStepProjects(c, l, run[0]);
      StepKeepsGood(l.s, run[0]);
      RunIsGood(c, LiveStep(c, l, run[0]).value, run[1..]);
    }
  }

  lemma LiveRunGood(c: Setup, l: Live, num: nat, run: seq<Action>, m: Live)
    requires LivePush.HasWriters(c.ws) && Good(l.s) && LiveStep(c, l, Start(num, Shares(c, num))).Some?
    requires LiveRun(c, LiveStep(c, l, Start(num, Shares(c, num))).value, run) == Some(m)
    ensures Good(m.s)
  {
    hide Good, LiveStep, LiveRun, Step, Shares;
    var a := Start(num, Shares(c, num));
    LiveStepProjects(c, l, a);
    StepKeepsGood(l.s, a);
    RunIsGood(c, LiveStep(c, l, a).value, run);
  }

  lemma FiringReady(c: Setup, l: Live, m: Live, j: nat, num: nat)
    requires Good(l.s) && Good(m.s) && j < |l.s.ws| == |m.s.ws| && num > LastNum(l.s)
    requires Extended(l.s.ws[j], m.s.ws[j], num) && m.s.ws[j].pc.Firing? && Last(m.s.ws[j]) == LastNum(l.s)
    ensures m.s.ws[j].reported < |m.s.ws[j].accepted| && m.s.ws[j].accepted[m.s.ws[j].reported].num == num
  {
    hide Good;
    GoodOrderly(m.s);
    assert Orderly(m.s.ws[j]);
    NewIsNext(l.s, j, l.s.ws[j], m.s.ws[j], num);
  }

  lemma MixingRun(c: Setup, l: Live, num: nat, i: nat, j: nat) returns (run: seq<Action>)
    requires LivePush.HasWriters(c.ws) && LiveGood(c, l) && AllOpen(l.s.ws) && l.s.next == |l.s.ws| && l.s.batches != []
    requires num > LastNum(l.s) && c.rows(num).blocks != [] && LastNum(l.s) !in l.s.fired && Crosses(c, l.s, num, i, j)
    ensures Mixes(c, l, num, run)
  {
    hide Good, LiveGood, Open, Has, LiveStep, LiveRun, SlotOf, TextOf, HasRowsIn, Foreign, Crosses, Shares;
    var m, rest, p;
    run, m := GetAllAhead(c, l, num, i, j);
    var first := LiveStep(c, l, Start(num, Shares(c, num))).value;
    if TextOf(c, num, i) != TextOf(c, LastNum(l.s), i) {
      FiresForeign(c, m, i, j, LastNum(l.s), num);
    } else {
      rest, p := FiresWithout(c, m, i, j, num);
      LiveJoin(c, first, run, m, rest);
      run := run + rest;
    }
  }

  /**
   * The wait, exactly: in every state that a run with proper waits can reach, with the current block
   * handed over and no writer closed or failed, beginning the next block can lead to a block being
   * fired with a text that is not its own if and only if the current block is not published and some
   * writer other than a late one has rows in the next block.
   */
  lemma BeginMixesIff(c: Setup, before: seq<Action>, l: Live, num: nat)
    requires LivePush.HasWriters(c.ws) && LiveRun(c, LiveInit(c), before) == Some(l) && Serial(LiveInit(c).s, before)
    requires AllOpen(l.s.ws) && l.s.next == |l.s.ws| && l.s.batches != []
    requires num > LastNum(l.s) && c.rows(num).blocks != []
    ensures (exists run :: Mixes(c, l, num, run)) <==> LastNum(l.s) !in l.s.fired && CanCross(c, l.s, num)
  {
    hide LiveRun, Serial, LiveGood, Mixes, Open, Crosses;
    InitLiveGood(c);
    LiveRunKeeps(c, LiveInit(c), before);
    if LastNum(l.s) in l.s.fired {
      forall run ensures !Mixes(c, l, num, run) {
        PublishedNeverMixes(c, l, num, run);
      }
    } else if CanCross(c, l.s, num) {
      var i: nat, j: nat :| Crosses(c, l.s, num, i, j);
      var run := MixingRun(c, l, num, i, j);
    } else {
      forall run ensures !Mixes(c, l, num, run) {
        AloneNeverMixes(c, l, num, run);
      }
    }
  }

  /** If two writers have rows in the next block, it is simply whether the current one is published. */
  lemma TwoWritersMixIff(c: Setup, before: seq<Action>, l: Live, num: nat, i: nat, k: nat)
    requires LivePush.HasWriters(c.ws) && LiveRun(c, LiveInit(c), before) == Some(l) && Serial(LiveInit(c).s, before)
    requires AllOpen(l.s.ws) && l.s.next == |l.s.ws| && l.s.batches != []
    requires num > LastNum(l.s) && c.rows(num).blocks != []
    requires i != k && i < |l.s.ws| && k < |l.s.ws| && HasRowsIn(c, num, i) && HasRowsIn(c, num, k)
    ensures (exists run :: Mixes(c, l, num, run)) <==> LastNum(l.s) !in l.s.fired
  {
    hide LiveRun, Serial, LiveGood, Mixes, Open, HasRowsIn, Late;
    BeginMixesIff(c, before, l, num);
    if LastNum(l.s) !in l.s.fired {
      InitLiveGood(c);
      LiveRunKeeps(c, LiveInit(c), before);
      SomeGood(c, l);
      var j := SomebodyIsLate(l.s);
      assert Crosses(c, l.s, num, if i == j then k else i, j);
    }
  }
}
