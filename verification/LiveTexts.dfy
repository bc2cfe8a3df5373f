/** When the text in a slot is not that of the block about to be fired, and why that takes an unpublished block. */
module LiveTexts {
  import opened DataProcessor
  import opened Pipeline
  import opened PipelineRace
  import opened LiveDump
  import opened Rendering
  import LivePush

  function TextOf(c: Setup, num: nat, i: nat): string
    requires LivePush.HasWriters(c.ws)
  {
    Render(LivePush.Assigned(c.rows(num), c.ws, WriterAt(c.ws, i)))
  }

  function SlotOf(c: Setup, m: Live, i: nat): string {
    LivePush.TextAt(m.slots, WriterAt(c.ws, i))
  }

  /** Writer w is about to fire a block for which writer i's slot holds another text. */
  ghost predicate ForeignText(c: Setup, m: Live, w: nat, i: nat)
    requires LivePush.HasWriters(c.ws) && w < |m.s.ws|
  {
    i < |m.s.ws| && m.s.ws[w].pc.Firing? && SlotOf(c, m, i) != TextOf(c, Last(m.s.ws[w]), i)
  }

  ghost predicate Foreign(c: Setup, m: Live)
    requires LivePush.HasWriters(c.ws)
  {
    exists w, i :: 0 <= w < |m.s.ws| && 0 <= i && ForeignText(c, m, w, i)
  }

  ghost predicate NoStart(run: seq<Action>) {
    forall i | 0 <= i < |run| :: !run[i].Start?
  }

  /** Block num is begun, and then a block is about to be fired with a text that is not its own. */
  ghost predicate Mixes(c: Setup, l: Live, num: nat, run: seq<Action>)
    requires LivePush.HasWriters(c.ws)
  {
    var first := LiveStep(c, l, Start(num, Shares(c, num)));
    first.Some? && NoStart(run) && LiveRun(c, first.value, run).Some? && Foreign(c, LiveRun(c, first.value, run).value)
  }

  predicate HasRowsIn(c: Setup, num: nat, i: nat)
    requires LivePush.HasWriters(c.ws)
  {
    LivePush.Assigned(c.rows(num), c.ws, WriterAt(c.ws, i)) != []
  }

  // ---- Who is late ----

  lemma OpenIsThere(s: State, i: nat)
    requires Good(s) && i < |s.ws| && Open(s.ws[i])
    ensures !Gone(s.ws[i]) && Orderly(s.ws[i])
  {
    hide Good;
    GoodOrderly(s);
    assert Orderly(s.ws[i]);
  }

  /** Somebody is firing the current block, or nobody is and somebody has not reported it. */
  ghost predicate Late(s: State, j: nat) {
    && j < |s.ws|
    && (Active(s.ws[j]) || (!Has(s.ws[j], LastNum(s)) && forall i | 0 <= i < |s.ws| :: !Active(s.ws[i])))
  }

  lemma SomebodyIsLate(s: State) returns (j: nat)
    requires Good(s) && AllOpen(s.ws) && LastNum(s) !in s.fired
    ensures Late(s, j)
  {
    hide Good, Has, Complete;
    if i :| 0 <= i < |s.ws| && Active(s.ws[i]) {
      j := i;
    } else {
      if forall i | 0 <= i < |s.ws| :: Has(s.ws[i], LastNum(s)) {
        EveryoneHas(s.ws, LastNum(s));
        assert forall i | 0 <= i < |s.ws| :: Open(s.ws[i]);
        FiredWhenSettled(s, LastNum(s)) by { GoodFiring(s); }
      }
      j :| 0 <= j < |s.ws| && !Has(s.ws[j], LastNum(s));
    }
  }

  lemma SameHas(v: Worker, v': Worker, num: nat)
    requires Orderly(v) && v'.reported == v.reported && v.accepted <= v'.accepted
    ensures Has(v', num) <==> Has(v, num)
  {
    QuietSame(v, v');
  }

  lemma NotReportedAt(v: Worker, k: nat)
    requires Orderly(v) && v.reported <= k < |v.accepted|
    ensures !Has(v, v.accepted[k].num)
  {
  }

  lemma LateIn(s: State, j: nat)
    requires Late(s, j)
    ensures j < |s.ws|
  {
  }

  lemma CurrentTaken(c: Setup, l: Live, i: nat)
    requires LivePush.HasWriters(c.ws) && LiveGood(c, l) && AllOpen(l.s.ws) && l.s.next == |l.s.ws| && l.s.batches != []
    requires i < |l.s.ws|
    ensures Took(l.s.ws[i], LastNum(l.s))
  {
    hide Good, TextsOk, Took;
    assert Open(l.s.ws[i]) && Taken(l.s.ws[i], LastNum(l.s));
  }

  /** Writer i has rows in block num and may get there before writer j has published the current block. */
  ghost predicate Crosses(c: Setup, s: State, num: nat, i: nat, j: nat)
    requires LivePush.HasWriters(c.ws)
  {
    i < |s.ws| && i != j && Late(s, j) && HasRowsIn(c, num, i)
  }

  ghost predicate CanCross(c: Setup, s: State, num: nat)
    requires LivePush.HasWriters(c.ws)
  {
    exists i: nat, j: nat :: Crosses(c, s, num, i, j)
  }

  // ---- After the publication ----

  lemma PublishedThrough(s: State)
    requires Good(s) && InLine(s) && AllOpen(s.ws) && LastNum(s) in s.fired
    ensures AllThrough(s)
  {
    hide Good, InTurn, Complete, Has;
    GoodOrderly(s);
    GoodFiring(s);
    forall i | 0 <= i < |s.ws| ensures Through(s.ws[i]) {
      var v := s.ws[i];
      assert Open(v) && Orderly(v) && InTurn(v, LastNum(s));
      FiredHas(s, i, LastNum(s));
      if !Gone(v) {
        TurnOf(v, LastNum(s));
        if v.reported < |v.accepted| { NotReported(v); }
      }
    }
  }

  lemma {:induction false} NoStartSerial(s: State, run: seq<Action>)
    requires NoStart(run)
    ensures Serial(s, run)
    decreases |run|
  {
    hide Step, AllThrough;
    if run != [] && Step(s, run[0]).Some? {
      NoStartSerial(Step(s, run[0]).value, run[1..]);
    }
  }

  /** While the invariant holds, a block is only fired with its own texts. */
  lemma OwnTexts(c: Setup, m: Live, w: nat, i: nat)
    requires LivePush.HasWriters(c.ws) && LiveGood(c, m) && w < |m.s.ws|
    ensures !ForeignText(c, m, w, i)
  {
    hide Good, InLine, Finished, Complete, LivePush.ProcessAll, Render, LivePush.Assigned;
    SomeGood(c, m);
    if m.s.ws[w].pc.Firing? && i < |m.s.ws| {
      CanFire(m.s, w);
      FiresCurrent(m.s, w);
      CompleteFinished(m.s, LastNum(m.s));
      var order :| TextsOf(c, m, order);
      assert Finished(m.s.ws[i], LastNum(m.s));
      LivePush.SlotAfter(c.rows(LastNum(m.s)), c.ws, order, WriterAt(c.ws, i));
    }
  }

  lemma CanFire(s: State, w: nat)
    requires Good(s) && w < |s.ws| && s.ws[w].pc.Firing?
    ensures Internal(s.ws[w], Event.Fire) && Last(s.ws[w]) == Current(s.ws[w]).num
  {
    hide Good;
    GoodOrderly(s);
    assert Orderly(s.ws[w]);
    ActiveIsLast(s.ws[w], Event.Fire);
  }

  lemma PublishedNeverMixes(c: Setup, l: Live, num: nat, run: seq<Action>)
    requires LivePush.HasWriters(c.ws) && LiveGood(c, l) && AllOpen(l.s.ws) && LastNum(l.s) in l.s.fired
    ensures !Mixes(c, l, num, run)
  {
    hide Good, InLine, TextsOk, LiveGood, AllThrough, ForeignText, Shares;
    var first := LiveStep(c, l, Start(num, Shares(c, num)));
    if first.Some? && NoStart(run) && LiveRun(c, first.value, run).Some? {
      SomeGood(c, l);
      PublishedThrough(l.s);
      LiveStepKeeps(c, l, Start(num, Shares(c, num)));
      NoStartSerial(first.value.s, run);
      LiveRunKeeps(c, first.value, run);
      var m := LiveRun(c, first.value, run).value;
      forall w, i | 0 <= w < |m.s.ws| && 0 <= i ensures !ForeignText(c, m, w, i) {
        OwnTexts(c, m, w, i);
      }
    }
  }
}
