/**
 * The case in which a block may be begun early: only the writer of the block row is late, and only it
 * has rows in the new block.
 */
module LiveAlone {
  import opened BlockCache
  import opened DataProcessor
  import opened Pipeline
  import opened PipelineRace
  import opened LiveDump
  import opened LiveTexts
  import opened Rendering
  import LivePush

  // ---- The writers ----

  /** What a writer has not reported, or is firing, is of one of the two blocks. */
  ghost predicate InTwo(v: Worker, cur: nat, num: nat) {
    && (forall k | v.reported <= k < |v.accepted| :: v.accepted[k].num == cur || v.accepted[k].num == num)
    && (Active(v) ==> Last(v) == cur || Last(v) == num)
  }

  /** The writer has yet to report the block, or is firing it, or has failed. */
  ghost predicate Held(v: Worker, cur: nat) {
    !Has(v, cur) || (Active(v) && Last(v) == cur) || v.threw
  }

  /** Block num is begun after block cur, which everybody but the first writer has reported. */
  ghost predicate FirstLags(s: State, cur: nat, num: nat) {
    && Good(s) && LastNum(s) == num && cur < num && |s.ws| > 0
    && (forall i | 0 <= i < |s.ws| :: InTwo(s.ws[i], cur, num))
    && (forall i | 0 < i < |s.ws| :: Has(s.ws[i], cur)) && Took(s.ws[0], cur)
    && (cur !in s.fired ==> Held(s.ws[0], cur) && !Finished(s.ws[0], num))
  }

  lemma SameInTwo(v: Worker, v': Worker, cur: nat, num: nat)
    requires InTwo(v, cur, num) && v'.reported == v.reported <= |v.accepted| && v.accepted <= v'.accepted
    requires forall k | |v.accepted| <= k < |v'.accepted| :: v'.accepted[k].num == num
    requires Active(v') ==> Active(v)
    ensures InTwo(v', cur, num)
  {
    hide Has;
    QuietSame(v, v');
    assert forall k | 0 <= k < |v.accepted| :: v'.accepted[k] == v.accepted[k];
  }

  lemma ReportInTwo(v: Worker, v': Worker, cur: nat, num: nat)
    requires InTwo(v, cur, num) && v'.accepted == v.accepted
    requires v.reported < |v.accepted| && v'.reported == v.reported + 1
    ensures InTwo(v', cur, num)
  {
    assert v.accepted[v.reported].num == Last(v');
  }

  lemma NextInTwo(v: Worker, e: Event, cur: nat, num: nat)
    requires Orderly(v) && Enabled(v, e) && (e.Enqueue? ==> e.chunk.num == num) && InTwo(v, cur, num)
    ensures InTwo(Next(v, e), cur, num)
  {
    hide InTwo, Rising;
    if e.Report? && !e.outcome.Rejected? {
      ReportsNext(v, e);
      ReportInTwo(v, Next(v, e), cur, num);
    } else {
      SameInTwo(v, Next(v, e), cur, num);
    }
  }

  lemma HasStays(v: Worker, e: Event, num: nat)
    requires Orderly(v) && Enabled(v, e)
    ensures Has(v, num) ==> Has(Next(v, e), num)
    ensures Took(v, num) ==> Took(Next(v, e), num)
  {
    NextExtends(v, e);
    var v' := Next(v, e);
    assert forall j | 0 <= j < |v.accepted| :: v'.accepted[j] == v.accepted[j];
  }

  lemma NextHeld(v: Worker, e: Event, cur: nat)
    requires Orderly(v) && Enabled(v, e) && !e.Report? && !e.Fire? && Held(v, cur)
    ensures Held(Next(v, e), cur)
  {
    hide Has;
    QuietSame(v, Next(v, e));
  }

  /** An earlier block of the same writer is reported before a later one. */
  lemma ReportedBefore(v: Worker, cur: nat, k: nat)
    requires Orderly(v) && Took(v, cur) && k < |v.accepted| && cur < v.accepted[k].num && k <= v.reported
    ensures Has(v, cur)
  {
    var j :| 0 <= j < |v.accepted| && v.accepted[j].num == cur;
    assert j < k;
  }

  /** Its report of the current block completes it. */
  lemma FirstReports(s: State, cur: nat, num: nat)
    requires FirstLags(s, cur, num) && cur !in s.fired && s.ws[0].pc.Processed? && HasCurrent(s.ws[0])
    ensures Held(ReportStep(s, 0).ws[0], cur)
  {
    hide Good, Rendezvous.Arrive, Finished, Has, Took;
    GoodOrderly(s);
    var v, u := s.ws[0], ReportStep(s, 0);
    assert Orderly(v) && InTwo(v, cur, num) && Held(v, cur);
    ReportsNext(v, Report(Counted));
    assert v.accepted[v.reported].num == cur by {
      if v.accepted[v.reported].num == num { ReportedBefore(v, cur, v.reported); }
    }
    ReportOutcome(s, 0) by { GoodRendezvous(s); }
    ReportAdds(v, u.ws[0], cur);
    EveryoneHas(u.ws, cur);
  }

  /** What the first writer finishes: the current block until it is published, then the new one. */
  lemma FirstFinishes(s: State, e: Event, cur: nat, num: nat)
    requires FirstLags(s, cur, num) && Internal(s.ws[0], e) && StoresText(e)
    ensures Current(s.ws[0]).num == if cur in s.fired then num else cur
  {
    hide Good, Finished;
    GoodOrderly(s);
    var v := s.ws[0];
    assert Orderly(v) && InTwo(v, cur, num) && v.pc.Popped?;
    assert Current(v) == v.accepted[v.reported];
    NotReported(v);
    FiredHas(s, 0, cur);
    if v.accepted[v.reported].num == num { ReportedBefore(v, cur, v.reported); }
  }

  lemma OtherFinishes(s: State, w: nat, e: Event, cur: nat, num: nat)
    requires FirstLags(s, cur, num) && 0 < w < |s.ws| && Internal(s.ws[w], e) && StoresText(e)
    ensures Current(s.ws[w]).num == num
  {
    hide Good, Finished, Held;
    GoodOrderly(s);
    var v := s.ws[w];
    assert Orderly(v) && InTwo(v, cur, num) && v.pc.Popped?;
    assert Current(v) == v.accepted[v.reported];
    NotReported(v);
  }

  lemma NewlyFinished(v: Worker, e: Event, num: nat)
    requires Orderly(v) && Enabled(v, e) && StoresText(e) && HasCurrent(v)
    ensures Finished(Next(v, e), num) ==> Finished(v, num) || Current(v).num == num
  {
    var v' := Next(v, e);
    if Finished(v', num) {
      var j :| 0 <= j < v'.committed && j < |v'.accepted| && v'.accepted[j].num == num;
      assert v.accepted[j] == v'.accepted[j];
    }
  }

  /** A firing is of the current block until it is published, then of the new one. */
  lemma FiresInOrder(s: State, w: nat, cur: nat, num: nat)
    requires FirstLags(s, cur, num) && w < |s.ws| && s.ws[w].pc.Firing?
    ensures Last(s.ws[w]) == if cur in s.fired then num else cur
    ensures Complete(s.ws, Last(s.ws[w])) && Last(s.ws[w]) !in s.fired
    ensures Internal(s.ws[w], Event.Fire) && Current(s.ws[w]).num == Last(s.ws[w])
  {
    hide Good, Finished, Has, Held;
    CanFire(s, w);
    GoodFiring(s);
    assert Active(s.ws[w]) && Leads(s.ws, s.fired, s.ws[w]) && InTwo(s.ws[w], cur, num);
    CompleteFinished(s, Last(s.ws[w]));
  }

  // ---- Every step keeps it ----

  lemma StepOne(s: State, t: State, w: nat, e: Event, cur: nat, num: nat)
    requires FirstLags(s, cur, num) && Good(t) && w < |s.ws| && Enabled(s.ws[w], e)
    requires e.Enqueue? ==> e.chunk.num == num
    requires t.ws == s.ws[w := Next(s.ws[w], e)] && LastNum(t) == num
    requires forall x :: x in s.fired ==> x in t.fired
    requires cur !in t.fired ==> Held(t.ws[0], cur) && !Finished(t.ws[0], num)
    ensures FirstLags(t, cur, num)
  {
    hide Good, Next, Enabled, Finished, Held, Has, Took, Orderly;
    GoodOrderly(s);
    NextInTwo(s.ws[w], e, cur, num);
    HasStays(s.ws[w], e, cur);
  }

  lemma OfferKeepsLag(s: State, cur: nat, num: nat)
    requires FirstLags(s, cur, num) && Step(s, Offer).Some?
    ensures FirstLags(Step(s, Offer).value, cur, num)
  {
    hide Good, Next, Enabled, Finished, Held, Has, Took, Orderly, InTwo;
    GoodOrderly(s);
    var t, e := Step(s, Offer).value, Enqueue(Offered(s));
    StepKeepsGood(s, Offer);
    if s.next == 0 && cur !in s.fired {
      NextHeld(s.ws[0], e, cur);
      NextFinished(s.ws[0], e, num) by { ConsistentOf(s.ws[0]); }
    }
    StepOne(s, t, s.next, e, cur, num);
  }

  lemma ReportKeepsLag(s: State, w: nat, cur: nat, num: nat)
    requires FirstLags(s, cur, num) && Step(s, ReportTo(w)).Some?
    ensures FirstLags(Step(s, ReportTo(w)).value, cur, num)
  {
    hide Good, Next, Enabled, Finished, Held, Has, Took, Orderly, InTwo, Rendezvous.Arrive;
    GoodOrderly(s);
    var t := Step(s, ReportTo(w)).value;
    StepKeepsGood(s, ReportTo(w));
    var e := Report(Rendezvous.Arrive(|s.ws|, s.counts, Current(s.ws[w]).num).1);
    CanReport(s.ws[w], e.outcome);
    if w == 0 && cur !in s.fired {
      FirstReports(s, cur, num);
      NextFinished(s.ws[0], e, num) by { ConsistentOf(s.ws[0]); }
    }
    StepOne(s, t, w, e, cur, num);
  }

  lemma WorkKeepsLag(s: State, w: nat, e: Event, cur: nat, num: nat)
    requires FirstLags(s, cur, num) && Step(s, Work(w, e)).Some?
    ensures FirstLags(Step(s, Work(w, e)).value, cur, num)
  {
    hide Good, Next, Enabled, Finished, Held, Has, Took, Orderly, InTwo;
    GoodOrderly(s);
    var t := Step(s, Work(w, e)).value;
    StepKeepsGood(s, Work(w, e));
    if w == 0 && cur !in t.fired {
      if e.Fire? {
        FiresInOrder(s, 0, cur, num) by { FirePoint(s.ws[0], e); }
      } else {
        NextHeld(s.ws[0], e, cur) by { NoReport(s.ws[0], e); }
      }
      if StoresText(e) {
        FirstFinishes(s, e, cur, num);
        NewlyFinished(s.ws[0], e, num);
      } else {
        NextFinished(s.ws[0], e, num) by { ConsistentOf(s.ws[0]); }
      }
    }
    StepOne(s, t, w, e, cur, num) by { NoReport(s.ws[w], e); }
  }

  lemma FirePoint(v: Worker, e: Event)
    requires Enabled(v, e) && e.Fire?
    ensures v.pc.Firing?
  {
  }

  lemma NoReport(v: Worker, e: Event)
    requires Internal(v, e)
    ensures !e.Report? && !e.Enqueue?
  {
  }

  lemma StepKeepsLag(s: State, a: Action, cur: nat, num: nat)
    requires FirstLags(s, cur, num) && Step(s, a).Some? && !a.Start?
    ensures FirstLags(Step(s, a).value, cur, num)
  {
    hide FirstLags, Step;
    match a
    case Offer => OfferKeepsLag(s, cur, num);
    case ReportTo(w) => ReportKeepsLag(s, w, cur, num);
    case Work(w, e) => WorkKeepsLag(s, w, e, cur, num);
  }

  // ---- The texts ----

  /** The texts are those of block `of` that the writers in `order` stored: all who finished it with rows. */
  ghost predicate TextsFor(c: Setup, m: Live, of: nat, order: seq<LivePush.Writer>)
    requires LivePush.HasWriters(c.ws)
  {
    && m.slots == LivePush.ProcessAll(map[], c.rows(of), c.ws, order)
    && forall i | 0 <= i < |m.s.ws| && Finished(m.s.ws[i], of) && HasRowsIn(c, of, i) :: WriterAt(c.ws, i) in order
  }

  ghost predicate InSlots(c: Setup, m: Live, of: nat)
    requires LivePush.HasWriters(c.ws)
  {
    exists order :: TextsFor(c, m, of, order)
  }

  /** Only the first writer is late and has rows in the new block: the texts stay those of the block to be fired. */
  ghost predicate Alone(c: Setup, m: Live, cur: nat, num: nat)
    requires LivePush.HasWriters(c.ws)
  {
    && FirstLags(m.s, cur, num) && |m.s.ws| == Threads(c.ws)
    && c.rows(cur).blocks != [] && (forall i | 0 < i < |m.s.ws| :: !HasRowsIn(c, num, i))
    && (cur !in m.s.fired ==> InSlots(c, m, cur))
    && (cur in m.s.fired && num !in m.s.fired ==> InSlots(c, m, num))
  }

  /** Once everybody has finished a block, every slot holds its text. */
  lemma AllOwn(c: Setup, m: Live, of: nat, i: nat)
    requires LivePush.HasWriters(c.ws) && Good(m.s) && Complete(m.s.ws, of) && InSlots(c, m, of) && i < |m.s.ws|
    ensures SlotOf(c, m, i) == TextOf(c, of, i)
  {
    hide Good, Complete, Finished, LivePush.ProcessAll, Render, LivePush.Assigned;
    CompleteFinished(m.s, of);
    var order :| TextsFor(c, m, of, order);
    assert Finished(m.s.ws[i], of);
    LivePush.SlotAfter(c.rows(of), c.ws, order, WriterAt(c.ws, i));
    NoRows();
  }

  lemma AloneOwnTexts(c: Setup, m: Live, cur: nat, num: nat, w: nat, i: nat)
    requires LivePush.HasWriters(c.ws) && Alone(c, m, cur, num) && w < |m.s.ws|
    ensures !ForeignText(c, m, w, i)
  {
    hide Good, Complete, InSlots, TextOf, SlotOf, HasRowsIn;
    if m.s.ws[w].pc.Firing? && i < |m.s.ws| {
      FiresInOrder(m.s, w, cur, num);
      AllOwn(c, m, Last(m.s.ws[w]), i);
    }
  }

  /** The block row makes its writer's text, and the text makes the firing clear every slot. */
  lemma FireClears(c: Setup, m: Live)
    requires LivePush.HasWriters(c.ws) && SlotOf(c, m, 0) != []
    ensures LivePush.Fire(c.lite, m.slots, c.ws, m.commands).0 == map[]
  {
    hide LivePush.SlotsCommand;
    var text := LivePush.TextAt(m.slots, (Blocks, 0));
    assert LivePush.Texts(m.slots, Blocks, 0) == [];
    assert LivePush.Texts(m.slots, Blocks, 1) == [] + [text];
    assert [text][..0] == [] && Merged([]) == [];
    assert Merged([text]) == text;
  }

  lemma BlockText(c: Setup, of: nat)
    requires LivePush.HasWriters(c.ws) && c.rows(of).blocks != []
    ensures HasRowsIn(c, of, 0) && TextOf(c, of, 0) != []
  {
    hide Slice;
    LivePush.FirstSlice(c.rows(of).blocks, 1);
    RenderEmptyIff(LivePush.Assigned(c.rows(of), c.ws, (Blocks, 0)));
  }

  lemma AlonePlain(c: Setup, m: Live, a: Action, cur: nat, num: nat)
    requires LivePush.HasWriters(c.ws) && Alone(c, m, cur, num) && Plain(a) && LiveStep(c, m, a).Some?
    ensures Alone(c, LiveStep(c, m, a).value, cur, num)
  {
    hide Good, FirstLags, Finished, HasRowsIn, LivePush.Process, LivePush.Fire, LivePush.ProcessAll, Shares, Next,
        Enabled, Rendezvous.Arrive;
    var m' := LiveStep(c, m, a).value;
    StepKeepsLag(m.s, a, cur, num);
    LagGood(m.s, cur, num);
    forall i | 0 <= i < |m.s.ws| ensures |m'.s.ws| == |m.s.ws|
        && (Finished(m'.s.ws[i], cur) ==> Finished(m.s.ws[i], cur))
        && (Finished(m'.s.ws[i], num) ==> Finished(m.s.ws[i], num)) {
      PlainFinished(m.s, a, i, cur);
      PlainFinished(m.s, a, i, num);
    }
    SameTexts(c, m, m', cur);
    SameTexts(c, m, m', num);
  }

  lemma LagGood(s: State, cur: nat, num: nat)
    requires FirstLags(s, cur, num)
    ensures Good(s) && |s.ws| > 0
  {
    hide Good;
  }

  lemma SameTexts(c: Setup, m: Live, m': Live, of: nat)
    requires LivePush.HasWriters(c.ws) && m'.slots == m.slots && |m'.s.ws| == |m.s.ws|
    requires forall i | 0 <= i < |m.s.ws| :: Finished(m'.s.ws[i], of) && HasRowsIn(c, of, i) ==> Finished(m.s.ws[i], of)
    ensures InSlots(c, m, of) ==> InSlots(c, m', of)
  {
    hide Finished, HasRowsIn, LivePush.ProcessAll;
    if InSlots(c, m, of) {
      var order :| TextsFor(c, m, of, order);
      assert TextsFor(c, m', of, order);
    }
  }

  lemma MoreTexts(c: Setup, m: Live, m': Live, of: nat, w: nat)
    requires LivePush.HasWriters(c.ws) && |m'.s.ws| == |m.s.ws| && InSlots(c, m, of)
    requires m'.slots == LivePush.Process(m.slots, c.rows(of), c.ws, WriterAt(c.ws, w))
    requires forall i | 0 <= i < |m.s.ws| && i != w :: m'.s.ws[i] == m.s.ws[i]
    ensures InSlots(c, m', of)
  {
    hide Finished, HasRowsIn, LivePush.Process, WriterAt;
    var order :| TextsFor(c, m, of, order);
    var longer := order + [WriterAt(c.ws, w)];
    assert longer[..|order|] == order && longer[|order|] == WriterAt(c.ws, w);
    assert TextsFor(c, m', of, longer);
  }

  lemma AloneStoreFirst(c: Setup, m: Live, e: Event, cur: nat, num: nat)
    requires LivePush.HasWriters(c.ws) && Alone(c, m, cur, num) && StoresText(e) && LiveStep(c, m, Work(0, e)).Some?
    ensures Alone(c, LiveStep(c, m, Work(0, e)).value, cur, num)
  {
    hide Good, FirstLags, Finished, HasRowsIn, InSlots, LivePush.Process, LivePush.Fire, Shares, Next, Enabled,
        WriterAt;
    var m' := LiveStep(c, m, Work(0, e)).value;
    StepKeepsLag(m.s, Work(0, e), cur, num);
    FirstFinishes(m.s, e, cur, num);
    if cur !in m.s.fired {
      MoreTexts(c, m, m', cur, 0);
    } else if num !in m.s.fired {
      MoreTexts(c, m, m', num, 0);
    }
  }

  lemma AloneStoreOther(c: Setup, m: Live, w: nat, e: Event, cur: nat, num: nat)
    requires LivePush.HasWriters(c.ws) && Alone(c, m, cur, num) && StoresText(e) && w > 0
    requires LiveStep(c, m, Work(w, e)).Some?
    ensures Alone(c, LiveStep(c, m, Work(w, e)).value, cur, num)
  {
    hide Good, FirstLags, Finished, InSlots, LivePush.Fire, Shares, Next, Enabled, WriterAt, LivePush.Assigned;
    var m' := LiveStep(c, m, Work(w, e)).value;
    StepKeepsLag(m.s, Work(w, e), cur, num);
    OtherFinishes(m.s, w, e, cur, num);
    assert !HasRowsIn(c, num, w);
    assert m'.slots == m.slots;
    LagGood(m.s, cur, num);
    LagBefore(m.s, cur, num);
    GoodOrderly(m.s);
    NewlyFinished(m.s.ws[w], e, cur);
    SameTexts(c, m, m', cur);
    SameTexts(c, m, m', num);
  }

  lemma LagBefore(s: State, cur: nat, num: nat)
    requires FirstLags(s, cur, num)
    ensures cur < num
  {
  }

  lemma AloneFire(c: Setup, m: Live, w: nat, cur: nat, num: nat)
    requires LivePush.HasWriters(c.ws) && Alone(c, m, cur, num) && LiveStep(c, m, Work(w, Event.Fire)).Some?
    ensures Alone(c, LiveStep(c, m, Work(w, Event.Fire)).value, cur, num)
  {
    hide Good, FirstLags, Finished, HasRowsIn, Complete, LivePush.Process, LivePush.Fire, Shares, Next, Enabled,
        TextOf, SlotOf;
    var m', s := LiveStep(c, m, Work(w, Event.Fire)).value, m.s;
    StepKeepsLag(s, Work(w, Event.Fire), cur, num);
    FirePoint(s.ws[w], Event.Fire);
    FiresInOrder(s, w, cur, num);
    LagGood(s, cur, num);
    assert m'.s.fired == s.fired + [Last(s.ws[w])] && m'.s.fired[|s.fired|] == Last(s.ws[w]);
    if cur !in s.fired {
      AllOwn(c, m, cur, 0);
      BlockText(c, cur);
      FireClears(c, m);
      NotFinishedYet(s, w, cur, num);
      assert TextsFor(c, m', num, []);
    } else {
      assert num in m'.s.fired;
    }
  }

  /** Publishing the current block finds nothing finished of the new one that has rows. */
  lemma NotFinishedYet(s: State, w: nat, cur: nat, num: nat)
    requires FirstLags(s, cur, num) && cur !in s.fired && w < |s.ws| && Internal(s.ws[w], Event.Fire)
    ensures !Finished(WorkStep(s, w, Event.Fire).ws[0], num)
  {
    hide Good, Finished, Next, Enabled;
    if w == 0 {
      GoodOrderly(s);
      ConsistentOf(s.ws[0]);
      NextFinished(s.ws[0], Event.Fire, num);
    }
  }

  lemma AloneStep(c: Setup, m: Live, a: Action, cur: nat, num: nat)
    requires LivePush.HasWriters(c.ws) && Alone(c, m, cur, num) && !a.Start? && LiveStep(c, m, a).Some?
    ensures Alone(c, LiveStep(c, m, a).value, cur, num)
  {
    hide Alone, LiveStep;
    if Plain(a) {
      AlonePlain(c, m, a, cur, num);
    } else if a.e.Fire? {
      AloneFire(c, m, a.w, cur, num);
    } else if a.w == 0 {
      AloneStoreFirst(c, m, a.e, cur, num);
    } else {
      AloneStoreOther(c, m, a.w, a.e, cur, num);
    }
  }

  lemma {:induction false} AloneRun(c: Setup, m: Live, run: seq<Action>, cur: nat, num: nat)
    requires LivePush.HasWriters(c.ws) && Alone(c, m, cur, num) && NoStart(run) && LiveRun(c, m, run).Some?
    ensures Alone(c, LiveRun(c, m, run).value, cur, num)
    decreases |run|
  {
    hide Alone, LiveStep;
    if run != [] {
      AloneStep(c, m, run[0], cur, num);
      AloneRun(c, LiveStep(c, m, run[0]).value, run[1..], cur, num);
    }
  }

  // ---- The way in ----

  /** If nobody can cross, the first writer is the only late one and the only one with rows in the new block. */
  lemma OnlyTheFirst(c: Setup, l: Live, num: nat)
    requires LivePush.HasWriters(c.ws) && LiveGood(c, l) && AllOpen(l.s.ws) && LastNum(l.s) !in l.s.fired
    requires c.rows(num).blocks != [] && !CanCross(c, l.s, num)
    ensures Late(l.s, 0) && forall i | 0 < i < |l.s.ws| :: !HasRowsIn(c, num, i) && Has(l.s.ws[i], LastNum(l.s))
  {
    hide Good, InLine, TextsOk, Has, HasRowsIn, Complete, TextOf;
    SomeGood(c, l);
    GoodOrderly(l.s);
    BlockText(c, num);
    var j := SomebodyIsLate(l.s);
    assert !Crosses(c, l.s, num, 0, j);
    forall i | 0 < i < |l.s.ws| ensures !HasRowsIn(c, num, i) && Has(l.s.ws[i], LastNum(l.s)) {
      assert !Crosses(c, l.s, num, i, 0) && !Crosses(c, l.s, num, 0, i);
      if Active(l.s.ws[0]) {
        FirstCompletes(l.s, i);
      }
    }
  }

  lemma FirstCompletes(s: State, i: nat)
    requires Good(s) && InLine(s) && AllOpen(s.ws) && |s.ws| > 0 && Active(s.ws[0]) && i < |s.ws|
    ensures Has(s.ws[i], LastNum(s))
  {
    hide Good, Has;
    GoodFiring(s);
    assert Open(s.ws[0]) && InTurn(s.ws[0], LastNum(s));
    OpenIsThere(s, 0);
    assert Leads(s.ws, s.fired, s.ws[0]);
  }

  lemma OpenInTwo(s: State, i: nat, num: nat)
    requires Good(s) && InLine(s) && AllOpen(s.ws) && i < |s.ws|
    ensures InTwo(s.ws[i], LastNum(s), num)
  {
    hide Good;
    assert Open(s.ws[i]) && InTurn(s.ws[i], LastNum(s));
    OpenIsThere(s, i);
  }

  lemma OpenIsAlive(s: State)
    requires Good(s) && AllOpen(s.ws)
    ensures !Dead(s)
  {
    hide Good, Has, Took;
    forall w | 0 <= w < |s.ws| ensures !Blocking(s, w) {
      assert Open(s.ws[w]);
      OpenIsThere(s, w);
    }
  }

  lemma StartsAlone(c: Setup, l: Live, num: nat)
    requires LivePush.HasWriters(c.ws) && LiveGood(c, l) && AllOpen(l.s.ws) && l.s.next == |l.s.ws| && l.s.batches != []
    requires LastNum(l.s) !in l.s.fired && num > LastNum(l.s) && c.rows(num).blocks != [] && !CanCross(c, l.s, num)
    ensures var m := LiveStep(c, l, Start(num, Shares(c, num))); m.Some? && Alone(c, m.value, LastNum(l.s), num)
  {
    hide Good, InLine, InTwo, Has, Took, Finished, HasRowsIn, CanCross, Late, LivePush.Process, LivePush.ProcessAll,
        LivePush.Fire, Shares;
    var s, cur := l.s, LastNum(l.s);
    var m := LiveStep(c, l, Start(num, Shares(c, num))).value;
    SomeGood(c, l);
    StepKeepsGood(s, Start(num, Shares(c, num)));
    OnlyTheFirst(c, l, num);
    NewNumber(s, num);
    CurrentTaken(c, l, 0);
    forall i | 0 <= i < |s.ws| ensures InTwo(s.ws[i], cur, num) {
      OpenInTwo(s, i, num);
    }
    LateIsHeld(s);
    OpenIsAlive(s);
    var order :| TextsOf(c, l, order);
    assert TextsFor(c, m, cur, order);
    assert c.rows(cur).blocks != [] by { assert s.batches[|s.batches| - 1].num == cur; }
  }

  lemma LateIsHeld(s: State)
    requires Good(s) && InLine(s) && AllOpen(s.ws) && Late(s, 0)
    ensures Held(s.ws[0], LastNum(s))
  {
    hide Good, Has;
    assert Open(s.ws[0]) && InTurn(s.ws[0], LastNum(s));
    OpenIsThere(s, 0);
  }

  lemma AloneNeverMixes(c: Setup, l: Live, num: nat, run: seq<Action>)
    requires LivePush.HasWriters(c.ws) && LiveGood(c, l) && AllOpen(l.s.ws) && l.s.next == |l.s.ws| && l.s.batches != []
    requires LastNum(l.s) !in l.s.fired && num > LastNum(l.s) && c.rows(num).blocks != [] && !CanCross(c, l.s, num)
    ensures !Mixes(c, l, num, run)
  {
    hide LiveGood, Alone, Open, CanCross, LiveStep, ForeignText;
    StartsAlone(c, l, num);
    var first := LiveStep(c, l, Start(num, Shares(c, num))).value;
    if NoStart(run) && LiveRun(c, first, run).Some? {
      AloneRun(c, first, run, LastNum(l.s), num);
      var m := LiveRun(c, first, run).value;
      forall w, i | 0 <= w < |m.s.ws| && 0 <= i ensures !ForeignText(c, m, w, i) {
        AloneOwnTexts(c, m, LastNum(l.s), num, w, i);
      }
    }
  }
}
