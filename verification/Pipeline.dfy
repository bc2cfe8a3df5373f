/**
 * The parallel dump: one producer offers every batch to N writers in turn, each writer commits its
 * own rows, and the rendezvous publishes a batch once all N have reported it. A run is any
 * interleaving of the producer, the workers and whoever cancels or joins them.
 */
module Pipeline {
  import opened Common
  import opened DataProcessor
  import Rendezvous

  /** rows[w] is the number of rows writer w receives. */
  datatype Batch = Batch(num: nat, rows: seq<nat>)

  datatype RowId = RowId(batch: nat, writer: nat, index: nat)

  /** `next` is the writer the producer turns to; it has finished a batch when next == |ws|. */
  datatype State = State(
    ws: seq<Worker>, counts: map<nat, nat>, fired: seq<nat>,
    batches: seq<Batch>, next: nat, db: multiset<RowId>)

  datatype Action =
    | Start(num: nat, rows: seq<nat>)
    | Offer
    | ReportTo(w: nat)
    | Work(w: nat, e: Event)

  function Init(n: nat): State {
    State(seq(n, _ => IDLE), map[], [], [], n, multiset{})
  }

  function LastNum(s: State): nat {
    if s.batches == [] then 0 else s.batches[|s.batches| - 1].num
  }

  predicate HasCurrent(w: Worker) {
    0 < w.popped <= |w.accepted|
  }

  function Current(w: Worker): Chunk
    requires HasCurrent(w)
  {
    w.accepted[w.popped - 1]
  }

  function Rows(w: nat, c: Chunk): multiset<RowId> {
    multiset(set p | 0 <= p < c.rows :: RowId(c.num, w, p))
  }

  function Offered(s: State): Chunk
    requires s.next < |s.ws| && s.batches != [] && s.next < |s.batches[|s.batches| - 1].rows|
  {
    var b := s.batches[|s.batches| - 1];
    Chunk(b.num, b.rows[s.next])
  }

  predicate CanOffer(s: State) {
    && s.next < |s.ws| && s.batches != [] && s.next < |s.batches[|s.batches| - 1].rows|
    && Enabled(s.ws[s.next], Enqueue(Offered(s)))
  }

  /** Steps a worker takes on its own; queueing and reporting go through the shared state. */
  predicate Internal(w: Worker, e: Event) {
    !e.Enqueue? && !e.Report? && Enabled(w, e) && (e.Erase? || e.Fire? || e.Commit? || e.Throw? ==> HasCurrent(w))
  }

  function WorkStep(s: State, w: nat, e: Event): State
    requires w < |s.ws| && Internal(s.ws[w], e)
  {
    var v := s.ws[w];
    s.(ws := s.ws[w := Next(v, e)],
       counts := if e.Erase? then s.counts - {Current(v).num} else s.counts,
       fired := if e.Fire? then s.fired + [Current(v).num] else s.fired,
       db := if e.Commit? || (e.Throw? && e.stored) then s.db + Rows(w, Current(v)) else s.db)
  }

  function ReportStep(s: State, w: nat): State
    requires w < |s.ws| && s.ws[w].pc.Processed? && HasCurrent(s.ws[w])
  {
    var (counts, outcome) := Rendezvous.Arrive(|s.ws|, s.counts, Current(s.ws[w]).num);
    s.(ws := s.ws[w := Next(s.ws[w], Report(outcome))], counts := counts)
  }

  function Step(s: State, a: Action): Option<State> {
    match a
    case Start(num, rows) =>
      if s.next == |s.ws| && |rows| == |s.ws| && num > LastNum(s)
      then Some(s.(batches := s.batches + [Batch(num, rows)], next := 0))
      else None
    case Offer =>
      if CanOffer(s)
      then Some(s.(ws := s.ws[s.next := Next(s.ws[s.next], Enqueue(Offered(s)))], next := s.next + 1))
      else None
    case ReportTo(w) =>
      if w < |s.ws| && s.ws[w].pc.Processed? && HasCurrent(s.ws[w]) then Some(ReportStep(s, w)) else None
    case Work(w, e) =>
      if w < |s.ws| && Internal(s.ws[w], e) then Some(WorkStep(s, w, e)) else None
  }

  function Run(s: State, run: seq<Action>): Option<State>
    decreases |run|
  {
    if run == [] then Some(s)
    else
      match Step(s, run[0])
      case None => None
      case Some(t) => Run(t, run[1..])
  }

  function StartedBy(a: Action): seq<Batch> {
    if a.Start? then [Batch(a.num, a.rows)] else []
  }

  /** The batches a run is given, with the rows meant for each writer. */
  function Started(run: seq<Action>): seq<Batch>
    decreases |run|
  {
    if run == [] then [] else StartedBy(run[0]) + Started(run[1..])
  }

  lemma StepStarts(s: State, a: Action)
    requires Step(s, a).Some?
    ensures Step(s, a).value.batches == s.batches + StartedBy(a)
  {
    hide Next, Enabled, Rendezvous.Arrive, Rows;
  }

  lemma {:induction false} RunStarts(s: State, run: seq<Action>)
    requires Run(s, run).Some?
    ensures Run(s, run).value.batches == s.batches + Started(run)
    decreases |run|
  {
    hide Step, StartedBy;
    if run != [] {
      StepStarts(s, run[0]);
      RunStarts(Step(s, run[0]).value, run[1..]);
    }
  }

  /** The producer gives up on a full queue that cancel() has flagged but that can still accept later. */
  predicate RacesCancel(s: State, a: Action) {
    a.Offer? && s.next < |s.ws| && Drops(s.ws[s.next]) && !Closed(s.ws[s.next])
  }

  ghost predicate RaceFree(s: State, run: seq<Action>)
    decreases |run|
  {
    run != [] ==> !RacesCancel(s, run[0]) && (Step(s, run[0]).Some? ==> RaceFree(Step(s, run[0]).value, run[1..]))
  }

  // ---- What every step keeps ----

  ghost predicate Increasing(bs: seq<Batch>) {
    && (forall j | 0 <= j < |bs| :: bs[j].num > 0)
    && (forall i, j | 0 <= i < j < |bs| :: bs[i].num < bs[j].num)
  }

  ghost predicate Rising(cs: seq<Chunk>) {
    forall i, j | 0 <= i < j < |cs| :: cs[i].num < cs[j].num
  }

  /** How many batches writer w has been offered. */
  function OfferedTo(s: State, w: nat): int {
    if w < s.next then |s.batches| else |s.batches| - 1
  }

  /** The chunk is writer w's part of batch j. */
  ghost predicate IsPart(s: State, w: nat, c: Chunk, j: int) {
    0 <= j < OfferedTo(s, w) && w < |s.batches[j].rows| && c == Chunk(s.batches[j].num, s.batches[j].rows[w])
  }

  ghost predicate WasOffered(s: State, w: nat, c: Chunk) {
    exists j :: IsPart(s, w, c, j)
  }

  ghost predicate Shape(s: State) {
    && 0 < |s.ws| && s.next <= |s.ws| && (s.batches == [] ==> s.next == |s.ws|)
    && Increasing(s.batches)
    && (forall j | 0 <= j < |s.batches| :: |s.batches[j].rows| == |s.ws|)
  }

  ghost predicate Orderly(v: Worker) {
    Consistent(v) && Rising(v.accepted)
  }

  /** What a writer has accepted was offered to it, in order. */
  ghost predicate WriterOk(s: State, w: nat)
    requires w < |s.ws|
  {
    && Orderly(s.ws[w])
    && forall j | 0 <= j < |s.ws[w].accepted| :: WasOffered(s, w, s.ws[w].accepted[j])
  }

  ghost predicate Delivery(s: State) {
    Shape(s) && forall w | 0 <= w < |s.ws| :: WriterOk(s, w)
  }

  ghost predicate AllOrderly(ws: seq<Worker>) {
    forall i | 0 <= i < |ws| :: Orderly(ws[i])
  }

  lemma DeliveryOrderly(s: State)
    requires Delivery(s)
    ensures AllOrderly(s.ws) && |s.ws| > 0
  {
    hide Orderly, Increasing;
    forall i | 0 <= i < |s.ws| ensures Orderly(s.ws[i]) {
      assert WriterOk(s, i);
    }
  }

  /** A writer's part depends only on itself, the batches and how many it was offered. */
  lemma SameWriter(s: State, t: State, w: nat)
    requires w < |s.ws| == |t.ws| && WriterOk(s, w)
    requires t.ws[w] == s.ws[w] && t.batches == s.batches && OfferedTo(s, w) == OfferedTo(t, w)
    ensures WriterOk(t, w)
  {
    hide Orderly;
    forall j | 0 <= j < |t.ws[w].accepted| ensures WasOffered(t, w, t.ws[w].accepted[j]) {
      assert WasOffered(s, w, s.ws[w].accepted[j]);
      var b :| IsPart(s, w, s.ws[w].accepted[j], b);
      assert IsPart(t, w, t.ws[w].accepted[j], b);
    }
  }

  ghost predicate IsStored(ws: seq<Worker>, id: RowId) {
    && id.writer < |ws|
    && exists j :: 0 <= j < ws[id.writer].committed && j < |ws[id.writer].accepted|
         && ws[id.writer].accepted[j].num == id.batch && id.index < ws[id.writer].accepted[j].rows
  }

  ghost predicate StoredOnce(s: State) {
    forall id: RowId :: s.db[id] == if IsStored(s.ws, id) then 1 else 0
  }

  /** Writer v has accepted batch num. */
  ghost predicate Took(v: Worker, num: nat) {
    exists j :: 0 <= j < |v.accepted| && v.accepted[j].num == num
  }

  /** Writer v has reported batch num. */
  ghost predicate Has(v: Worker, num: nat) {
    exists j :: 0 <= j < v.reported && j < |v.accepted| && v.accepted[j].num == num
  }

  /** The batch a writer has reported last. */
  function Last(v: Worker): nat {
    if 0 < v.reported <= |v.accepted| then v.accepted[v.reported - 1].num else 0
  }

  /** Number of writers that have reported batch num. */
  ghost function Count(ws: seq<Worker>, num: nat): nat {
    if ws == [] then 0 else Count(ws[1..], num) + if Has(ws[0], num) then 1 else 0
  }

  ghost predicate Complete(ws: seq<Worker>, num: nat) {
    forall i | 0 <= i < |ws| :: Has(ws[i], num)
  }

  /** Between completing a batch and returning from the triggered function. */
  predicate Active(w: Worker) {
    w.pc.Triggered? || w.pc.Firing?
  }

  /** Still inside the batch's firing, or failed there: cannot report a later batch yet, or ever. */
  predicate Holds(w: Worker, num: nat) {
    w.reported > 0 && Last(w) == num && (Active(w) || w.threw)
  }

  ghost predicate SomeHolds(ws: seq<Worker>, num: nat) {
    exists i :: 0 <= i < |ws| && Holds(ws[i], num)
  }

  ghost predicate Leads(ws: seq<Worker>, fired: seq<nat>, v: Worker) {
    Complete(ws, Last(v)) && forall k | 0 <= k < |fired| :: fired[k] < Last(v)
  }

  ghost predicate AllComplete(ws: seq<Worker>, fired: seq<nat>) {
    forall k | 0 <= k < |fired| :: Complete(ws, fired[k])
  }

  ghost predicate NoneForgotten(ws: seq<Worker>, fired: seq<nat>) {
    forall num: nat | Complete(ws, num) && num !in fired :: SomeHolds(ws, num)
  }

  ghost predicate OneActive(ws: seq<Worker>) {
    forall i, j | 0 <= i < |ws| && 0 <= j < |ws| && Active(ws[i]) && Active(ws[j]) :: i == j
  }

  ghost predicate ActiveLeads(ws: seq<Worker>, fired: seq<nat>) {
    forall i | 0 <= i < |ws| && Active(ws[i]) :: Leads(ws, fired, ws[i])
  }

  /**
   * Published batches are complete and in order, a complete one is published unless a writer still
   * holds it, and at most one writer is firing, a batch later than all published ones.
   */
  ghost predicate FiringOrder(ws: seq<Worker>, fired: seq<nat>) {
    && (forall i, k | 0 <= i < k < |fired| :: fired[i] < fired[k])
    && AllComplete(ws, fired) && NoneForgotten(ws, fired) && ActiveLeads(ws, fired) && OneActive(ws)
  }

  ghost predicate SomeTriggered(ws: seq<Worker>, num: nat) {
    exists i :: 0 <= i < |ws| && ws[i].pc.Triggered? && Last(ws[i]) == num
  }

  /** The batch has a counter entry. */
  ghost predicate Pending(ws: seq<Worker>, fired: seq<nat>, num: nat) {
    Count(ws, num) > 0 && num !in fired && (Complete(ws, num) ==> SomeTriggered(ws, num))
  }

  ghost predicate CountsMatch(ws: seq<Worker>, counts: map<nat, nat>, fired: seq<nat>) {
    |ws| > 1 ==> forall num: nat ::
      (num in counts <==> Pending(ws, fired, num)) && (num in counts ==> counts[num] == Count(ws, num))
  }

  ghost predicate Good(s: State) {
    Delivery(s) && StoredOnce(s) && FiringOrder(s.ws, s.fired) && CountsMatch(s.ws, s.counts, s.fired)
  }

  // ---- Counting reports ----

  lemma {:induction false} CountUpdate(ws: seq<Worker>, w: nat, v: Worker, num: nat)
    requires w < |ws|
    ensures Count(ws[w := v], num) ==
            Count(ws, num) - (if Has(ws[w], num) then 1 else 0) + (if Has(v, num) then 1 else 0)
  {
    hide Has;
    var us := ws[w := v];
    if w == 0 {
      assert us[1..] == ws[1..];
    } else {
      assert us[1..] == ws[1..][w - 1 := v];
      CountUpdate(ws[1..], w - 1, v, num);
    }
  }

  lemma {:induction false} CountAll(ws: seq<Worker>, num: nat)
    ensures Count(ws, num) <= |ws|
    ensures Count(ws, num) == |ws| <==> Complete(ws, num)
  {
    hide Has;
    if ws != [] {
      CountAll(ws[1..], num);
      assert Complete(ws, num) <==> Has(ws[0], num) && Complete(ws[1..], num) by {
        if Has(ws[0], num) && Complete(ws[1..], num) {
          forall i | 0 <= i < |ws| ensures Has(ws[i], num) {
            if i > 0 { assert ws[i] == ws[1..][i - 1]; }
          }
        }
      }
    }
  }

  lemma LastIsGreatest(v: Worker, num: nat)
    requires Orderly(v)
    ensures Has(v, num) ==> num <= Last(v)
    ensures v.reported > 0 ==> Has(v, Last(v))
  {
    if v.reported > 0 { assert v.accepted[v.reported - 1].num == Last(v); }
  }

  /** v' is v after one more report. */
  lemma ReportAdds(v: Worker, v': Worker, num: nat)
    requires Orderly(v) && v.reported < |v.accepted| && v'.accepted == v.accepted && v'.reported == v.reported + 1
    ensures Has(v', num) <==> Has(v, num) || num == v.accepted[v.reported].num
    ensures Has(v, num) ==> num < v.accepted[v.reported].num
    ensures Last(v') == v.accepted[v.reported].num
  {
    if Has(v, num) {
      var j :| 0 <= j < v.reported && j < |v.accepted| && v.accepted[j].num == num;
      assert v'.accepted[j].num == num;
    }
    assert v'.accepted[v.reported] == v.accepted[v.reported];
  }

  // ---- Steps that do not touch the rendezvous ----

  /** Replacing a worker by one with the same reports that fires nothing new. */
  ghost predicate Quiet(v: Worker, v': Worker) {
    && v'.reported == v.reported <= |v.accepted| && v.accepted <= v'.accepted
    && (v'.pc.Triggered? <==> v.pc.Triggered?)
    && (Active(v') ==> Active(v))
    && (Active(v) ==> Active(v') || v'.threw)
    && (v.threw ==> v'.threw)
  }

  lemma QuietSame(v: Worker, v': Worker)
    requires v'.reported == v.reported <= |v.accepted| && v.accepted <= v'.accepted
    ensures Last(v') == Last(v) && forall num: nat :: Has(v', num) <==> Has(v, num)
  {
    assert forall j | 0 <= j < |v.accepted| :: v'.accepted[j] == v.accepted[j];
  }

  lemma SameReports(ws: seq<Worker>, w: nat, v: Worker)
    requires w < |ws| && forall num: nat :: Has(v, num) <==> Has(ws[w], num)
    ensures forall num: nat :: Count(ws[w := v], num) == Count(ws, num)
    ensures forall num: nat :: Complete(ws[w := v], num) <==> Complete(ws, num)
  {
    hide Has;
    forall num: nat
      ensures Count(ws[w := v], num) == Count(ws, num)
      ensures Complete(ws[w := v], num) <==> Complete(ws, num)
    {
      CountUpdate(ws, w, v, num);
      CountAll(ws, num);
      CountAll(ws[w := v], num);
    }
  }

  lemma QuietKeepsOrder(ws: seq<Worker>, fired: seq<nat>, w: nat, v: Worker)
    requires w < |ws| && Quiet(ws[w], v) && FiringOrder(ws, fired)
    ensures FiringOrder(ws[w := v], fired)
  {
    hide Has, Count;
    QuietSame(ws[w], v);
    SameReports(ws, w, v);
    var us := ws[w := v];
    hide Complete;
    forall num: nat | Complete(us, num) && num !in fired ensures SomeHolds(us, num) {
      var i :| 0 <= i < |ws| && Holds(ws[i], num);
      assert Holds(us[i], num);
    }
    forall i | 0 <= i < |us| && Active(us[i]) ensures Leads(us, fired, us[i]) {
      assert Leads(ws, fired, ws[i]);
    }
  }

  lemma QuietKeepsCounts(ws: seq<Worker>, counts: map<nat, nat>, fired: seq<nat>, w: nat, v: Worker)
    requires w < |ws| && Quiet(ws[w], v) && CountsMatch(ws, counts, fired)
    ensures CountsMatch(ws[w := v], counts, fired)
  {
    hide Has, Count;
    QuietSame(ws[w], v);
    SameReports(ws, w, v);
    var us := ws[w := v];
    hide Complete;
    forall num: nat ensures SomeTriggered(us, num) <==> SomeTriggered(ws, num) {
      if SomeTriggered(ws, num) {
        var i :| 0 <= i < |ws| && ws[i].pc.Triggered? && Last(ws[i]) == num;
        assert us[i].pc.Triggered? && Last(us[i]) == num;
      }
      if SomeTriggered(us, num) {
        var i :| 0 <= i < |us| && us[i].pc.Triggered? && Last(us[i]) == num;
        assert ws[i].pc.Triggered? && Last(ws[i]) == num;
      }
    }
  }

  // ---- Reporting, erasing and firing ----

  /** v is writer w after reporting its next batch: it fires exactly when that completes the batch. */
  ghost predicate Reports(ws: seq<Worker>, w: nat, v: Worker) {
    && w < |ws| && !Active(ws[w]) && !ws[w].threw
    && ws[w].reported < |ws[w].accepted| && v.accepted == ws[w].accepted && v.reported == ws[w].reported + 1
    && !v.threw && !v.pc.Firing?
    && (v.pc.Triggered? <==> Complete(ws[w := v], Last(v)))
  }

  lemma CompleteAfterReport(ws: seq<Worker>, w: nat, v: Worker, num: nat)
    requires AllOrderly(ws) && Reports(ws, w, v)
    ensures num != Last(v) ==> (Complete(ws[w := v], num) <==> Complete(ws, num))
    ensures num != Last(v) ==> Count(ws[w := v], num) == Count(ws, num)
    ensures !Complete(ws, Last(v)) && Count(ws[w := v], Last(v)) == Count(ws, Last(v)) + 1
    ensures Complete(ws, num) ==> num < Last(v)
  {
    hide Has, Count, Orderly;
    assert Orderly(ws[w]);
    ReportAdds(ws[w], v, num);
    ReportAdds(ws[w], v, Last(v));
    CountUpdate(ws, w, v, num);
    CountUpdate(ws, w, v, Last(v));
    CountAll(ws, num);
    CountAll(ws[w := v], num);
  }

  lemma ReportFollows(ws: seq<Worker>, fired: seq<nat>, w: nat, v: Worker)
    requires FiringOrder(ws, fired) && AllOrderly(ws) && Reports(ws, w, v)
    ensures forall k | 0 <= k < |fired| :: fired[k] < Last(v)
    ensures Complete(ws[w := v], Last(v)) ==> forall i | 0 <= i < |ws| :: !Active(ws[i])
  {
    hide Has, Count, Orderly;
    forall k | 0 <= k < |fired| ensures fired[k] < Last(v) {
      CompleteAfterReport(ws, w, v, fired[k]);
    }
    if Complete(ws[w := v], Last(v)) {
      forall i | 0 <= i < |ws| ensures !Active(ws[i]) {
        if Active(ws[i]) {
          ActiveIsOlder(ws, fired, w, v, i);
        }
      }
    }
  }

  /** A firing writer has not reported the batch that writer w is about to complete. */
  lemma ActiveIsOlder(ws: seq<Worker>, fired: seq<nat>, w: nat, v: Worker, i: nat)
    requires FiringOrder(ws, fired) && AllOrderly(ws) && Reports(ws, w, v)
    requires i < |ws| && Active(ws[i])
    ensures !Complete(ws[w := v], Last(v))
  {
    hide Has, Count, Orderly;
    assert Leads(ws, fired, ws[i]);
    CompleteAfterReport(ws, w, v, Last(ws[i]));
    assert Orderly(ws[i]);
    LastIsGreatest(ws[i], Last(v));
    assert ws[w := v][i] == ws[i];
  }

  lemma ReportKeepsOrder(ws: seq<Worker>, fired: seq<nat>, w: nat, v: Worker)
    requires FiringOrder(ws, fired) && AllOrderly(ws) && Reports(ws, w, v)
    ensures FiringOrder(ws[w := v], fired)
  {
    hide Has, Count, Orderly, Complete;
    var us := ws[w := v];
    ReportFollows(ws, fired, w, v);
    forall num: nat ensures Complete(ws, num) ==> Complete(us, num) {
      CompleteAfterReport(ws, w, v, num);
    }
    forall num: nat | Complete(us, num) && num !in fired ensures SomeHolds(us, num) {
      CompleteAfterReport(ws, w, v, num);
      if num == Last(v) {
        assert Holds(us[w], num);
      } else {
        var i :| 0 <= i < |ws| && Holds(ws[i], num);
        assert Holds(us[i], num);
      }
    }
    forall i | 0 <= i < |us| && Active(us[i]) ensures Leads(us, fired, us[i]) {
      if i != w { assert Leads(ws, fired, ws[i]); }
    }
  }

  lemma ReportKeepsCounts(ws: seq<Worker>, counts: map<nat, nat>, fired: seq<nat>, w: nat, v: Worker)
    requires FiringOrder(ws, fired) && CountsMatch(ws, counts, fired)
    requires AllOrderly(ws) && Reports(ws, w, v)
    ensures CountsMatch(ws[w := v], counts[Last(v) := Count(ws[w := v], Last(v))], fired)
  {
    hide Has, Count, Orderly, Complete, FiringOrder;
    var us := ws[w := v];
    ReportFollows(ws, fired, w, v);
    CompleteAfterReport(ws, w, v, Last(v));
    assert Complete(us, Last(v)) ==> us[w].pc.Triggered? && Last(us[w]) == Last(v);
    forall num: nat | num != Last(v)
      ensures Count(us, num) == Count(ws, num) && (Pending(us, fired, num) <==> Pending(ws, fired, num))
    {
      CompleteAfterReport(ws, w, v, num);
      if SomeTriggered(ws, num) {
        var i :| 0 <= i < |ws| && ws[i].pc.Triggered? && Last(ws[i]) == num;
        assert us[i].pc.Triggered? && Last(us[i]) == num;
      }
      if SomeTriggered(us, num) {
        var i :| 0 <= i < |us| && us[i].pc.Triggered? && Last(us[i]) == num;
        assert ws[i].pc.Triggered? && Last(ws[i]) == num;
      }
    }
  }

  /** The counter reaches N exactly when the report completes the batch, and never passes it. */
  lemma ArriveCounts(ws: seq<Worker>, counts: map<nat, nat>, fired: seq<nat>, num: nat, count: nat)
    requires CountsMatch(ws, counts, fired) && ws != []
    requires !Complete(ws, num) && num !in fired && count == Count(ws, num) + 1
    ensures var (counts', outcome) := Rendezvous.Arrive(|ws|, counts, num);
            && outcome == (if count == |ws| then Completed else Counted)
            && counts' == if |ws| > 1 then counts[num := count] else counts
  {
    hide Has, Count;
    CountAll(ws, num);
    hide Complete;
    assert |ws| > 1 ==> (num in counts <==> Pending(ws, fired, num));
  }

  lemma EraseKeepsRendezvous(ws: seq<Worker>, counts: map<nat, nat>, fired: seq<nat>, w: nat, v: Worker)
    requires w < |ws| && ws[w].pc.Triggered? && v == ws[w].(pc := Firing) && Orderly(ws[w])
    requires FiringOrder(ws, fired) && CountsMatch(ws, counts, fired)
    ensures FiringOrder(ws[w := v], fired) && CountsMatch(ws[w := v], counts - {Last(v)}, fired)
  {
    hide Has, Count;
    QuietSame(ws[w], v);
    SameReports(ws, w, v);
    var us := ws[w := v];
    assert Leads(ws, fired, ws[w]);
    hide Complete;
    forall num: nat | Complete(us, num) && num !in fired ensures SomeHolds(us, num) {
      var i :| 0 <= i < |ws| && Holds(ws[i], num);
      assert Holds(us[i], num);
    }
    forall i | 0 <= i < |us| && Active(us[i]) ensures Leads(us, fired, us[i]) {
      assert Leads(ws, fired, ws[i]);
    }
    assert forall i | 0 <= i < |ws| && Active(ws[i]) :: Active(ws[w]) && i == w;
    forall num: nat ensures !SomeTriggered(us, num) && (SomeTriggered(ws, num) <==> num == Last(v)) {
      assert num == Last(v) ==> ws[w].pc.Triggered? && Last(ws[w]) == num;
    }
  }

  lemma FireKeepsRendezvous(ws: seq<Worker>, counts: map<nat, nat>, fired: seq<nat>, w: nat, v: Worker)
    requires w < |ws| && ws[w].pc.Firing? && v == ws[w].(pc := Reported) && Orderly(ws[w])
    requires FiringOrder(ws, fired) && CountsMatch(ws, counts, fired)
    ensures FiringOrder(ws[w := v], fired + [Last(v)]) && CountsMatch(ws[w := v], counts, fired + [Last(v)])
  {
    hide Has, Count;
    QuietSame(ws[w], v);
    SameReports(ws, w, v);
    var us, fired' := ws[w := v], fired + [Last(v)];
    assert Leads(ws, fired, ws[w]);
    hide Complete;
    forall num: nat | Complete(us, num) && num !in fired' ensures SomeHolds(us, num) {
      assert num !in fired && num != Last(v) by { assert fired'[|fired|] == Last(v); Prefix(fired, fired', num); }
      var i :| 0 <= i < |ws| && Holds(ws[i], num);
      assert Holds(us[i], num);
    }
    assert forall i | 0 <= i < |us| :: !Active(us[i]) by {
      assert forall i | 0 <= i < |ws| && Active(ws[i]) :: Active(ws[w]) && i == w;
    }
    forall num: nat ensures !SomeTriggered(us, num) && !SomeTriggered(ws, num) {
    }
    forall num: nat ensures num in fired' <==> num in fired || num == Last(v) {
    }
  }

  lemma Prefix(fired: seq<nat>, fired': seq<nat>, num: nat)
    requires fired <= fired' && num !in fired'
    ensures num !in fired
  {
    assert forall k | 0 <= k < |fired| :: fired[k] == fired'[k];
  }

  // ---- Rows in the database ----

  lemma StoringKeepsStoredOnce(s: State, w: nat, v: Worker, t: State)
    requires StoredOnce(s) && w < |s.ws| && HasCurrent(s.ws[w]) && Rising(s.ws[w].accepted)
    requires s.ws[w].committed + 1 == s.ws[w].popped && v.committed == s.ws[w].popped
    requires v.accepted == s.ws[w].accepted
    requires t.ws == s.ws[w := v] && t.db == s.db + Rows(w, Current(s.ws[w]))
    ensures StoredOnce(t)
  {
    var us := s.ws[w := v];
    var c := Current(s.ws[w]);
    forall id: RowId
      ensures (s.db + Rows(w, c))[id] == if IsStored(us, id) then 1 else 0
    {
      var added := id.writer == w && id.batch == c.num && id.index < c.rows;
      assert Rows(w, c)[id] == if added then 1 else 0;
      if IsStored(s.ws, id) && id.writer == w {
        var j :| 0 <= j < s.ws[w].committed && j < |s.ws[w].accepted|
          && s.ws[w].accepted[j].num == id.batch && id.index < s.ws[w].accepted[j].rows;
        assert s.ws[w].accepted[j].num < c.num;
        assert us[w].accepted[j] == s.ws[w].accepted[j];
      }
      assert added ==> us[w].accepted[s.ws[w].popped - 1] == c;
      assert IsStored(us, id) <==> IsStored(s.ws, id) || added;
    }
  }

  lemma SameRowsKeepStoredOnce(s: State, w: nat, v: Worker, t: State)
    requires StoredOnce(s) && w < |s.ws|
    requires v.committed == s.ws[w].committed <= |s.ws[w].accepted| && s.ws[w].accepted <= v.accepted
    requires t.ws == s.ws[w := v] && t.db == s.db
    ensures StoredOnce(t)
  {
    forall id: RowId ensures IsStored(t.ws, id) <==> IsStored(s.ws, id) {
      if id.writer == w && w < |s.ws| {
        assert forall j | 0 <= j < v.committed :: t.ws[w].accepted[j] == s.ws[w].accepted[j];
      }
    }
  }

  lemma SameStored(s: State, t: State)
    requires StoredOnce(s) && t.ws == s.ws && t.db == s.db
    ensures StoredOnce(t)
  {
  }

  // ---- Every step keeps all of it ----

  /** One worker moved on without accepting anything; the counters may have changed. */
  lemma OneWorkerDelivered(s: State, w: nat, v: Worker, t: State)
    requires Delivery(s) && w < |s.ws| && Consistent(v) && v.accepted == s.ws[w].accepted
    requires t.ws == s.ws[w := v] && t.batches == s.batches && t.next == s.next
    ensures Delivery(t)
  {
    hide Consistent, Increasing, IsPart;
    assert WriterOk(s, w);
    forall i | 0 <= i < |t.ws| ensures WriterOk(t, i) {
      if i != w {
        SameWriter(s, t, i);
      } else {
        SameOffers(s, t, w);
      }
    }
  }

  lemma SameOffers(s: State, t: State, w: nat)
    requires t.batches == s.batches && t.next == s.next
    ensures forall c :: WasOffered(s, w, c) <==> WasOffered(t, w, c)
  {
    forall c ensures WasOffered(s, w, c) <==> WasOffered(t, w, c) {
      if WasOffered(s, w, c) {
        var j :| IsPart(s, w, c, j);
        assert IsPart(t, w, c, j);
      }
      if WasOffered(t, w, c) {
        var j :| IsPart(t, w, c, j);
        assert IsPart(s, w, c, j);
      }
    }
  }

  lemma WorkKeepsDelivery(s: State, w: nat, e: Event)
    requires Delivery(s) && w < |s.ws| && Internal(s.ws[w], e)
    ensures Delivery(WorkStep(s, w, e))
  {
    hide Increasing, WasOffered;
    assert WriterOk(s, w);
    NextConsistent(s.ws[w], e);
    OneWorkerDelivered(s, w, Next(s.ws[w], e), WorkStep(s, w, e)) by { hide Consistent; }
  }

  lemma WorkKeepsStored(s: State, w: nat, e: Event)
    requires Delivery(s) && StoredOnce(s) && w < |s.ws| && Internal(s.ws[w], e)
    ensures StoredOnce(WorkStep(s, w, e))
  {
    hide StoredOnce, Increasing, WasOffered;
    assert WriterOk(s, w);
    var v := Next(s.ws[w], e);
    if e.Commit? || (e.Throw? && e.stored) {
      StoringKeepsStoredOnce(s, w, v, WorkStep(s, w, e));
    } else {
      SameRowsKeepStoredOnce(s, w, v, WorkStep(s, w, e));
    }
  }

  /** A firing worker's chunk is the one it reported last. */
  lemma ActiveIsLast(v: Worker, e: Event)
    requires Orderly(v) && Active(v) && Enabled(v, e) && (e.Erase? || e.Fire?)
    ensures HasCurrent(v) && Current(v).num == Last(v) == Last(Next(v, e))
  {
  }

  lemma OtherStepsQuiet(v: Worker, e: Event)
    requires Orderly(v) && Internal(v, e) && !e.Erase? && !e.Fire?
    ensures Quiet(v, Next(v, e))
  {
  }

  lemma WorkKeepsRendezvous(s: State, w: nat, e: Event)
    requires Delivery(s) && FiringOrder(s.ws, s.fired) && CountsMatch(s.ws, s.counts, s.fired)
    requires w < |s.ws| && Internal(s.ws[w], e)
    ensures var t := WorkStep(s, w, e); FiringOrder(t.ws, t.fired) && CountsMatch(t.ws, t.counts, t.fired)
  {
    hide Delivery, FiringOrder, CountsMatch, Orderly, Quiet;
    var v := Next(s.ws[w], e);
    DeliveryOrderly(s);
    assert Orderly(s.ws[w]);
    if e.Erase? {
      ActiveIsLast(s.ws[w], e);
      EraseKeepsRendezvous(s.ws, s.counts, s.fired, w, v);
    } else if e.Fire? {
      ActiveIsLast(s.ws[w], e);
      FireKeepsRendezvous(s.ws, s.counts, s.fired, w, v);
    } else {
      OtherStepsQuiet(s.ws[w], e);
      QuietKeepsOrder(s.ws, s.fired, w, v);
      QuietKeepsCounts(s.ws, s.counts, s.fired, w, v);
    }
  }

  /** A worker about to report is at the first chunk it has not reported. */
  lemma ReportsNext(v: Worker, e: Event)
    requires Orderly(v) && v.pc.Processed? && e.Report? && !e.outcome.Rejected?
    ensures HasCurrent(v) && v.reported < |v.accepted| && !v.threw && !Active(v)
    ensures Current(v).num == v.accepted[v.reported].num == Last(Next(v, e))
  {
  }

  lemma ReportOutcome(s: State, w: nat)
    requires Delivery(s) && FiringOrder(s.ws, s.fired) && CountsMatch(s.ws, s.counts, s.fired)
    requires w < |s.ws| && s.ws[w].pc.Processed? && HasCurrent(s.ws[w])
    ensures var t := ReportStep(s, w);
            && Reports(s.ws, w, t.ws[w])
            && t.counts == if |s.ws| > 1 then s.counts[Last(t.ws[w]) := Count(t.ws, Last(t.ws[w]))] else s.counts
  {
    hide Delivery, FiringOrder, CountsMatch, Orderly, Has, Count, Rendezvous.Arrive, Complete;
    DeliveryOrderly(s);
    var v := s.ws[w];
    assert Orderly(v);
    ReportsNext(v, Report(Counted));
    ReportsNext(v, Report(Completed));
    var num := Current(v).num;
    var u := v.(pc := Triggered, reported := v.reported + 1);
    var us := s.ws[w := u];
    NewlyReported(s.ws, s.fired, w, u);
    ArriveCounts(s.ws, s.counts, s.fired, num, Count(us, num));
    CountAll(us, num);
    var t := ReportStep(s, w);
    QuietSame(u, t.ws[w]);
    SameReports(us, w, t.ws[w]);
    assert us[w := t.ws[w]] == t.ws;
  }

  /** The batch a writer reports next is neither complete nor published. */
  lemma NewlyReported(ws: seq<Worker>, fired: seq<nat>, w: nat, u: Worker)
    requires FiringOrder(ws, fired) && AllOrderly(ws)
    requires w < |ws| && ws[w].reported < |ws[w].accepted|
    requires u.accepted == ws[w].accepted && u.reported == ws[w].reported + 1
    ensures !Complete(ws, Last(u)) && Last(u) !in fired && Count(ws[w := u], Last(u)) == Count(ws, Last(u)) + 1
  {
    hide Has, Count, Orderly;
    assert Orderly(ws[w]);
    ReportAdds(ws[w], u, Last(u));
    CountUpdate(ws, w, u, Last(u));
    assert !Complete(ws, Last(u));
  }

  lemma ReportKeepsRendezvous(s: State, w: nat)
    requires Delivery(s) && FiringOrder(s.ws, s.fired) && CountsMatch(s.ws, s.counts, s.fired)
    requires w < |s.ws| && s.ws[w].pc.Processed? && HasCurrent(s.ws[w])
    ensures var t := ReportStep(s, w); FiringOrder(t.ws, t.fired) && CountsMatch(t.ws, t.counts, t.fired)
  {
    hide Delivery, FiringOrder, Reports, Rendezvous.Arrive, Next, Orderly, Has, Count, Complete;
    ReportOutcome(s, w);
    DeliveryOrderly(s);
    var u := ReportStep(s, w).ws[w];
    ReportKeepsOrder(s.ws, s.fired, w, u);
    ReportKeepsCounts(s.ws, s.counts, s.fired, w, u);
  }

  lemma ReportKeepsRest(s: State, w: nat)
    requires Delivery(s) && StoredOnce(s)
    requires w < |s.ws| && s.ws[w].pc.Processed? && HasCurrent(s.ws[w])
    ensures Delivery(ReportStep(s, w)) && StoredOnce(ReportStep(s, w))
  {
    hide StoredOnce, Rendezvous.Arrive, Increasing, WasOffered;
    var e := Report(Rendezvous.Arrive(|s.ws|, s.counts, Current(s.ws[w]).num).1);
    var v := Next(s.ws[w], e);
    assert WriterOk(s, w);
    NextConsistent(s.ws[w], e);
    OneWorkerDelivered(s, w, v, ReportStep(s, w));
    SameRowsKeepStoredOnce(s, w, v, ReportStep(s, w));
  }

  /** What a writer accepted before stays offered, and is older than the batch it is offered now. */
  lemma OlderChunks(s: State, t: State, w: nat)
    requires Delivery(s) && w == s.next < |s.ws| && s.batches != [] && t.batches == s.batches && t.next == w + 1
    ensures forall j | 0 <= j < |s.ws[w].accepted| ::
              s.ws[w].accepted[j].num < LastNum(s) && WasOffered(t, w, s.ws[w].accepted[j])
  {
    hide Orderly;
    var cs := s.ws[w].accepted;
    assert WriterOk(s, w);
    forall j | 0 <= j < |cs| ensures cs[j].num < LastNum(s) && WasOffered(t, w, cs[j]) {
      assert WasOffered(s, w, cs[j]);
      var b :| IsPart(s, w, cs[j], b);
      assert IsPart(t, w, cs[j], b);
    }
  }

  lemma EnqueueOrderly(v: Worker, c: Chunk)
    requires Orderly(v) && Enabled(v, Enqueue(c)) && forall j | 0 <= j < |v.accepted| :: v.accepted[j].num < c.num
    ensures var v' := Next(v, Enqueue(c)); Orderly(v') && (v' == v || v'.accepted == v.accepted + [c])
  {
    hide Consistent;
    NextConsistent(v, Enqueue(c));
  }

  lemma OfferDelivers(s: State)
    requires Delivery(s) && CanOffer(s)
    ensures WriterOk(Step(s, Offer).value, s.next)
  {
    hide Orderly, Increasing, WasOffered, Next, Enabled;
    var w, c, t := s.next, Offered(s), Step(s, Offer).value;
    assert WriterOk(s, w);
    OlderChunks(s, t, w);
    EnqueueOrderly(s.ws[w], c);
    NewChunk(t, w, c);
  }

  lemma NewChunk(t: State, w: nat, c: Chunk)
    requires w < t.next && t.batches != [] && IsPart(t, w, c, |t.batches| - 1)
    ensures WasOffered(t, w, c)
  {
  }

  lemma OfferKeepsDelivery(s: State)
    requires Delivery(s) && CanOffer(s)
    ensures Delivery(Step(s, Offer).value)
  {
    hide WriterOk, Next, Enabled, Increasing;
    var t := Step(s, Offer).value;
    OfferDelivers(s);
    forall i | 0 <= i < |t.ws| && i != s.next ensures WriterOk(t, i) {
      SameWriter(s, t, i);
    }
  }

  lemma OfferKeepsRest(s: State)
    requires Good(s) && CanOffer(s)
    ensures var t := Step(s, Offer).value;
            StoredOnce(t) && FiringOrder(t.ws, t.fired) && CountsMatch(t.ws, t.counts, t.fired)
  {
    hide StoredOnce, FiringOrder, CountsMatch, Increasing, WasOffered;
    var v := Next(s.ws[s.next], Enqueue(Offered(s)));
    assert WriterOk(s, s.next);
    SameRowsKeepStoredOnce(s, s.next, v, Step(s, Offer).value);
    QuietKeepsOrder(s.ws, s.fired, s.next, v);
    QuietKeepsCounts(s.ws, s.counts, s.fired, s.next, v);
  }

  lemma StartKeepsDelivery(s: State, b: Batch)
    requires Delivery(s) && s.next == |s.ws| && |b.rows| == |s.ws| && b.num > LastNum(s)
    ensures Delivery(s.(batches := s.batches + [b], next := 0))
  {
    hide Orderly;
    var t := s.(batches := s.batches + [b], next := 0);
    assert forall j | 0 <= j < |s.batches| :: t.batches[j] == s.batches[j];
    forall i | 0 <= i < |t.ws| ensures WriterOk(t, i) {
      assert WriterOk(s, i);
      forall j | 0 <= j < |t.ws[i].accepted| ensures WasOffered(t, i, t.ws[i].accepted[j]) {
        assert WasOffered(s, i, s.ws[i].accepted[j]);
        var k :| IsPart(s, i, s.ws[i].accepted[j], k);
        assert IsPart(t, i, t.ws[i].accepted[j], k);
      }
    }
  }

  /** Every step of every run keeps the invariant, whoever cancels whatever and when. */
  lemma StepKeepsGood(s: State, a: Action)
    requires Good(s) && Step(s, a).Some?
    ensures Good(Step(s, a).value)
  {
    hide Delivery, StoredOnce, FiringOrder, CountsMatch, Next, Enabled;
    match a
    case Start(num, rows) =>
      StartKeepsDelivery(s, Batch(num, rows));
      SameStored(s, Step(s, a).value);
    case Offer =>
      OfferKeepsDelivery(s);
      OfferKeepsRest(s);
    case ReportTo(w) =>
      ReportKeepsRest(s, w);
      ReportKeepsRendezvous(s, w);
    case Work(w, e) =>
      WorkKeepsDelivery(s, w, e);
      WorkKeepsStored(s, w, e);
      WorkKeepsRendezvous(s, w, e);
  }

  lemma InitGood(n: nat)
    requires n >= 1
    ensures Good(Init(n))
  {
    forall num: nat ensures !Complete(Init(n).ws, num) && Count(Init(n).ws, num) == 0 {
      assert !Has(Init(n).ws[0], num);
      NoneReported(Init(n).ws, num);
    }
  }

  lemma {:induction false} NoneReported(ws: seq<Worker>, num: nat)
    requires forall i | 0 <= i < |ws| :: ws[i] == IDLE
    ensures Count(ws, num) == 0
  {
    if ws != [] { NoneReported(ws[1..], num); }
  }

  lemma {:induction false} RunKeepsGood(s: State, run: seq<Action>)
    requires Good(s) && Run(s, run).Some?
    ensures Good(Run(s, run).value)
    decreases |run|
  {
    hide Good, Step;
    if run != [] {
      StepKeepsGood(s, run[0]);
      RunKeepsGood(Step(s, run[0]).value, run[1..]);
    }
  }

  // ---- The guarantees of every run ----

  /** s is where some interleaving of n writers ends. */
  ghost predicate Reaches(n: nat, s: State) {
    exists run :: Run(Init(n), run) == Some(s)
  }

  lemma ReachesGood(n: nat, s: State)
    requires n >= 1 && Reaches(n, s)
    ensures Good(s)
  {
    hide Good, Run, Init;
    var run :| Run(Init(n), run) == Some(s);
    InitGood(n);
    RunKeepsGood(Init(n), run);
  }

  lemma RunReaches(n: nat, run: seq<Action>, s: State)
    requires n >= 1 && Run(Init(n), run) == Some(s)
    ensures Reaches(n, s) && Good(s) && s.batches == Started(run)
  {
    hide Good, Run, Started;
    assert Reaches(n, s);
    ReachesGood(n, s);
    RunStarts(Init(n), run);
  }

  ghost predicate IsBatch(bs: seq<Batch>, num: nat) {
    exists j :: 0 <= j < |bs| && bs[j].num == num
  }

  /** Calls of the triggered function are strictly increasing, each for a started batch, and never overlap. */
  lemma FiringsOrdered(n: nat, run: seq<Action>, s: State)
    requires n >= 1 && Run(Init(n), run) == Some(s)
    ensures forall i, k | 0 <= i < k < |s.fired| :: s.fired[i] < s.fired[k]
    ensures forall k | 0 <= k < |s.fired| :: IsBatch(Started(run), s.fired[k])
    ensures forall i, k | 0 <= i < |s.ws| && 0 <= k < |s.ws| && Active(s.ws[i]) && Active(s.ws[k]) :: i == k
  {
    hide Run, Started, StoredOnce, CountsMatch, Orderly;
    RunReaches(n, run, s);
    forall k | 0 <= k < |s.fired| ensures IsBatch(s.batches, s.fired[k]) {
      assert Complete(s.ws, s.fired[k]);
      assert Has(s.ws[0], s.fired[k]);
      var j := PartOf(s, 0, s.fired[k]);
    }
  }

  /** The batch a writer's accepted chunk belongs to. */
  lemma PartOf(s: State, w: nat, num: nat) returns (j: nat)
    requires Delivery(s) && w < |s.ws| && Took(s.ws[w], num)
    ensures j < OfferedTo(s, w) && s.batches[j].num == num && w < |s.batches[j].rows|
    ensures exists a :: 0 <= a < |s.ws[w].accepted| && s.ws[w].accepted[a] == Chunk(num, s.batches[j].rows[w])
  {
    hide Orderly;
    assert WriterOk(s, w);
    var a :| 0 <= a < |s.ws[w].accepted| && s.ws[w].accepted[a].num == num;
    assert WasOffered(s, w, s.ws[w].accepted[a]);
    j :| IsPart(s, w, s.ws[w].accepted[a], j);
  }

  lemma TookIsKnown(s: State, w: nat, num: nat)
    requires Delivery(s) && w < |s.ws|
    ensures Took(s.ws[w], num) ==> num <= LastNum(s)
    ensures Has(s.ws[w], num) ==> Took(s.ws[w], num)
  {
    if Took(s.ws[w], num) {
      var j := PartOf(s, w, num);
    }
  }

  /** While nobody is firing and nobody has failed, a batch is published exactly when all have reported it. */
  lemma FiredIffComplete(n: nat, s: State, num: nat)
    requires n >= 1 && Reaches(n, s)
    requires forall i | 0 <= i < |s.ws| :: !Active(s.ws[i]) && !s.ws[i].threw
    ensures num in s.fired <==> Complete(s.ws, num)
  {
    hide Reaches, StoredOnce, CountsMatch, Orderly, Has;
    ReachesGood(n, s);
    FiredWhenSettled(s, num);
  }

  lemma FiredComplete(ws: seq<Worker>, fired: seq<nat>, num: nat)
    requires AllComplete(ws, fired)
    ensures num in fired ==> Complete(ws, num)
  {
    hide Complete;
  }

  lemma FiredWhenSettled(s: State, num: nat)
    requires FiringOrder(s.ws, s.fired) && forall i | 0 <= i < |s.ws| :: !Active(s.ws[i]) && !s.ws[i].threw
    ensures num in s.fired <==> Complete(s.ws, num)
  {
    hide Has;
    assert !SomeHolds(s.ws, num);
    FiredComplete(s.ws, s.fired, num);
  }

  ghost predicate RowsStored(db: multiset<RowId>, b: Batch) {
    forall w, p | 0 <= w < |b.rows| && 0 <= p < b.rows[w] :: db[RowId(b.num, w, p)] == 1
  }

  lemma SameBatch(bs: seq<Batch>, i: nat, j: nat)
    requires Increasing(bs) && i < |bs| && j < |bs| && bs[i].num == bs[j].num
    ensures i == j
  {
  }

  /** What a writer accepted up to a published batch is committed. */
  lemma TookIsStored(s: State, k: nat, j: nat, w: nat, p: nat)
    requires Good(s) && k < |s.fired| && j < |s.batches| && s.batches[j].num <= s.fired[k]
    requires w < |s.ws| && Took(s.ws[w], s.batches[j].num)
    requires w < |s.batches[j].rows| && p < s.batches[j].rows[w]
    ensures s.db[RowId(s.batches[j].num, w, p)] == 1
  {
    hide CountsMatch, Count, WasOffered;
    var v, num := s.ws[w], s.batches[j].num;
    assert WriterOk(s, w) && Complete(s.ws, s.fired[k]);
    var b :| 0 <= b < v.reported && b < |v.accepted| && v.accepted[b].num == s.fired[k];
    var i := PartOf(s, w, num);
    SameBatch(s.batches, i, j);
    var a :| 0 <= a < |v.accepted| && v.accepted[a] == Chunk(num, s.batches[j].rows[w]);
    assert a <= b;
    assert IsStored(s.ws, RowId(num, w, p));
  }

  /** Every writer with rows in the batch has accepted it. */
  ghost predicate AllTook(ws: seq<Worker>, b: Batch) {
    forall w | 0 <= w < |b.rows| && w < |ws| && b.rows[w] > 0 :: Took(ws[w], b.num)
  }

  lemma MissedIsNotStored(s: State, w: nat, num: nat, p: nat)
    requires StoredOnce(s) && w < |s.ws| && !Took(s.ws[w], num)
    ensures s.db[RowId(num, w, p)] == 0
  {
    assert !IsStored(s.ws, RowId(num, w, p));
  }

  /**
   * The consistency frontier, exactly: behind a published batch the rows that the run gave for an
   * earlier one (or for that one) are all in the database if and only if every writer with rows for
   * it accepted it. No row is ever there twice.
   */
  lemma FrontierIff(n: nat, run: seq<Action>, s: State, k: nat, b: Batch)
    requires n >= 1 && Run(Init(n), run) == Some(s) && k < |s.fired| && b in Started(run) && b.num <= s.fired[k]
    ensures RowsStored(s.db, b) <==> AllTook(s.ws, b)
    ensures forall id: RowId :: s.db[id] <= 1
  {
    hide Run, Started, CountsMatch, WriterOk, FiringOrder, Took, IsStored;
    RunReaches(n, run, s);
    var j :| 0 <= j < |s.batches| && s.batches[j] == b;
    if AllTook(s.ws, b) {
      forall w, p | 0 <= w < |b.rows| && 0 <= p < b.rows[w] ensures s.db[RowId(b.num, w, p)] == 1 {
        TookIsStored(s, k, j, w, p);
      }
    }
    if RowsStored(s.db, b) {
      forall w | 0 <= w < |b.rows| && w < |s.ws| && b.rows[w] > 0 ensures Took(s.ws[w], b.num) {
        assert s.db[RowId(b.num, w, 0)] == 1;
        if !Took(s.ws[w], b.num) { MissedIsNotStored(s, w, b.num, 0); }
      }
    }
  }

  /** A batch that the run was given and has published is complete in the database. */
  lemma PublishedIsStored(n: nat, run: seq<Action>, s: State, b: Batch)
    requires n >= 1 && Run(Init(n), run) == Some(s) && b in Started(run) && b.num in s.fired
    ensures RowsStored(s.db, b)
  {
    hide Run, Started, CountsMatch, RowsStored, StoredOnce;
    RunReaches(n, run, s);
    var k :| 0 <= k < |s.fired| && s.fired[k] == b.num;
    assert Complete(s.ws, s.fired[k]);
    forall w | 0 <= w < |s.ws| ensures Took(s.ws[w], b.num) {
      assert Has(s.ws[w], s.fired[k]);
    }
    FrontierIff(n, run, s, k, b);
  }

  /** The row is one of those meant for its writer in the batch. */
  predicate IsRowOf(b: Batch, id: RowId) {
    b.num == id.batch && id.writer < |b.rows| && id.index < b.rows[id.writer]
  }

  /** Nothing else is in the database: every row there was given by the run. */
  lemma StoredWasGiven(n: nat, run: seq<Action>, s: State, id: RowId)
    requires n >= 1 && Run(Init(n), run) == Some(s) && s.db[id] > 0
    ensures exists b :: b in Started(run) && IsRowOf(b, id)
  {
    hide Run, Started, CountsMatch, FiringOrder, Orderly, Increasing;
    RunReaches(n, run, s);
    assert IsStored(s.ws, id) && WriterOk(s, id.writer);
    var v := s.ws[id.writer];
    var a :| 0 <= a < v.committed && a < |v.accepted| && v.accepted[a].num == id.batch && id.index < v.accepted[a].rows;
    assert WasOffered(s, id.writer, v.accepted[a]);
    var j :| IsPart(s, id.writer, v.accepted[a], j);
    assert IsRowOf(s.batches[j], id) && s.batches[j] in s.batches;
  }

  lemma GoodDelivery(s: State)
    requires Good(s)
    ensures Delivery(s) && Shape(s)
  {
    hide StoredOnce, FiringOrder, CountsMatch, WriterOk;
  }

  lemma GoodRendezvous(s: State)
    requires Good(s)
    ensures Delivery(s) && FiringOrder(s.ws, s.fired) && CountsMatch(s.ws, s.counts, s.fired)
  {
    hide Delivery, FiringOrder, CountsMatch, StoredOnce;
  }

  // ---- Each writer is a processor ----

  ghost predicate AllReachable(ws: seq<Worker>) {
    forall i | 0 <= i < |ws| :: Reachable(ws[i])
  }

  lemma StepKeepsReachable(s: State, a: Action)
    requires AllReachable(s.ws) && Step(s, a).Some?
    ensures AllReachable(Step(s, a).value.ws)
  {
    hide Reachable, Rendezvous.Arrive, Next, Enabled;
    match a
    case Start(_, _) =>
    case Offer => NextReachable(s.ws[s.next], Enqueue(Offered(s)));
    case ReportTo(w) =>
      var outcome := Rendezvous.Arrive(|s.ws|, s.counts, Current(s.ws[w]).num).1;
      assert Enabled(s.ws[w], Report(outcome)) by { CanReport(s.ws[w], outcome); }
      NextReachable(s.ws[w], Report(outcome));
    case Work(w, e) => NextReachable(s.ws[w], e);
  }

  lemma CanReport(v: Worker, outcome: Outcome)
    requires v.pc.Processed?
    ensures Enabled(v, Report(outcome))
  {
  }

  lemma {:induction false} RunKeepsReachable(s: State, run: seq<Action>)
    requires AllReachable(s.ws) && Run(s, run).Some?
    ensures AllReachable(Run(s, run).value.ws)
    decreases |run|
  {
    hide AllReachable, Step;
    if run != [] {
      StepKeepsReachable(s, run[0]);
      RunKeepsReachable(Step(s, run[0]).value, run[1..]);
    }
  }

  /** What is proved of one processor holds of every writer of every run. */
  lemma WritersReachable(n: nat, s: State)
    requires Reaches(n, s)
    ensures AllReachable(s.ws)
  {
    hide Run, Reachable;
    var run :| Run(Init(n), run) == Some(s);
    assert Reachable(IDLE) by { FirstReachable(); }
    RunKeepsReachable(Init(n), run);
  }

  lemma FirstReachable()
    ensures Reachable(IDLE)
  {
    assert Perform(IDLE, []) == Some(IDLE);
  }

  // ---- Lost batches ----

  /** Writer w's turn for the batch is over. */
  predicate Passed(s: State, w: nat, num: nat) {
    num < LastNum(s) || (num == LastNum(s) && w < s.next)
  }

  /** Writer w dropped the batch, or is closed and will. */
  ghost predicate Missed(s: State, w: nat, num: nat)
    requires w < |s.ws|
  {
    !Took(s.ws[w], num) && (Passed(s, w, num) || !s.ws[w].cont)
  }

  /** Writer w missed the batch, or failed before reporting it. */
  ghost predicate Lost(s: State, w: nat, num: nat)
    requires w < |s.ws|
  {
    Missed(s, w, num) || (s.ws[w].threw && !Has(s.ws[w], num))
  }

  lemma SameAccepted(v: Worker, v': Worker, num: nat)
    requires v'.accepted == v.accepted
    ensures Took(v', num) <==> Took(v, num)
  {
  }

  lemma TookAppend(v: Worker, v': Worker, c: Chunk, num: nat)
    requires v'.accepted == v.accepted + [c]
    ensures Took(v', num) ==> Took(v, num) || c.num == num
  {
    if Took(v', num) && c.num != num {
      var j :| 0 <= j < |v'.accepted| && v'.accepted[j].num == num;
      assert v.accepted[j].num == num;
    }
  }

  lemma OfferKeepsMissed(s: State, num: nat)
    requires Shape(s) && CanOffer(s) && Missed(s, s.next, num)
    ensures Missed(Step(s, Offer).value, s.next, num)
  {
    hide Took;
    var v := s.ws[s.next];
    var v' := Next(v, Enqueue(Offered(s)));
    if Accepts(v) {
      TookAppend(v, v', Offered(s), num);
    }
  }

  /** One worker moved on without accepting anything. */
  lemma OneWorkerMissed(s: State, w: nat, v: Worker, t: State, i: nat, num: nat)
    requires i < |s.ws| && Missed(s, i, num) && w < |s.ws|
    requires v.accepted == s.ws[w].accepted && (!s.ws[w].cont ==> !v.cont)
    requires t.ws == s.ws[w := v] && t.batches == s.batches && t.next == s.next
    ensures Missed(t, i, num)
  {
    hide Took;
    SameAccepted(s.ws[w], v, num);
  }

  lemma NextAccepts(w: Worker, e: Event)
    requires Enabled(w, e) && !e.Enqueue?
    ensures Next(w, e).accepted == w.accepted && (!w.cont ==> !Next(w, e).cont)
  {
  }

  lemma StepKeepsMissed(s: State, a: Action, w: nat, num: nat)
    requires Good(s) && Step(s, a).Some? && w < |s.ws| && Missed(s, w, num)
    ensures var t := Step(s, a).value; |t.ws| == |s.ws| && s.batches <= t.batches && Missed(t, w, num)
  {
    hide StoredOnce, FiringOrder, CountsMatch, WriterOk, Increasing, Took, Rendezvous.Arrive, Next;
    var t := Step(s, a).value;
    match a
    case Start(_, _) =>
    case Offer => if s.next == w { OfferKeepsMissed(s, num); }
    case ReportTo(i) =>
      NextAccepts(s.ws[i], Report(Rendezvous.Arrive(|s.ws|, s.counts, Current(s.ws[i]).num).1));
      OneWorkerMissed(s, i, t.ws[i], t, w, num);
    case Work(i, e) =>
      NextAccepts(s.ws[i], e);
      OneWorkerMissed(s, i, t.ws[i], t, w, num);
  }

  lemma StepKeepsFailed(s: State, a: Action, w: nat, num: nat)
    requires Good(s) && Step(s, a).Some? && w < |s.ws| && s.ws[w].threw && !Has(s.ws[w], num)
    ensures var t := Step(s, a).value; |t.ws| == |s.ws| && t.ws[w].threw && !Has(t.ws[w], num)
  {
    hide StoredOnce, FiringOrder, CountsMatch, Increasing, WasOffered;
    assert WriterOk(s, w);
    var t := Step(s, a).value;
    if a.Offer? && s.next == w { NextExtends(s.ws[w], Enqueue(Offered(s))); }
    if a.Work? && a.w == w { NextExtends(s.ws[w], a.e); }
    hide Has;
    QuietSame(s.ws[w], t.ws[w]);
  }

  lemma {:induction false} LostForever(s: State, run: seq<Action>, w: nat, num: nat)
    requires Good(s) && Run(s, run).Some? && w < |s.ws| && Lost(s, w, num)
    ensures var t := Run(s, run).value;
            && |t.ws| == |s.ws| && Lost(t, w, num)
            && (Missed(s, w, num) ==> Missed(t, w, num) && s.batches <= t.batches)
    decreases |run|
  {
    hide Good, Step, Missed, Has;
    if run != [] {
      StepKeepsGood(s, run[0]);
      if Missed(s, w, num) {
        StepKeepsMissed(s, run[0], w, num);
      } else {
        StepKeepsFailed(s, run[0], w, num);
      }
      LostForever(Step(s, run[0]).value, run[1..], w, num);
    }
  }

  /** A batch that some writer dropped, failed on or is closed to is never published. */
  lemma LostNeverFires(n: nat, s: State, run: seq<Action>, w: nat, num: nat)
    requires n >= 1 && Reaches(n, s) && Run(s, run).Some?
    requires w < |s.ws| && Lost(s, w, num)
    ensures num !in Run(s, run).value.fired
  {
    hide Reaches, Run, Good, Lost;
    ReachesGood(n, s);
    RunKeepsGood(s, run);
    LostForever(s, run, w, num);
    LostIsNotFired(Run(s, run).value, w, num);
  }

  lemma LostIsNotFired(s: State, w: nat, num: nat)
    requires Good(s) && w < |s.ws| && Lost(s, w, num)
    ensures num !in s.fired
  {
    hide StoredOnce, CountsMatch, Delivery;
    assert Has(s.ws[w], num) ==> Took(s.ws[w], num);
    FiredComplete(s.ws, s.fired, num);
  }

  // ---- Runs without the race ----

  /** A writer holds a prefix of what it was offered, and a shorter one only when it is closed. */
  ghost predicate Delivered(s: State, w: nat)
    requires w < |s.ws|
  {
    var v := s.ws[w];
    && |v.accepted| <= OfferedTo(s, w)
    && (|v.accepted| < OfferedTo(s, w) ==> Closed(v))
    && (forall j | 0 <= j < |v.accepted| :: v.accepted[j].num == s.batches[j].num)
  }

  ghost predicate Prefixed(s: State) {
    forall w | 0 <= w < |s.ws| :: Delivered(s, w)
  }

  lemma OneWorkerPrefixed(s: State, w: nat, v: Worker, t: State)
    requires Prefixed(s) && w < |s.ws| && v.accepted == s.ws[w].accepted && (Closed(s.ws[w]) ==> Closed(v))
    requires t.ws == s.ws[w := v] && t.batches == s.batches && t.next == s.next
    ensures Prefixed(t)
  {
    hide Closed;
    forall i | 0 <= i < |t.ws| ensures Delivered(t, i) {
      assert Delivered(s, i);
    }
  }

  lemma StepKeepsPrefixed(s: State, a: Action)
    requires Good(s) && Prefixed(s) && Step(s, a).Some? && !RacesCancel(s, a)
    ensures Prefixed(Step(s, a).value)
  {
    hide StoredOnce, FiringOrder, CountsMatch, Prefixed, Increasing, WasOffered, Rendezvous.Arrive;
    var t := Step(s, a).value;
    match a
    case Start(num, rows) => StartKeepsPrefixed(s, t, num, rows);
    case Offer => OfferKeepsPrefixed(s, t);
    case ReportTo(w) =>
      assert WriterOk(s, w);
      OneWorkerPrefixed(s, w, t.ws[w], t);
    case Work(w, e) =>
      assert WriterOk(s, w);
      if Closed(s.ws[w]) { ClosedStays(s.ws[w], e); }
      OneWorkerPrefixed(s, w, t.ws[w], t);
  }

  lemma StartKeepsPrefixed(s: State, t: State, num: nat, rows: seq<nat>)
    requires Prefixed(s) && Shape(s) && Step(s, Start(num, rows)) == Some(t)
    ensures Prefixed(t)
  {
    hide Closed, Increasing;
    forall i | 0 <= i < |t.ws| ensures Delivered(t, i) {
      assert Delivered(s, i);
    }
  }

  lemma OfferKeepsPrefixed(s: State, t: State)
    requires Prefixed(s) && Shape(s) && Step(s, Offer) == Some(t) && !RacesCancel(s, Offer)
    ensures Prefixed(t)
  {
    hide Increasing;
    forall i | 0 <= i < |t.ws| ensures Delivered(t, i) {
      assert Delivered(s, i);
    }
  }

  lemma {:induction false} RunKeepsPrefixed(s: State, run: seq<Action>)
    requires Good(s) && Prefixed(s) && Run(s, run).Some? && RaceFree(s, run)
    ensures Prefixed(Run(s, run).value)
    decreases |run|
  {
    hide Good, Prefixed, Step;
    if run != [] {
      StepKeepsGood(s, run[0]);
      StepKeepsPrefixed(s, run[0]);
      RunKeepsPrefixed(Step(s, run[0]).value, run[1..]);
    }
  }

  /** A prefix that reaches a published batch holds all earlier ones, reported. */
  lemma EarlierReported(s: State, k: nat, b: nat, j: nat)
    requires Good(s) && Prefixed(s) && k < |s.fired| && j <= b < |s.batches| && s.batches[b].num == s.fired[k]
    ensures Complete(s.ws, s.batches[j].num)
  {
    hide StoredOnce, CountsMatch, WasOffered, Closed;
    assert Complete(s.ws, s.fired[k]);
    forall i | 0 <= i < |s.ws| ensures Has(s.ws[i], s.batches[j].num) {
      assert Delivered(s, i) && WriterOk(s, i) && Has(s.ws[i], s.fired[k]);
      var a :| 0 <= a < s.ws[i].reported && a < |s.ws[i].accepted| && s.ws[i].accepted[a].num == s.fired[k];
      assert s.batches[a].num == s.batches[b].num;
      SameBatch(s.batches, a, b);
      assert s.ws[i].accepted[j].num == s.batches[j].num;
    }
  }

  lemma EarlierFired(s: State, k: nat, b: nat, j: nat)
    requires Good(s) && Prefixed(s) && k < |s.fired| && j <= b < |s.batches| && s.batches[b].num == s.fired[k]
    ensures s.batches[j].num in s.fired
  {
    hide StoredOnce, CountsMatch, Count, Has, Prefixed, Orderly;
    EarlierReported(s, k, b, j);
    DeliveryOrderly(s);
    var num := s.batches[j].num;
    assert j < b ==> num < s.fired[k];
    if num !in s.fired {
      var i :| 0 <= i < |s.ws| && Holds(s.ws[i], num);
      assert Complete(s.ws, s.fired[k]) && Orderly(s.ws[i]);
      LastIsGreatest(s.ws[i], s.fired[k]);
    }
  }

  /** Without the race the published batches are the first ones, in order. */
  lemma {:induction false} FiredArePrefix(s: State, k: nat)
    requires Good(s) && Prefixed(s) && k < |s.fired|
    ensures k < |s.batches| && s.fired[k] == s.batches[k].num
    decreases k
  {
    hide StoredOnce, CountsMatch, Prefixed, Orderly, NoneForgotten, ActiveLeads, OneActive, Has;
    assert Complete(s.ws, s.fired[k]);
    assert Took(s.ws[0], s.fired[k]) by { assert Has(s.ws[0], s.fired[k]); HasTook(s.ws[0], s.fired[k]); }
    var b := PartOf(s, 0, s.fired[k]);
    if k > 0 {
      FiredArePrefix(s, k - 1);
    }
    if b > k {
      EarlierFired(s, k, b, k);
    }
  }

  lemma HasTook(v: Worker, num: nat)
    requires Has(v, num)
    ensures Took(v, num)
  {
  }

  /**
   * Consistency frontier: the published batches are the first that the run was given, and when one
   * has been published, every row of it and of every earlier one is in the database, once; no row is
   * ever there twice.
   */
  lemma Frontier(n: nat, run: seq<Action>, s: State, k: nat)
    requires n >= 1 && Run(Init(n), run) == Some(s) && RaceFree(Init(n), run) && k < |s.fired|
    ensures k < |Started(run)| && s.fired[k] == Started(run)[k].num
    ensures forall j | 0 <= j <= k :: RowsStored(s.db, Started(run)[j])
    ensures forall id: RowId :: s.db[id] <= 1
  {
    hide Run, Started, RaceFree, Good, Prefixed, RowsStored, Complete, Took;
    RunReaches(n, run, s);
    InitGood(n);
    RunKeepsPrefixed(Init(n), run) by { InitPrefixed(n); }
    FiredArePrefix(s, k);
    forall j | 0 <= j <= k ensures RowsStored(s.db, s.batches[j]) {
      EarlierReported(s, k, k, j);
      CompleteTook(s.ws, s.batches[j].num);
      assert s.batches[j].num <= s.fired[k] by { GoodIncreasing(s, j, k); }
      FrontierIff(n, run, s, k, s.batches[j]);
    }
    FrontierIff(n, run, s, k, s.batches[k]);
  }

  lemma InitPrefixed(n: nat)
    requires n >= 1
    ensures Prefixed(Init(n))
  {
    assert forall w | 0 <= w < n :: Init(n).ws[w] == IDLE;
  }

  lemma CompleteTook(ws: seq<Worker>, num: nat)
    requires Complete(ws, num)
    ensures forall w | 0 <= w < |ws| :: Took(ws[w], num)
  {
    forall w | 0 <= w < |ws| ensures Took(ws[w], num) {
      assert Has(ws[w], num);
    }
  }

  lemma GoodIncreasing(s: State, j: nat, k: nat)
    requires Good(s) && j <= k < |s.batches|
    ensures s.batches[j].num <= s.batches[k].num
  {
  }

  predicate Cancels(a: Action) {
    a.Work? && a.e.SetCancel?
  }

  /** Cancelled only by a failure, which also closes. */
  ghost predicate Uncancelled(ws: seq<Worker>) {
    forall i | 0 <= i < |ws| :: ws[i].cancel ==> !ws[i].cont
  }

  lemma NextUncancelled(w: Worker, e: Event)
    requires Enabled(w, e) && !e.SetCancel? && (w.cancel ==> !w.cont)
    ensures Next(w, e).cancel ==> !Next(w, e).cont
  {
  }

  lemma StepKeepsUncancelled(s: State, a: Action)
    requires Uncancelled(s.ws) && Step(s, a).Some? && !Cancels(a)
    ensures Uncancelled(Step(s, a).value.ws)
  {
    hide Rendezvous.Arrive, Next, Enabled;
    match a
    case Start(_, _) =>
    case Offer => NextUncancelled(s.ws[s.next], Enqueue(Offered(s)));
    case ReportTo(w) =>
      var outcome := Rendezvous.Arrive(|s.ws|, s.counts, Current(s.ws[w]).num).1;
      CanReport(s.ws[w], outcome);
      NextUncancelled(s.ws[w], Report(outcome));
    case Work(w, e) => NextUncancelled(s.ws[w], e);
  }

  /** Only cancel() opens the window: a run in which nobody calls it is free of the race. */
  lemma {:induction false} UncancelledIsRaceFree(s: State, run: seq<Action>)
    requires Uncancelled(s.ws) && forall i | 0 <= i < |run| :: !Cancels(run[i])
    ensures RaceFree(s, run)
    decreases |run|
  {
    hide Step;
    if run != [] {
      assert !Cancels(run[0]);
      if Step(s, run[0]).Some? {
        StepKeepsUncancelled(s, run[0]);
        UncancelledIsRaceFree(Step(s, run[0]).value, run[1..]);
      }
    }
  }

  ghost predicate NoneCancelled(ws: seq<Worker>) {
    forall i | 0 <= i < |ws| :: !ws[i].cancel
  }

  lemma CancelStays(w: Worker, e: Event)
    requires Enabled(w, e)
    ensures w.cancel ==> Next(w, e).cancel
  {
  }

  lemma StepKeepsCancel(s: State, a: Action, i: nat)
    requires Step(s, a).Some? && i < |s.ws|
    ensures |Step(s, a).value.ws| == |s.ws| && (s.ws[i].cancel ==> Step(s, a).value.ws[i].cancel)
  {
    hide Rendezvous.Arrive, Next, Enabled;
    match a
    case Start(_, _) =>
    case Offer => CancelStays(s.ws[s.next], Enqueue(Offered(s)));
    case ReportTo(w) =>
      var outcome := Rendezvous.Arrive(|s.ws|, s.counts, Current(s.ws[w]).num).1;
      CanReport(s.ws[w], outcome);
      CancelStays(s.ws[w], Report(outcome));
    case Work(w, e) => CancelStays(s.ws[w], e);
  }

  /** No step takes a cancel flag back: a run that ends without one is free of the race. */
  lemma {:induction false} NeverCancelled(s: State, run: seq<Action>)
    requires Run(s, run).Some? && NoneCancelled(Run(s, run).value.ws)
    ensures NoneCancelled(s.ws) && RaceFree(s, run)
    decreases |run|
  {
    hide Step;
    if run != [] {
      var t := Step(s, run[0]).value;
      NeverCancelled(t, run[1..]);
      forall i | 0 <= i < |s.ws| ensures !s.ws[i].cancel {
        StepKeepsCancel(s, run[0], i);
      }
    }
  }

  /** The frontier of every run in which nobody calls cancel(). */
  lemma UncancelledFrontier(n: nat, run: seq<Action>, s: State, k: nat)
    requires n >= 1 && Run(Init(n), run) == Some(s) && k < |s.fired|
    requires forall i | 0 <= i < |run| :: !Cancels(run[i])
    ensures k < |Started(run)| && s.fired[k] == Started(run)[k].num
    ensures forall j | 0 <= j <= k :: RowsStored(s.db, Started(run)[j])
  {
    hide Run, Started, RowsStored;
    UncancelledIsRaceFree(Init(n), run);
    Frontier(n, run, s, k);
  }
}
