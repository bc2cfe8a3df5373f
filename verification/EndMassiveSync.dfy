/**
 * What the massive sync does with a published batch: the triggered function only queues its number
 * on one more processor, which tells the database (end_massive_sync_processor).
 */
module EndMassiveSync {
  import opened Common
  import opened DataProcessor
  import opened Pipeline

  /** The writers, and the processor of the published numbers. */
  datatype Massive = Massive(s: State, p: Worker)

  datatype Move = Writers(a: Action) | Own(e: Event)

  /** Only the triggered function queues on this processor, and it reports to no rendezvous. */
  predicate OwnStep(p: Worker, e: Event) {
    Enabled(p, e) && !e.Enqueue? && (e.Report? ==> e.outcome == Counted)
  }

  /** A firing is the call of trigger_block_number, which waits for room in the queue. */
  function MassiveStep(m: Massive, move: Move): Option<Massive> {
    match move
    case Writers(a) =>
      (match Step(m.s, a)
       case None => None
       case Some(t) =>
         if a.Work? && a.e.Fire? then
           var chunk := Chunk(Current(m.s.ws[a.w]).num, 1);
           if Enabled(m.p, Enqueue(chunk)) then Some(Massive(t, Next(m.p, Enqueue(chunk)))) else None
         else Some(m.(s := t)))
    case Own(e) => if OwnStep(m.p, e) then Some(m.(p := Next(m.p, e))) else None
  }

  function MassiveRun(m: Massive, run: seq<Move>): Option<Massive>
    decreases |run|
  {
    if run == [] then Some(m)
    else
      match MassiveStep(m, run[0])
      case None => None
      case Some(t) => MassiveRun(t, run[1..])
  }

  function MassiveInit(n: nat): Massive {
    Massive(Init(n), IDLE)
  }

  /** The first half of cancel(), on a writer or on the processor. */
  predicate Cancelling(move: Move) {
    match move
    case Writers(a) => Cancels(a)
    case Own(e) => e.SetCancel?
  }

  /** The steps of the writers alone. */
  function WriterSteps(run: seq<Move>): seq<Action> {
    if run == [] then []
    else (if run[0].Writers? then [run[0].a] else []) + WriterSteps(run[1..])
  }

  function Numbers(chunks: seq<Chunk>): seq<nat> {
    seq(|chunks|, i requires 0 <= i < |chunks| => chunks[i].num)
  }

  /** The numbers queued are the first published ones, and fewer only once the processor is closed for good. */
  ghost predicate Follows(m: Massive) {
    && Reachable(m.p) && (m.p.cancel ==> !m.p.cont)
    && Numbers(m.p.accepted) <= m.s.fired
    && (|m.p.accepted| < |m.s.fired| ==> Closed(m.p))
  }

  lemma NumbersAppend(chunks: seq<Chunk>, c: Chunk)
    ensures Numbers(chunks + [c]) == Numbers(chunks) + [c.num]
  {
  }

  lemma OwnKeeps(m: Massive, e: Event)
    requires Follows(m) && OwnStep(m.p, e) && !e.SetCancel?
    ensures Follows(m.(p := Next(m.p, e)))
  {
    hide Reachable;
    NextReachable(m.p, e);
    NextAccepts(m.p, e);
    NextUncancelled(m.p, e);
    if Closed(m.p) { ReachableConsistent(m.p); ClosedStays(m.p, e); }
  }

  lemma FiringKeeps(m: Massive, t: State, num: nat)
    requires Follows(m) && Enabled(m.p, Enqueue(Chunk(num, 1))) && t.fired == m.s.fired + [num]
    ensures Follows(Massive(t, Next(m.p, Enqueue(Chunk(num, 1)))))
  {
    hide Reachable;
    var c := Chunk(num, 1);
    NextReachable(m.p, Enqueue(c));
    ReachableConsistent(m.p);
    if Closed(m.p) { ClosedStays(m.p, Enqueue(c)); }
    if Accepts(m.p) {
      NumbersAppend(m.p.accepted, c);
      assert Numbers(m.p.accepted) == m.s.fired;
    }
  }

  lemma MassiveStepKeeps(m: Massive, move: Move)
    requires Follows(m) && MassiveStep(m, move).Some? && !Cancelling(move)
    ensures Follows(MassiveStep(m, move).value)
  {
    hide Reachable, Next, Enabled, Rendezvous.Arrive, Closed;
    match move
    case Writers(a) =>
      if a.Work? && a.e.Fire? {
        FiringKeeps(m, Step(m.s, a).value, Current(m.s.ws[a.w]).num);
      }
    case Own(e) => OwnKeeps(m, e);
  }

  lemma {:induction false} MassiveRunKeeps(m: Massive, run: seq<Move>)
    requires Follows(m) && MassiveRun(m, run).Some? && forall i | 0 <= i < |run| :: !Cancelling(run[i])
    ensures Follows(MassiveRun(m, run).value)
    ensures Run(m.s, WriterSteps(run)) == Some(MassiveRun(m, run).value.s)
    ensures forall i | 0 <= i < |WriterSteps(run)| :: !Cancels(WriterSteps(run)[i])
    decreases |run|
  {
    hide Follows, Step;
    if run != [] {
      assert !Cancelling(run[0]);
      MassiveStepKeeps(m, run[0]);
      var t := MassiveStep(m, run[0]).value;
      MassiveRunKeeps(t, run[1..]);
      if run[0].Writers? {
        assert WriterSteps(run)[1..] == WriterSteps(run[1..]);
      } else {
        assert WriterSteps(run) == WriterSteps(run[1..]);
      }
    }
  }

  lemma MassiveInitFollows(n: nat)
    ensures Follows(MassiveInit(n))
  {
    FirstReachable();
  }

  /**
   * Over every run in which nobody calls cancel(), failures of any thread included: the numbers the
   * database has been told are the first published ones, in order; and every row that the run gave for
   * the batches up to the last of them is there.
   */
  lemma ToldIsStored(n: nat, run: seq<Move>, m: Massive)
    requires n >= 1 && MassiveRun(MassiveInit(n), run) == Some(m)
    requires forall i | 0 <= i < |run| :: !Cancelling(run[i])
    ensures m.p.committed <= |m.p.accepted|
    ensures var given := Started(WriterSteps(run));
            && Numbers(m.p.accepted[..m.p.committed]) <= m.s.fired && |m.s.fired| <= |given|
            && forall k | 0 <= k < m.p.committed ::
                 m.p.accepted[k].num == given[k].num && RowsStored(m.s.db, given[k])
  {
    hide MassiveRun, Run, Started, Reachable, RowsStored, WriterSteps;
    MassiveInitFollows(n);
    MassiveRunKeeps(MassiveInit(n), run);
    Fifo(m.p);
    ReachableConsistent(m.p);
    var steps := WriterSteps(run);
    var given := Started(steps);
    if m.s.fired != [] { UncancelledFrontier(n, steps, m.s, |m.s.fired| - 1); }
    forall k | 0 <= k < m.p.committed ensures m.p.accepted[k].num == given[k].num && RowsStored(m.s.db, given[k]) {
      assert Numbers(m.p.accepted)[k] == m.s.fired[k];
      UncancelledFrontier(n, steps, m.s, k);
    }
  }

  /** Once the processor is done, and neither closed nor failed, the database has been told every published number. */
  lemma IdleToldAll(n: nat, run: seq<Move>, m: Massive)
    requires n >= 1 && MassiveRun(MassiveInit(n), run) == Some(m)
    requires forall i | 0 <= i < |run| :: !Cancelling(run[i])
    requires !m.p.busy && m.p.cont && !m.p.threw
    ensures m.p.committed == |m.p.accepted| && Numbers(m.p.accepted) == m.s.fired
  {
    hide MassiveRun, Run, Reachable, WriterSteps;
    MassiveInitFollows(n);
    MassiveRunKeeps(MassiveInit(n), run);
    CompletedMeansIdle(m.p);
    ReachableConsistent(m.p);
  }
}
