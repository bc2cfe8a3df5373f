/**
 * One writer thread with its bounded queue (data_processor). Every event below is one critical
 * section of the source, or one action of the worker thread between two of them, so a sequence of
 * events is one interleaving of the worker, its producer and whoever stops it.
 */
module DataProcessor {
  import opened Common

  const MAX_QUEUED_CHUNKS := 2

  /** A queued batch: the number of its last block and its row count; without rows it only reports. */
  datatype Chunk = Chunk(num: nat, rows: nat)

  /** Where the worker thread stands. */
  datatype Pc =
    | Waiting    // about to look at the queue
    | Popped     // owns a chunk, nothing written yet
    | Processed  // rows committed, not reported yet
    | Triggered  // its report completed the batch; the counter entry still exists
    | Firing     // counter entry erased, inside the triggered function
    | Reported   // report done, flag not yet looked at
    | Caught     // an exception left the loop
    | Failed     // flag cleared, handle_exception not yet run
    | Leaving    // left the loop without an exception
    | Ended

  /** What one report to the rendezvous leads to. */
  datatype Outcome = Counted | Completed | Rejected

  datatype Event =
    | Enqueue(chunk: Chunk)
    | Pop
    | Commit
    | Report(outcome: Outcome)
    | Erase
    | Fire
    | Drain
    | Throw(stored: bool)
    | Notify
    | Handle
    | Leave
    | End
    | SetCancel
    | ClearContinue

  /**
   * The processor's fields, then its history: every accepted chunk in order and how many of those
   * were popped, committed and reported.
   */
  datatype Worker = Worker(
    queue: seq<Chunk>, cancel: bool, cont: bool, busy: bool, pc: Pc,
    accepted: seq<Chunk>, popped: nat, committed: nat, reported: nat, threw: bool)

  const IDLE := Worker([], false, true, false, Waiting, [], 0, 0, 0, false)

  predicate Accepts(w: Worker) {
    w.cont && |w.queue| < MAX_QUEUED_CHUNKS
  }

  /** The producer stops waiting and finds it may not queue. */
  predicate Drops(w: Worker) {
    !Accepts(w) && (w.cancel || !w.cont)
  }

  predicate Enabled(w: Worker, e: Event) {
    match e
    case Enqueue(_) => Accepts(w) || Drops(w)
    case Pop => w.pc.Waiting? && w.queue != [] && (w.cont || !w.cancel)
    case Commit => w.pc.Popped?
    case Report(_) => w.pc.Processed?
    case Erase => w.pc.Triggered?
    case Fire => w.pc.Firing?
    case Drain => w.pc.Reported?
    case Throw(stored) =>
      || (w.pc.Popped? && 0 < w.popped <= |w.accepted| && w.accepted[w.popped - 1].rows > 0)
      || (w.pc.Firing? && !stored)
    case Notify => w.pc.Caught?
    case Handle => w.pc.Failed?
    case Leave => w.pc.Waiting? && !w.cont && (w.queue == [] || w.cancel)
    case End => w.pc.Leaving?
    case SetCancel => true
    case ClearContinue => true
  }

  function Next(w: Worker, e: Event): Worker
    requires Enabled(w, e)
  {
    match e
    case Enqueue(c) =>
      if Accepts(w) then w.(queue := w.queue + [c], busy := true, accepted := w.accepted + [c]) else w
    case Pop => w.(queue := w.queue[1..], pc := Popped, popped := w.popped + 1)
    case Commit => w.(pc := Processed, committed := w.committed + 1)
    case Report(Counted) => w.(pc := Reported, reported := w.reported + 1)
    case Report(Completed) => w.(pc := Triggered, reported := w.reported + 1)
    case Report(Rejected) => w.(pc := Caught, threw := true)
    case Erase => w.(pc := Firing)
    case Fire => w.(pc := Reported)
    case Drain => w.(pc := Waiting, busy := w.busy && w.queue != [])
    case Throw(stored) =>
      w.(pc := Caught, threw := true, committed := if stored then w.committed + 1 else w.committed)
    case Notify => w.(pc := Failed, busy := false)
    case Handle => w.(pc := Ended, cancel := true, cont := false)
    case Leave => w.(pc := Leaving)
    case End => w.(pc := Ended, busy := false)
    case SetCancel => w.(cancel := true)
    case ClearContinue => w.(cont := false)
  }

  /** The worker after a sequence of events, or None when one of them cannot happen. */
  function Perform(w: Worker, es: seq<Event>): Option<Worker>
    decreases |es|
  {
    if es == [] then Some(w)
    else if Enabled(w, es[0]) then Perform(Next(w, es[0]), es[1..])
    else None
  }

  ghost predicate Consistent(w: Worker) {
    && |w.queue| <= MAX_QUEUED_CHUNKS
    && w.popped <= |w.accepted|
    && w.queue == w.accepted[w.popped..]
    && w.reported <= w.committed <= w.popped <= w.reported + 1
    && (w.pc.Waiting? || w.pc.Triggered? || w.pc.Firing? || w.pc.Reported? || w.pc.Leaving? ==> w.popped == w.reported)
    && (w.pc.Triggered? || w.pc.Firing? || w.pc.Reported? ==> w.reported > 0)
    && (w.pc.Popped? ==> w.committed + 1 == w.popped)
    && (w.pc.Processed? ==> w.committed == w.popped == w.reported + 1)
    && (w.pc.Caught? || w.pc.Failed? ==> w.threw)
    && (w.threw ==> w.pc.Caught? || w.pc.Failed? || w.pc.Ended?)
    && (w.pc.Leaving? || w.pc.Ended? ==> !w.cont)
    && (w.pc.Leaving? || (w.pc.Ended? && !w.threw) ==> w.popped == w.reported && (w.queue == [] || w.cancel))
    && (!w.busy && !w.threw ==> w.pc.Ended? || ((w.pc.Waiting? || w.pc.Leaving?) && w.queue == []))
  }

  lemma EnqueueConsistent(w: Worker, c: Chunk)
    requires Consistent(w) && Accepts(w)
    ensures Consistent(Next(w, Enqueue(c)))
  {
    assert (w.accepted + [c])[w.popped..] == w.accepted[w.popped..] + [c];
  }

  lemma PopConsistent(w: Worker)
    requires Consistent(w) && Enabled(w, Pop)
    ensures Consistent(Next(w, Pop))
  {
    assert w.accepted[w.popped..][1..] == w.accepted[w.popped + 1..];
  }

  lemma WorkConsistent(w: Worker, e: Event)
    requires Consistent(w) && Enabled(w, e) && (e.Commit? || e.Report?)
    ensures Consistent(Next(w, e))
  {
  }

  lemma FireConsistent(w: Worker, e: Event)
    requires Consistent(w) && Enabled(w, e) && (e.Erase? || e.Fire? || e.Drain?)
    ensures Consistent(Next(w, e))
  {
  }

  lemma ThrowConsistent(w: Worker, stored: bool)
    requires Consistent(w) && Enabled(w, Throw(stored))
    ensures Consistent(Next(w, Throw(stored)))
  {
  }

  lemma FailConsistent(w: Worker, e: Event)
    requires Consistent(w) && Enabled(w, e) && (e.Notify? || e.Handle?)
    ensures Consistent(Next(w, e))
  {
  }

  lemma StopConsistent(w: Worker, e: Event)
    requires Consistent(w) && Enabled(w, e) && (e.Leave? || e.End? || e.SetCancel? || e.ClearContinue?)
    ensures Consistent(Next(w, e))
  {
  }

  lemma NextConsistent(w: Worker, e: Event)
    requires Consistent(w) && Enabled(w, e)
    ensures Consistent(Next(w, e))
  {
    hide Consistent;
    match e
    case Enqueue(c) => if Accepts(w) { EnqueueConsistent(w, c); }
    case Pop => PopConsistent(w);
    case Commit => WorkConsistent(w, e);
    case Report(_) => WorkConsistent(w, e);
    case Erase => FireConsistent(w, e);
    case Fire => FireConsistent(w, e);
    case Drain => FireConsistent(w, e);
    case Throw(stored) => ThrowConsistent(w, stored);
    case Notify => FailConsistent(w, e);
    case Handle => FailConsistent(w, e);
    case _ => StopConsistent(w, e);
  }

  /** Flags only move towards stopping, the history only grows, and a stopped worker takes no more. */
  ghost predicate Extends(w: Worker, w': Worker) {
    && w.accepted <= w'.accepted
    && w.popped <= w'.popped && w.committed <= w'.committed && w.reported <= w'.reported
    && (w.cancel ==> w'.cancel)
    && (!w.cont ==> !w'.cont && w'.accepted == w.accepted)
    && (w.threw ==> w'.threw && w'.reported == w.reported && w'.popped == w.popped)
  }

  lemma NextExtends(w: Worker, e: Event)
    requires Consistent(w) && Enabled(w, e)
    ensures Extends(w, Next(w, e))
  {
  }

  lemma ExtendsTransitive(u: Worker, v: Worker, w: Worker)
    requires Extends(u, v) && Extends(v, w)
    ensures Extends(u, w)
  {
  }

  lemma {:induction false} PerformKeeps(w: Worker, es: seq<Event>)
    requires Consistent(w) && Perform(w, es).Some?
    ensures Consistent(Perform(w, es).value) && Extends(w, Perform(w, es).value)
    decreases |es|
  {
    if es != [] {
      var v := Next(w, es[0]);
      NextConsistent(w, es[0]);
      NextExtends(w, es[0]);
      PerformKeeps(v, es[1..]);
      ExtendsTransitive(w, v, Perform(w, es).value);
    }
  }

  ghost predicate Reachable(w: Worker) {
    exists es :: Perform(IDLE, es) == Some(w)
  }

  lemma ReachableConsistent(w: Worker)
    requires Reachable(w)
    ensures Consistent(w)
  {
    var es :| Perform(IDLE, es) == Some(w);
    PerformKeeps(IDLE, es);
  }

  function InFlight(w: Worker): seq<Chunk>
    requires w.reported <= w.popped <= |w.accepted|
  {
    w.accepted[w.reported..w.popped]
  }

  /** First in, first out: finished, in-flight and queued chunks are the accepted ones in order. */
  lemma Fifo(w: Worker)
    requires Reachable(w)
    ensures |w.queue| <= 2
    ensures w.reported <= w.popped <= |w.accepted| && |InFlight(w)| <= 1
    ensures w.accepted == w.accepted[..w.reported] + InFlight(w) + w.queue
  {
    ReachableConsistent(w);
  }

  /** join() without cancel or failure has committed and reported everything that was accepted. */
  lemma JoinDrains(w: Worker)
    requires Reachable(w) && w.pc.Ended? && !w.cancel && !w.threw
    ensures w.committed == w.reported == |w.accepted| && w.queue == []
  {
    ReachableConsistent(w);
  }

  /** complete_data_processing() sees a cleared flag only once nothing is queued or in flight. */
  lemma CompletedMeansIdle(w: Worker)
    requires Reachable(w) && !w.busy && !w.cancel && !w.threw
    ensures w.queue == [] && w.reported == w.popped == |w.accepted|
    ensures !w.pc.Triggered? && !w.pc.Firing?
  {
    ReachableConsistent(w);
  }

  lemma NextReachable(w: Worker, e: Event)
    requires Reachable(w) && Enabled(w, e)
    ensures Reachable(Next(w, e))
  {
    var es :| Perform(IDLE, es) == Some(w);
    PerformConcat(IDLE, es, [e]);
    assert [e][1..] == [];
    assert Perform(IDLE, es + [e]) == Some(Next(w, e));
  }

  /** Will never accept another batch: closed, or full with a worker that has failed. */
  predicate Closed(w: Worker) {
    !w.cont || (|w.queue| == MAX_QUEUED_CHUNKS && (w.pc.Caught? || w.pc.Failed?))
  }

  lemma ClosedStays(w: Worker, e: Event)
    requires Consistent(w) && Enabled(w, e) && Closed(w)
    ensures Closed(Next(w, e)) && Next(w, e).accepted == w.accepted
  {
  }

  ghost predicate CanAcceptLater(w: Worker) {
    exists es :: Perform(w, es).Some? && |Perform(w, es).value.accepted| > |w.accepted|
  }

  function Rank(pc: Pc): nat {
    match pc
    case Popped => 5
    case Processed => 4
    case Triggered => 3
    case Firing => 2
    case Reported => 1
    case _ => 0
  }

  /** A worker that has not failed or been stopped can always go back to its queue. */
  lemma {:induction false} ReturnsToQueue(w: Worker) returns (es: seq<Event>)
    requires Consistent(w) && w.cont && !w.pc.Caught? && !w.pc.Failed?
    ensures Perform(w, es).Some?
    ensures var v := Perform(w, es).value;
            v.pc.Waiting? && v.cont && v.queue == w.queue && v.accepted == w.accepted
    decreases Rank(w.pc)
  {
    if w.pc.Waiting? {
      es := [];
    } else {
      var e := match w.pc
        case Popped => Commit
        case Processed => Report(Counted)
        case Triggered => Erase
        case Firing => Fire
        case _ => Drain;
      NextConsistent(w, e);
      var rest := ReturnsToQueue(Next(w, e));
      es := [e] + rest;
      assert es[1..] == rest;
    }
  }

  lemma {:induction false} PerformConcat(w: Worker, es: seq<Event>, fs: seq<Event>)
    requires Perform(w, es).Some?
    ensures Perform(w, es + fs) == Perform(Perform(w, es).value, fs)
    decreases |es|
  {
    if es == [] {
      assert es + fs == fs;
    } else {
      assert (es + fs)[1..] == es[1..] + fs;
      PerformConcat(Next(w, es[0]), es[1..], fs);
    }
  }

  lemma {:induction false} ClosedForever(w: Worker, es: seq<Event>)
    requires Consistent(w) && Perform(w, es).Some? && Closed(w)
    ensures Perform(w, es).value.accepted == w.accepted
    decreases |es|
  {
    if es != [] {
      NextConsistent(w, es[0]);
      ClosedStays(w, es[0]);
      ClosedForever(Next(w, es[0]), es[1..]);
    }
  }

  /**
   * A dropped batch stays the last one offered with success exactly when _continue is already
   * false or the worker has failed: otherwise (cancel() has stored _cancel but not yet cleared
   * _continue) a later batch can still be accepted.
   */
  lemma DropIsFinalIff(w: Worker)
    requires Reachable(w) && Drops(w)
    ensures CanAcceptLater(w) <==> w.cont && !w.pc.Caught? && !w.pc.Failed?
  {
    ReachableConsistent(w);
    if Closed(w) {
      forall es | Perform(w, es).Some? ensures |Perform(w, es).value.accepted| == |w.accepted| {
        ClosedForever(w, es);
      }
    } else {
      var es := ReturnsToQueue(w);
      var v := Perform(w, es).value;
      PerformKeeps(w, es);
      var u := Next(v, Pop);
      var tail := [Pop, Enqueue(Chunk(0, 0))];
      assert tail[1..] == [tail[1]];
      assert Perform(u, tail[1..]) == Perform(Next(u, tail[1]), tail[1..][1..]);
      PerformConcat(w, es, tail);
      assert |Perform(w, es + tail).value.accepted| > |w.accepted|;
    }
  }

  /**
   * The object behind the events: each method is one critical section, called when the condition
   * its source waits for holds, and moves the history by exactly one event.
   */
  class Processor {
    var queue: seq<Chunk>
    var cancelled: bool
    var running: bool
    var processing: bool
    ghost var past: Worker

    ghost predicate Valid()
      reads this
    {
      Consistent(past) && past.queue == queue && past.cancel == cancelled && past.cont == running
          && past.busy == processing
    }

    constructor ()
      ensures Valid() && past == IDLE
    {
      queue, cancelled, running, processing, past := [], false, true, false, IDLE;
    }

    method Offer(batch: Chunk) returns (queued: bool)
      requires Valid() && (|queue| < MAX_QUEUED_CHUNKS || cancelled || !running)
      modifies this
      ensures Valid() && Enabled(old(past), Enqueue(batch)) && past == Next(old(past), Enqueue(batch))
      ensures queued <==> past.accepted == old(past).accepted + [batch]
    {
      NextConsistent(past, Enqueue(batch));
      queued := running && |queue| < MAX_QUEUED_CHUNKS;
      if queued {
        queue := queue + [batch];
        processing := true;
      }
      past := Next(past, Enqueue(batch));
    }

    /** None where the worker leaves its loop. */
    method TakeNext() returns (batch: Option<Chunk>)
      requires Valid() && past.pc.Waiting? && (queue != [] || !running)
      modifies this
      ensures Valid()
      ensures batch.None? ==> Enabled(old(past), Leave) && past == Next(old(past), Leave)
      ensures batch.Some? ==> Enabled(old(past), Pop) && past == Next(old(past), Pop)
      ensures batch.Some? ==> [batch.value] + queue == old(queue)
    {
      if !running && (queue == [] || cancelled) {
        NextConsistent(past, Event.Leave);
        past := Next(past, Event.Leave);
        return None;
      }
      NextConsistent(past, Event.Pop);
      batch := Some(queue[0]);
      queue := queue[1..];
      past := Next(past, Event.Pop);
    }

    method NotifyIfDrained()
      requires Valid() && past.pc.Reported?
      modifies this
      ensures Valid() && past == Next(old(past), Drain)
    {
      NextConsistent(past, Drain);
      if queue == [] {
        processing := false;
      }
      past := Next(past, Drain);
    }

    /** After an exception, or on leaving the loop. */
    method NotifyFinished()
      requires Valid() && (past.pc.Caught? || past.pc.Leaving?)
      modifies this
      ensures Valid() && past == Next(old(past), if old(past).pc.Caught? then Notify else End) && !processing
    {
      NextConsistent(past, if past.pc.Caught? then Notify else End);
      processing := false;
      past := Next(past, if past.pc.Caught? then Notify else End);
    }

    method HandleException()
      requires Valid() && past.pc.Failed?
      modifies this
      ensures Valid() && past == Next(old(past), Handle)
    {
      NextConsistent(past, Handle);
      cancelled, running := true, false;
      past := Next(past, Handle);
    }

    /** The first half of cancel(). */
    method StoreCancel()
      requires Valid()
      modifies this
      ensures Valid() && past == Next(old(past), SetCancel)
    {
      NextConsistent(past, SetCancel);
      cancelled := true;
      past := Next(past, SetCancel);
    }

    /** join(), which is also the second half of cancel(). */
    method StopAccepting()
      requires Valid()
      modifies this
      ensures Valid() && past == Next(old(past), ClearContinue)
    {
      NextConsistent(past, ClearContinue);
      running := false;
      past := Next(past, ClearContinue);
    }
  }
}
