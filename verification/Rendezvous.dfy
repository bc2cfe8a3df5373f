/** The counter that fires once every writer has reported a batch (block_num_rendezvous_trigger). */
module Rendezvous {
  import opened DataProcessor

  /** report_complete_thread_stage up to the point where the triggered function would be called. */
  function Arrive(threads: nat, counts: map<nat, nat>, num: nat): (map<nat, nat>, Outcome) {
    if threads == 1 then (counts, Completed)
    else if num !in counts then (counts[num := 1], Counted)
    else
      var count := counts[num] + 1;
      (counts[num := count], if count > threads then Rejected else if count == threads then Completed else Counted)
  }

  /** The shared object: the counter map is updated in place and the firings are recorded. */
  class Trigger {
    const threads: nat
    var counts: map<nat, nat>
    var fired: seq<nat>

    constructor (threads: nat)
      requires threads >= 1
      ensures this.threads == threads && counts == map[] && fired == []
    {
      this.threads := threads;
      counts := map[];
      fired := [];
    }

    /** One call with nobody else in between; `ok` is false where the source's assertion throws. */
    method ReportCompleteThreadStage(num: nat) returns (ok: bool)
      modifies this
      ensures var (counts', outcome) := Arrive(threads, old(counts), num);
              && ok == !outcome.Rejected?
              && counts == (if outcome.Completed? && threads != 1 then counts' - {num} else counts')
              && fired == (if outcome.Completed? then old(fired) + [num] else old(fired))
    {
      if threads == 1 {
        fired := fired + [num];
        return true;
      }
      var shouldTrigger := false;
      if num in counts {
        counts := counts[num := counts[num] + 1];
        if counts[num] > threads {
          return false;
        }
        if counts[num] == threads {
          shouldTrigger := true;
        }
      } else {
        counts := counts[num := 1];
      }
      if shouldTrigger {
        counts := counts - {num};
        fired := fired + [num];
      }
      return true;
    }
  }
}
