/** The latch a body waits on for an asynchronous result: the first settlement counts, a waiter gives up
    only when cancelled. */
module SettlementLatches {
  import opened Prelude

  datatype Settlement = Settlement(ok: bool, detail: string)

  /** What the latch holds after some settlements, in the order they took the lock. */
  function FirstOf(settlements: seq<Settlement>): Option<Settlement> {
    if |settlements| == 0 then None else Some(settlements[0])
  }

  class SettlementLatch {
    var settled: bool
    var ok: bool
    var detail: string
    ghost var history: seq<Settlement>

    /** The fields hold the first of all settlements there have been. */
    ghost predicate Valid()
      reads this
    {
      settled == (|history| > 0) && (settled ==> Settlement(ok, detail) == history[0])
    }

    constructor ()
      ensures Valid() && history == [] && !settled
    {
      settled, ok, detail, history := false, false, "", [];
    }

    method Settle(ok: bool, detail: string)
      requires Valid()
      modifies this
      ensures Valid() && history == old(history) + [Settlement(ok, detail)]
      ensures FirstOf(history) == if old(settled) then FirstOf(old(history)) else Some(Settlement(ok, detail))
    {
      history := history + [Settlement(ok, detail)];
      if settled {
        return;
      }
      settled := true;
      this.ok, this.detail := ok, detail;
    }
  }

  /** What one turn of the wait loop sees: whether the latch is settled, and else whether it is cancelled. */
  datatype Poll = Poll(settled: bool, cancelled: bool)

  predicate Ends(p: Poll) {
    p.settled || p.cancelled
  }

  /** The wait over the polls there are; it is still waiting if none of them ends it. A settlement wins over a
      cancellation seen in the same turn. */
  method Wait(polls: seq<Poll>) returns (r: Option<bool>, turn: nat)
    ensures r.None? <==> forall i :: 0 <= i < |polls| ==> !Ends(polls[i])
    ensures r.Some? ==> turn < |polls| && Ends(polls[turn]) && r.value == polls[turn].settled
    ensures r.Some? ==> forall i :: 0 <= i < turn ==> !Ends(polls[i])
  {
    for i := 0 to |polls|
      invariant forall j :: 0 <= j < i ==> !Ends(polls[j])
    {
      if polls[i].settled {
        return Some(true), i;
      }
      if polls[i].cancelled {
        return Some(false), i;
      }
    }
    r, turn := None, 0;
  }
}
