/** The server's limit on compilers that run at a time, kept by coroutines of one event loop:
    between two points where a coroutine yields nothing else happens. */
module CompilerSlots {

  type Coroutine = nat

  class ProcessRunner {
    const limit: nat
    var current: nat
    /** The event, and the coroutines whose wait for it is not over. */
    var ready: bool
    var waiters: set<Coroutine>
    /** Coroutines that have been woken and will be resumed, and those with a compiler. */
    ghost var woken: set<Coroutine>
    ghost var running: set<Coroutine>

    ghost predicate Valid()
      reads this
    {
      && current == |running| <= limit
      && (ready ==> current < limit)
      && (waiters != {} ==> current == limit)
      && waiters !! woken && waiters !! running && woken !! running
    }

    constructor (limit: nat)
      ensures Valid() && this.limit == limit && running == {} && waiters == {} && woken == {}
    {
      this.limit := limit;
      current, ready, waiters, woken, running := 0, false, {}, {}, {};
    }

    /** A coroutine runs on until it waits or has a slot; a wait for an event that is set
        would return at once and the loop would never yield. */
    method Resume(c: Coroutine) returns (started: bool)
      requires Valid() && c !in waiters && c !in running
      modifies this
      ensures Valid() && started == (old(current) < limit)
      ensures started ==> running == old(running) + {c} && waiters == old(waiters)
      ensures !started ==> running == old(running) && waiters == old(waiters) + {c}
      ensures woken == old(woken) - {c}
    {
      woken := woken - {c};
      if current == limit {
        assert !ready;
        waiters := waiters + {c};
        return false;
      }
      ready := false;
      current := current + 1;
      running := running + {c};
      return true;
    }

    /** A compiler ends: its slot is free and every waiting coroutine is woken. */
    method Finish(c: Coroutine)
      requires Valid() && c in running
      modifies this
      ensures Valid() && running == old(running) - {c}
      ensures waiters == {} && woken == old(woken) + old(waiters) && ready
    {
      current := current - 1;
      running := running - {c};
      ready := true;
      woken := woken + waiters;
      waiters := {};
    }
  }
}
