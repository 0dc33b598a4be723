/**
 The limiter, its waiters and its leases as objects. Every method is one critical section, or a
 critical section followed by the limiter's release, and is proved to have exactly the effect that
 `LimiterCore` and `LeaseCore` give it.
 */
module AsyncLimiter {
  import opened Futures
  import opened LimiterCore
  import opened LeaseCore
  import opened Options

  const DEFAULT_MAX_WAITERS_PER_SLOT := 16

  class Future {
    var state: FutureState
    ghost const ticket: Ticket

    constructor (ghost ticket: Ticket)
      ensures state == Pending && this.ticket == ticket
    {
      state := Pending;
      this.ticket := ticket;
    }

    method Cancel() returns (ok: bool)
      modifies this
      ensures ok == old(state).CanCancel() && state == old(state).AfterCancel()
    {
      if state.Running? || state.Finished? {
        return false;
      }
      if state.Pending? {
        state := Cancelled;
      }
      return true;
    }

    method SetRunningOrNotifyCancel() returns (running: bool)
      requires state.Claimable()
      modifies this
      ensures running == old(state).Pending?
      ensures state == if running then Running else CancelledAndNotified
    {
      running := state.Pending?;
      state := if running then Running else CancelledAndNotified;
    }

    method SetResult()
      requires state.Running? || state.Pending?
      modifies this
      ensures state == Finished
    {
      state := Finished;
    }
  }

  ghost function Tickets(ws: seq<Future>): (ts: seq<Ticket>)
    ensures |ts| == |ws| && forall i | 0 <= i < |ws| :: ts[i] == ws[i].ticket
  {
    seq(|ws|, i requires 0 <= i < |ws| => ws[i].ticket)
  }

  /** `OrderedDict.pop(waiter, None)`. */
  function Pop(ws: seq<Future>, w: Future): (r: seq<Future>)
    ensures forall v | v in r :: v in ws
    ensures (forall v | v in ws && v.ticket == w.ticket :: v == w) ==> Tickets(r) == Remove(Tickets(ws), w.ticket)
  {
    if ws == [] then []
    else
      var rest := Pop(ws[1..], w);
      assert Tickets(ws)[1..] == Tickets(ws[1..]);
      if ws[0] == w then
        rest
      else
        assert Tickets([ws[0]] + rest) == [ws[0].ticket] + Tickets(rest);
        [ws[0]] + rest
  }

  class AsyncCapacityLimiter {
    const capacity: nat
    const maxWaiters: nat
    var available: nat
    var waiters: seq<Future>
    ghost var issued: map<Ticket, Future>  // every waiter future ever created, by arrival ticket
    ghost var arrivals: Ticket             // the ticket of the next `acquire`

    ghost predicate Valid()
      reads this, issued.Values
    {
      && (forall t | t in issued :: t < arrivals && issued[t].ticket == t)
      && (forall i | 0 <= i < |waiters| :: waiters[i].ticket in issued && issued[waiters[i].ticket] == waiters[i])
      && WellQueued(View())
    }

    ghost function View(): Core
      reads this, issued.Values
    {
      Core(capacity, maxWaiters, available, Tickets(waiters), States())
    }

    ghost function States(): map<Ticket, FutureState>
      reads this, issued.Values
    {
      map t | t in issued :: issued[t].state
    }

    constructor (capacity: nat, maxWaiters: nat)
      ensures Valid() && fresh(this) && issued == map[] && arrivals == 0
      ensures View() == Core(capacity, maxWaiters, capacity, [], map[])
    {
      this.capacity, this.maxWaiters := capacity, maxWaiters;
      available, waiters := capacity, [];
      issued, arrivals := map[], 0;
    }

    /** The constructor with its argument checks; null stands for its `ValueError`. */
    static method Create(capacity: int, maxWaiters: Option<int>) returns (limiter: AsyncCapacityLimiter?)
      ensures limiter != null <==> capacity >= 1 && (maxWaiters.Some? ==> maxWaiters.value >= 0)
      ensures limiter != null ==>
        var bound := if maxWaiters.Some? then maxWaiters.value else capacity * 16;
        && fresh(limiter) && limiter.Valid() && limiter.arrivals == 0
        && limiter.View() == Core(capacity, bound, capacity, [], map[])
    {
      if capacity < 1 {
        return null;
      }
      var bound := if maxWaiters.Some? then maxWaiters.value else capacity * DEFAULT_MAX_WAITERS_PER_SLOT;
      if bound < 0 {
        return null;
      }
      limiter := new AsyncCapacityLimiter(capacity, bound);
    }

    /** First critical section of `acquire`. The caller gets a lease, a waiter to await, or an overload error. */
    method EnterAcquire() returns (admission: Admission, waiter: Future?)
      requires Valid()
      modifies this
      ensures Valid() && arrivals == old(arrivals) + 1
      ensures (View(), admission) == Admit(old(View()), old(arrivals))
      ensures admission.Immediate? <==> old(available) > 0
      ensures admission.Overloaded? <==> old(available) == 0 && |old(waiters)| >= maxWaiters
      ensures available == if admission.Immediate? then old(available) - 1 else old(available)
      ensures admission.Queued? <==> waiter != null
      ensures waiters == if waiter != null then old(waiters) + [waiter] else old(waiters)
      ensures waiter != null ==> fresh(waiter) && waiter.state == Pending
      ensures waiter != null ==> waiter.ticket == old(arrivals) && issued == old(issued)[waiter.ticket := waiter]
      ensures waiter == null ==> issued == old(issued)
    {
      waiter := null;
      if available > 0 {
        available := available - 1;
        admission := Immediate;
      } else if |waiters| >= maxWaiters {
        admission := Overloaded;
      } else {
        var w := new Future(arrivals);
        waiters := waiters + [w];
        issued := issued[arrivals := w];
        waiter, admission := w, Queued;
        assert Tickets(waiters) == old(Tickets(waiters)) + [arrivals];
      }
      arrivals := arrivals + 1;
      assert States() == if waiter == null then old(States()) else old(States())[old(arrivals) := Pending];
    }

    /** The chained `waiter.cancel()` of the cancelled asyncio wrapper; it takes no limiter lock. */
    method ChainedCancel(waiter: Future)
      requires Valid() && waiter in issued.Values
      modifies waiter
      ensures Valid() && View() == CancelFuture(old(View()), waiter.ticket)
    {
      var _ := waiter.Cancel();
      assert States() == old(States())[waiter.ticket := waiter.state];
    }

    /** Critical section of the `except CancelledError` branch of `acquire`. */
    method LeaveAcquire(waiter: Future) returns (grantReceived: bool)
      requires Valid() && waiter in issued.Values
      modifies this`waiters, waiter
      ensures Valid()
      ensures View() == Withdraw(old(View()), waiter.ticket)
      ensures grantReceived <==> !old(waiter.state).CanCancel()
    {
      var cancelled := waiter.Cancel();
      assert States() == old(States())[waiter.ticket := waiter.state];
      if cancelled {
        waiters := Pop(waiters, waiter);
        assert Tickets(waiters) == Remove(old(Tickets(waiters)), waiter.ticket);
        assert forall i | 0 <= i < |waiters| :: waiters[i] in old(waiters);
      } else {
        assert States() == old(States());
      }
      grantReceived := !cancelled;
    }

    /** One turn of the loop in `release`: pop the first waiter and hand it the slot if it still wants it. */
    method OfferToFirst() returns (granted: bool)
      requires Valid() && waiters != []
      modifies this`waiters, waiters[0]
      ensures Valid()
      ensures var before := old(View());
        if granted then
          before.futs[before.queue[0]].Pending? &&
          View() == before.(queue := before.queue[1..], futs := before.futs[before.queue[0] := Finished])
        else
          !before.futs[before.queue[0]].Pending? && View() == SkipCancelled(before)
    {
      var waiter := waiters[0];
      assert View().futs[waiter.ticket] == waiter.state;
      waiters := waiters[1..];
      granted := waiter.SetRunningOrNotifyCancel();
      if granted {
        waiter.SetResult();
      }
      assert Tickets(waiters) == old(Tickets(waiters))[1..];
      assert States() == old(States())[waiter.ticket := waiter.state];
    }

    /** `release`; `false` stands for the error "capacity released too many times". */
    method Release() returns (ok: bool)
      requires Valid()
      modifies this`available, this`waiters, issued.Values
      ensures Valid()
      ensures View() == LimiterCore.Release(old(View())).core
      ensures ok <==> !LimiterCore.Release(old(View())).TooMany?
    {
      while waiters != []
        invariant Valid()
        invariant LimiterCore.Release(View()) == LimiterCore.Release(old(View()))
        decreases |waiters|
      {
        var granted := OfferToFirst();
        if granted {
          return true;
        }
      }
      if available >= capacity {
        return false;
      }
      available := available + 1;
      return true;
    }
  }

  class AsyncCapacityLease {
    const limiter: AsyncCapacityLimiter
    var pendingHolds: int
    var releaseRequested: bool
    var released: bool

    ghost function View(): Lease
      reads this
    {
      Lease(pendingHolds, releaseRequested, released)
    }

    constructor (limiter: AsyncCapacityLimiter)
      ensures View() == FRESH && this.limiter == limiter
    {
      this.limiter := limiter;
      pendingHolds, releaseRequested, released := 0, false, false;
    }

    /** `hold_until_complete` up to registering the callback; `false` stands for its `RuntimeError`. */
    method HoldUntilComplete() returns (ok: bool)
      modifies this
      ensures ok <==> !old(releaseRequested)
      ensures View() == old(View()).(pendingHolds := old(pendingHolds) + if ok then 1 else 0)
      ensures ok <==> Retain(old(View())).Done?
      ensures ok ==> View() == Retain(old(View())).lease
    {
      if releaseRequested {
        return false;
      }
      pendingHolds := pendingHolds + 1;
      return true;
    }

    /** `_finish_hold`; `false` stands for either of the two accounting errors it can meet. */
    method FinishHold() returns (ok: bool)
      requires limiter.Valid()
      modifies this, limiter`available, limiter`waiters, limiter.issued.Values
      ensures limiter.Valid()
      ensures View() == if LeaseCore.FinishHold(old(View())).Done? then LeaseCore.FinishHold(old(View())).lease else old(View())
      ensures SlotEffect(LeaseCore.FinishHold(old(View())), old(limiter.View()), limiter.View(), ok)
    {
      var releaseCapacity := false;
      if pendingHolds < 1 {
        return false;
      }
      pendingHolds := pendingHolds - 1;
      if releaseRequested && pendingHolds == 0 && !released {
        released := true;
        releaseCapacity := true;
      }
      ok := true;
      if releaseCapacity {
        ok := limiter.Release();
      }
    }

    method Release() returns (ok: bool)
      requires limiter.Valid()
      modifies this, limiter`available, limiter`waiters, limiter.issued.Values
      ensures limiter.Valid()
      ensures View() == RequestRelease(old(View())).lease
      ensures SlotEffect(RequestRelease(old(View())), old(limiter.View()), limiter.View(), ok)
    {
      var releaseCapacity := false;
      if releaseRequested {
        return true;
      }
      releaseRequested := true;
      if pendingHolds == 0 {
        released := true;
        releaseCapacity := true;
      }
      ok := true;
      if releaseCapacity {
        ok := limiter.Release();
      }
    }
  }

  /** The limiter released one slot if the lease said so, and was left alone otherwise. */
  ghost predicate SlotEffect(o: Outcome, before: Core, after: Core, ok: bool)
    requires WellQueued(before)
  {
    match o
    case Raised => !ok && after == before
    case Done(_, returnSlot) =>
      if returnSlot then
        after == LimiterCore.Release(before).core && (ok <==> !LimiterCore.Release(before).TooMany?)
      else
        ok && after == before
  }
}
