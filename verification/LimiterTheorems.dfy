/** Safety of the limiter over whole runs, in the terms of its callers. */
module LimiterTheorems {
  import opened LimiterCore
  import opened LimiterProtocol
  import opened LimiterSafety

  lemma StepKeeps(s: Sys, a: Action)
    requires Inv(s) && Enabled(s, a)
    ensures Inv(Apply(s, a))
  {
    match a
    case Acquire => AcquireKeeps(s);
    case CancelTask(_) => CancelKeeps(s, a);
    case ChainedCancel(_) => CancelKeeps(s, a);
    case ExceptBody(t) => ExceptBodyKeeps(s, t);
    case ReturnSlot(t) => ReturnSlotKeeps(s, t);
    case _ => LeaseStepKeeps(s, a);
  }

  lemma {:induction false} RunKeeps(s: Sys, acts: seq<Action>)
    requires Inv(s) && Executable(s, acts)
    ensures Inv(Run(s, acts))
    decreases |acts|
  {
    if acts == [] {
    } else {
      StepKeeps(s, acts[0]);
      RunKeeps(Apply(s, acts[0]), acts[1..]);
    }
  }

  ghost predicate Reachable(capacity: nat, maxWaiters: nat, s: Sys) {
    exists acts :: Executable(Init(capacity, maxWaiters), acts) && Run(Init(capacity, maxWaiters), acts) == s
  }

  lemma ReachableInv(capacity: nat, maxWaiters: nat, s: Sys)
    requires Reachable(capacity, maxWaiters, s)
    ensures Inv(s) && s.core.capacity == capacity && s.core.maxWaiters == maxWaiters
  {
    var acts :| Executable(Init(capacity, maxWaiters), acts) && Run(Init(capacity, maxWaiters), acts) == s;
    InitInv(capacity, maxWaiters);
    RunKeeps(Init(capacity, maxWaiters), acts);
    RunKeepsLimits(Init(capacity, maxWaiters), acts);
  }

  lemma StepKeepsLimits(s: Sys, a: Action)
    requires Inv(s) && Enabled(s, a)
    ensures Apply(s, a).core.capacity == s.core.capacity && Apply(s, a).core.maxWaiters == s.core.maxWaiters
  {
    if a.ReturnSlot? {
      ReleaseClosedForm(s.core);
    }
  }

  lemma {:induction false} RunKeepsLimits(s: Sys, acts: seq<Action>)
    requires Inv(s) && Executable(s, acts)
    ensures Run(s, acts).core.capacity == s.core.capacity && Run(s, acts).core.maxWaiters == s.core.maxWaiters
    decreases |acts|
  {
    if acts == [] {
    } else {
      StepKeepsLimits(s, acts[0]);
      StepKeeps(s, acts[0]);
      RunKeepsLimits(Apply(s, acts[0]), acts[1..]);
    }
  }

  // ---- Conservation ----

  ghost function UnreleasedLeases(s: Sys): set<Ticket> {
    set t | 0 <= t < |s.calls| && s.calls[t].Leased? && !s.calls[t].lease.released
  }

  ghost function UnobservedGrants(s: Sys): set<Ticket> {
    set t | 0 <= t < |s.calls| && s.calls[t].Waiting? && t in s.core.futs && s.core.futs[t].Finished?
  }

  ghost function ReturnsInFlight(s: Sys): set<Ticket> {
    set t | 0 <= t < |s.calls| && InFlight(s, t)
  }

  /**
   Capacity is neither lost nor minted: in every interleaving the free slots, unreleased leases,
   grants nobody has observed yet and slots on their way back add up to the capacity, and neither
   "released too many times" nor "hold completed too many times" is ever raised.
   */
  lemma CapacityIsConserved(capacity: nat, maxWaiters: nat, s: Sys)
    requires Reachable(capacity, maxWaiters, s)
    ensures s.core.available + |UnreleasedLeases(s)| + |UnobservedGrants(s)| + |ReturnsInFlight(s)| == capacity
    ensures !s.faulted
    ensures forall t | InFlight(s, t) :: WellQueued(s.core) && !Release(s.core).TooMany?
    ensures |s.core.queue| <= maxWaiters
  {
    ReachableInv(capacity, maxWaiters, s);
    forall t: Ticket | t < |s.calls| ensures LeaseOk(s.calls[t]) {}
    var leases, grants, inFlight := UnreleasedLeases(s), UnobservedGrants(s), ReturnsInFlight(s);
    assert Owners(s) == leases + grants + inFlight;
    assert leases !! grants && leases + grants !! inFlight;
    forall t | InFlight(s, t) ensures WellQueued(s.core) && !Release(s.core).TooMany? {
      ReturnSlotNeverOverflows(s, t);
    }
  }

  // ---- Order ----

  /** An `acquire` that will never receive a slot: overloaded, or cancelled while it waited. */
  predicate RefusedOrCancelled(s: Sys, t: Ticket) {
    && t < |s.calls|
    && match s.calls[t] {
         case Rejected => true
         case Withdrawn => true
         case Waiting(cancelled) => cancelled && t in s.core.futs && s.core.futs[t].CancelledAndNotified?
         case _ => false
       }
  }

  /**
   First come, first served. The log of granted tickets, immediate and queued grants alike, is
   strictly increasing; nobody is granted a slot while an earlier caller still waits; and every
   earlier ticket missing from the log was refused or had been cancelled.
   */
  lemma GrantsFollowArrival(capacity: nat, maxWaiters: nat, s: Sys)
    requires Reachable(capacity, maxWaiters, s)
    ensures Increasing(s.grants)
    ensures s.core.queue != [] ==> s.core.available == 0
    ensures forall g, t | g in s.grants && t in s.core.queue :: g < t
    ensures forall g, t: Ticket | g in s.grants && t < g && t !in s.grants :: RefusedOrCancelled(s, t)
  {
    ReachableInv(capacity, maxWaiters, s);
    IncreasingParts(s.grants, s.core.queue);
    forall g, t: Ticket | g in s.grants && t < g && t !in s.grants ensures RefusedOrCancelled(s, t) {
      assert WasGranted(s, g) && !WasGranted(s, t);
      assert WaiterOk(s, t);
    }
  }

  // ---- Leases ----

  /**
   A lease is marked released exactly when its release was requested and no hold is pending, so
   never while a worker it holds is unfinished, whatever the number and order of the holds.
   */
  lemma LeaseReleasedExactlyWhenDue(capacity: nat, maxWaiters: nat, s: Sys, t: Ticket)
    requires Reachable(capacity, maxWaiters, s) && HasLease(s, t)
    ensures var c := s.calls[t];
      && (c.lease.released <==> c.lease.releaseRequested && forall i | 0 <= i < |c.holds| :: c.holds[i].fired)
      && (c.lease.released ==> forall i | 0 <= i < |c.holds| :: c.holds[i].finished)
      && (c.returned ==> c.lease.released)
      && (c.lease.released && !c.returned ==> Enabled(s, ReturnSlot(t)))
  {
    ReachableInv(capacity, maxWaiters, s);
    assert LeaseOk(s.calls[t]);
    UnfiredZero(s.calls[t].holds);
  }

  /** Once release is requested the lease takes no further hold. */
  lemma {:induction false} NoHoldAfterRelease(s: Sys, acts: seq<Action>, t: Ticket)
    requires Inv(s) && Executable(s, acts) && HasLease(s, t) && s.calls[t].lease.releaseRequested
    ensures HasLease(Run(s, acts), t) && Run(s, acts).calls[t].lease.releaseRequested
    ensures |Run(s, acts).calls[t].holds| == |s.calls[t].holds|
    decreases |acts|
  {
    if acts == [] {
    } else {
      StepKeeps(s, acts[0]);
      StepKeepsRequested(s, acts[0], t);
      NoHoldAfterRelease(Apply(s, acts[0]), acts[1..], t);
    }
  }

  lemma StepKeepsRequested(s: Sys, a: Action, t: Ticket)
    requires Inv(s) && Enabled(s, a) && HasLease(s, t) && s.calls[t].lease.releaseRequested
    ensures HasLease(Apply(s, a), t) && Apply(s, a).calls[t].lease.releaseRequested
    ensures |Apply(s, a).calls[t].holds| == |s.calls[t].holds|
  {
    if a.ReturnSlot? {
      ReturnSlotNeverOverflows(s, a.t);
    }
  }

  function TimesReturned(acts: seq<Action>, t: Ticket): nat {
    if acts == [] then 0 else (if acts[0] == ReturnSlot(t) then 1 else 0) + TimesReturned(acts[1..], t)
  }

  predicate HasReturned(s: Sys, t: Ticket) {
    t < |s.calls| && (s.calls[t].Surrendered? || (s.calls[t].Leased? && s.calls[t].returned))
  }

  lemma StepReturnsOnce(s: Sys, a: Action, t: Ticket)
    requires Inv(s) && Enabled(s, a)
    ensures HasReturned(Apply(s, a), t) <==> HasReturned(s, t) || a == ReturnSlot(t)
    ensures !(HasReturned(s, t) && a == ReturnSlot(t))
  {
    if a.ReturnSlot? {
      ReturnSlotNeverOverflows(s, a.t);
    }
  }

  /** The limiter's release runs at most once per granted slot: as often as the slot has been returned. */
  lemma {:induction false} SlotReturnedAtMostOnce(s: Sys, acts: seq<Action>, t: Ticket)
    requires Inv(s) && Executable(s, acts)
    ensures TimesReturned(acts, t) + (if HasReturned(s, t) then 1 else 0) == if HasReturned(Run(s, acts), t) then 1 else 0
    decreases |acts|
  {
    if acts == [] {
    } else {
      StepReturnsOnce(s, acts[0], t);
      StepKeeps(s, acts[0]);
      SlotReturnedAtMostOnce(Apply(s, acts[0]), acts[1..], t);
    }
  }

  /** Over a whole run, for every `acquire`: one return if its slot is back, none otherwise. */
  lemma OneReturnPerAcquire(capacity: nat, maxWaiters: nat, acts: seq<Action>, t: Ticket)
    requires Executable(Init(capacity, maxWaiters), acts)
    ensures TimesReturned(acts, t) == if HasReturned(Run(Init(capacity, maxWaiters), acts), t) then 1 else 0
  {
    InitInv(capacity, maxWaiters);
    SlotReturnedAtMostOnce(Init(capacity, maxWaiters), acts, t);
  }

  // ---- Refusal, cancellation and retention ----

  lemma {:induction false} RejectedStays(s: Sys, acts: seq<Action>, t: Ticket)
    requires Inv(s) && Executable(s, acts) && t < |s.calls|
    ensures t < |Run(s, acts).calls| && (Run(s, acts).calls[t].Rejected? <==> s.calls[t].Rejected?)
    decreases |acts|
  {
    if acts == [] {
    } else {
      if acts[0].ReturnSlot? {
        ReturnSlotNeverOverflows(s, acts[0].t);
      }
      StepKeeps(s, acts[0]);
      RejectedStays(Apply(s, acts[0]), acts[1..], t);
    }
  }

  /** Whatever happens later, an `acquire` counts as refused exactly if it arrived with no free slot and a full queue. */
  lemma RejectedIffFull(s: Sys, acts: seq<Action>)
    requires Inv(s) && Executable(s, acts) && acts != [] && acts[0] == Acquire
    ensures var t := |s.calls|;
      && t < |Run(s, acts).calls|
      && (Run(s, acts).calls[t].Rejected? <==> s.core.available == 0 && |s.core.queue| >= s.core.maxWaiters)
  {
    StepKeeps(s, Acquire);
    RejectedStays(Apply(s, Acquire), acts[1..], |s.calls|);
  }

  lemma RunNext(s: Sys, a: Action, rest: seq<Action>)
    requires Enabled(s, a) && Executable(Apply(s, a), rest)
    ensures Executable(s, [a] + rest) && Run(s, [a] + rest) == Run(Apply(s, a), rest)
  {
    assert ([a] + rest)[1..] == rest;
  }

  /** A waiting task is cancelled, with or without the chained cancellation of its waiter, and handles that. */
  function Cancelling(t: Ticket, chained: bool): seq<Action> {
    [CancelTask(t)] + (if chained then [ChainedCancel(t)] else []) + [ExceptBody(t)]
  }

  /**
   A waiting task can be cancelled at any time. It leaves the queue at once and nobody else notices,
   unless it had been granted a slot, which is then on its way back.
   */
  lemma CancelledWaiterLeaves(s: Sys, t: Ticket, chained: bool)
    requires Inv(s) && t < |s.calls| && s.calls[t] == Waiting(false)
    ensures t in s.core.futs && Executable(s, Cancelling(t, chained))
    ensures var s' := Run(s, Cancelling(t, chained));
      && s'.calls == s.calls[t := if s.core.futs[t].Finished? then Surrendering else Withdrawn]
      && (forall u :: u in s'.core.queue <==> u in s.core.queue && u != t)
      && (forall u | u in s.core.futs && u != t :: u in s'.core.futs && s'.core.futs[u] == s.core.futs[u])
      && s'.core.available == s.core.available && s'.grants == s.grants
      && (s.core.futs[t].Finished? ==> Enabled(s', ReturnSlot(t)))
  {
    assert WaiterOk(s, t);
    var one := Apply(s, CancelTask(t));
    var two := if chained then Apply(one, ChainedCancel(t)) else one;
    RunNext(two, ExceptBody(t), []);
    if chained {
      RunNext(one, ChainedCancel(t), [ExceptBody(t)] + []);
    }
    RunNext(s, CancelTask(t), (if chained then [ChainedCancel(t)] else []) + [ExceptBody(t)]);
    assert [ExceptBody(t)] + [] == [ExceptBody(t)];
    assert [] + [ExceptBody(t)] == [ExceptBody(t)];
    assert Cancelling(t, chained) == [CancelTask(t)] + ((if chained then [ChainedCancel(t)] else []) + [ExceptBody(t)]);
    assert Run(s, Cancelling(t, chained)) == Apply(two, ExceptBody(t));
  }

  /** A lease can be retained for any number of workers, and for one more until its release is requested. */
  lemma HoldTakenIffNotRequested(s: Sys, t: Ticket, alreadyDone: bool)
    requires Inv(s) && HasLease(s, t)
    ensures Enabled(s, HoldUntilComplete(t, alreadyDone))
    ensures var c, c' := s.calls[t], Apply(s, HoldUntilComplete(t, alreadyDone)).calls[t];
      && (c'.Leased? && c'.holds == c.holds + [Hold(alreadyDone, false)] <==> !c.lease.releaseRequested)
      && (c' == c <==> c.lease.releaseRequested)
  {
    var c := s.calls[t];
    assert |c.holds + [Hold(alreadyDone, false)]| == |c.holds| + 1;
  }

  /** A held worker can finish and its callback fire at any time, which takes its hold off the lease and no other. */
  lemma HoldEndsWithItsWorker(s: Sys, t: Ticket, i: nat)
    requires Inv(s) && HasLease(s, t) && i < |s.calls[t].holds| && !s.calls[t].holds[i].finished
    ensures Executable(s, [FinishWorker(t, i)] + [FireCallback(t, i)])
    ensures |Run(s, [FinishWorker(t, i)] + [FireCallback(t, i)]).calls| == |s.calls|
    ensures var c, c' := s.calls[t], Run(s, [FinishWorker(t, i)] + [FireCallback(t, i)]).calls[t];
      && c'.Leased? && c'.holds == c.holds[i := Hold(true, true)]
      && c'.lease.pendingHolds == c.lease.pendingHolds - 1 && c'.lease.releaseRequested == c.lease.releaseRequested
  {
    assert LeaseOk(s.calls[t]);
    var one := Apply(s, FinishWorker(t, i));
    StepKeeps(s, FinishWorker(t, i));
    StepKeeps(one, FireCallback(t, i));
    RunNext(one, FireCallback(t, i), []);
    RunNext(s, FinishWorker(t, i), [FireCallback(t, i)] + []);
    assert [FireCallback(t, i)] + [] == [FireCallback(t, i)];
  }
}
