/** The limiter always drains, wakes its waiters, and serves a waiter within bounded releases. */
module LimiterLiveness {
  import opened Collections
  import opened LimiterCore
  import opened LimiterProtocol
  import opened LimiterSafety
  import opened LimiterTheorems

  /** A step that brings in no new `acquire` and no new hold, and is not a repetition without effect. */
  predicate Drains(s: Sys, a: Action) {
    && Enabled(s, a)
    && match a {
         case Acquire => false
         case HoldUntilComplete(_, _) => false
         case ChainedCancel(t) => s.core.futs[t].Pending?
         case ReleaseLease(t) => !s.calls[t].lease.releaseRequested
         case _ => true
       }
  }

  function HoldRank(holds: seq<Hold>): nat {
    if holds == [] then 0
    else
      var h := holds[|holds| - 1];
      HoldRank(holds[..|holds| - 1]) + (if h.finished then 0 else 1) + (if h.fired then 0 else 1)
  }

  /** How much is left to happen to call `t`. */
  function Rank(s: Sys, t: Ticket): nat
    requires t < |s.calls|
  {
    match s.calls[t]
    case Waiting(cancelled) =>
      (if cancelled then 3 else 4) + (if t in s.core.futs && s.core.futs[t].Pending? then 1 else 0)
    case Surrendering => 1
    case Leased(lease, holds, returned) =>
      (if lease.releaseRequested then 0 else 1) + (if returned then 0 else 1) + HoldRank(holds)
    case _ => 0
  }

  function Measure(s: Sys, n: nat): nat
    requires n <= |s.calls|
  {
    if n == 0 then 0 else Measure(s, n - 1) + Rank(s, n - 1)
  }

  lemma {:induction false} HoldRankUpdate(holds: seq<Hold>, i: nat, h: Hold)
    requires i < |holds|
    requires (!holds[i].finished && h == holds[i].(finished := true)) || (!holds[i].fired && h == holds[i].(fired := true))
    ensures HoldRank(holds[i := h]) < HoldRank(holds)
  {
    var n := |holds| - 1;
    if i < n {
      HoldRankUpdate(holds[..n], i, h);
      assert holds[i := h][..n] == holds[..n][i := h];
    } else {
      assert holds[i := h][..n] == holds[..n];
    }
  }

  lemma {:induction false} MeasureDecreases(s: Sys, s': Sys, n: nat, t: Ticket)
    requires n <= |s.calls| == |s'.calls|
    requires forall u: Ticket | u < n :: Rank(s', u) <= Rank(s, u)
    requires t < n ==> Rank(s', t) < Rank(s, t)
    ensures Measure(s', n) <= Measure(s, n)
    ensures t < n ==> Measure(s', n) < Measure(s, n)
  {
    if n == 0 {
    } else {
      MeasureDecreases(s, s', n - 1, t);
    }
  }

  lemma RankAfterReturn(s: Sys, t: Ticket, k: nat, s': Sys, u: Ticket)
    requires Inv(s) && InFlight(s, t) && k == CancelledPrefix(s.core) && Returns(s, t, k, s') && u < |s.calls|
    ensures u < |s'.calls| && Rank(s', u) <= Rank(s, u)
    ensures u == t ==> Rank(s', u) < Rank(s, u)
  {
    assert WaiterOk(s, u);
  }

  lemma ReturnSlotRanks(s: Sys, t: Ticket)
    requires Inv(s) && Enabled(s, ReturnSlot(t))
    ensures var s' := Apply(s, ReturnSlot(t));
      && |s'.calls| == |s.calls|
      && (forall u: Ticket | u < |s.calls| :: Rank(s', u) <= Rank(s, u))
      && Rank(s', t) < Rank(s, t)
  {
    var s' := Apply(s, ReturnSlot(t));
    ReturnSlotNeverOverflows(s, t);
    forall u: Ticket | u < |s.calls| ensures Rank(s', u) <= Rank(s, u) {
      RankAfterReturn(s, t, CancelledPrefix(s.core), s', u);
    }
    RankAfterReturn(s, t, CancelledPrefix(s.core), s', t);
  }

  lemma DrainStepDecreases(s: Sys, a: Action)
    requires Inv(s) && Drains(s, a)
    ensures |Apply(s, a).calls| == |s.calls|
    ensures Measure(Apply(s, a), |s.calls|) < Measure(s, |s.calls|)
  {
    var s' := Apply(s, a);
    if a.ReturnSlot? {
      ReturnSlotRanks(s, a.t);
    } else if a.FinishWorker? {
      HoldRankUpdate(s.calls[a.t].holds, a.i, s.calls[a.t].holds[a.i].(finished := true));
    } else if a.FireCallback? {
      StepKeeps(s, a);
      HoldRankUpdate(s.calls[a.t].holds, a.i, s.calls[a.t].holds[a.i].(fired := true));
    }
    MeasureDecreases(s, s', |s.calls|, a.t);
  }

  predicate DrainRun(s: Sys, acts: seq<Action>)
    decreases |acts|
  {
    acts == [] || (Drains(s, acts[0]) && DrainRun(Apply(s, acts[0]), acts[1..]))
  }

  lemma {:induction false} DrainRunIsRun(s: Sys, acts: seq<Action>)
    requires DrainRun(s, acts)
    ensures Executable(s, acts)
    decreases |acts|
  {
    if acts == [] {
    } else {
      DrainRunIsRun(Apply(s, acts[0]), acts[1..]);
    }
  }

  /** Draining terminates: its length is bounded by a measure of the state it starts from. */
  lemma {:induction false} DrainingIsBounded(s: Sys, acts: seq<Action>)
    requires Inv(s) && DrainRun(s, acts)
    ensures |acts| <= Measure(s, |s.calls|)
    decreases |acts|
  {
    if acts == [] {
    } else {
      DrainStepDecreases(s, acts[0]);
      StepKeeps(s, acts[0]);
      DrainingIsBounded(Apply(s, acts[0]), acts[1..]);
    }
  }

  /** Nobody waits, nothing is held, and every slot is free. */
  predicate Drained(s: Sys) {
    && s.core.queue == []
    && s.core.available == s.core.capacity
    && forall t | 0 <= t < |s.calls| ::
         || s.calls[t].Rejected? || s.calls[t].Withdrawn? || s.calls[t].Surrendered?
         || (s.calls[t].Leased? && s.calls[t].returned)
  }

  predicate Cancels(a: Action) {
    a.CancelTask? || a.ChainedCancel?
  }

  /** What the owner of a slot, or a waiter that was cancelled, can always do next. */
  ghost function NextStep(s: Sys, t: Ticket): (a: Action)
    requires Inv(s) && t < |s.calls|
    requires Owns(s, t) || (s.calls[t].Waiting? && s.calls[t].cancelled)
    ensures Drains(s, a) && !Cancels(a)
  {
    assert WaiterOk(s, t) && LeaseOk(s.calls[t]);
    match s.calls[t]
    case Waiting(cancelled) => if cancelled then ExceptBody(t) else Observe(t)
    case Surrendering => ReturnSlot(t)
    case Leased(lease, holds, returned) =>
      if !lease.releaseRequested then ReleaseLease(t)
      else if lease.released then ReturnSlot(t)
      else
        UnfiredZero(holds);
        var i :| 0 <= i < |holds| && !holds[i].fired;
        if holds[i].finished then FireCallback(t, i) else FinishWorker(t, i)
  }

  /**
   No lost wake-up: as long as anything is undone, some step other than a cancellation is enabled.
   A run of draining steps therefore ends only with an empty queue and every slot free.
   */
  lemma StuckOnlyWhenDrained(capacity: nat, maxWaiters: nat, s: Sys)
    requires capacity >= 1 && Reachable(capacity, maxWaiters, s)
    ensures Drained(s) <==> forall a | Drains(s, a) :: Cancels(a)
  {
    ReachableInv(capacity, maxWaiters, s);
    if Drained(s) {
      DrainedIsStuck(s);
    } else {
      var a := SomeNextStep(s);
    }
  }

  lemma DrainedIsStuck(s: Sys)
    requires Inv(s) && Drained(s)
    ensures forall a :: !Drains(s, a)
  {
    forall t: Ticket | t < |s.calls| ensures LeaseOk(s.calls[t]) {}
    forall a | Drains(s, a) ensures false {
      if a.FinishWorker? || a.FireCallback? {
        UnfiredZero(s.calls[a.t].holds);
      }
    }
  }

  lemma SomeNextStep(s: Sys) returns (a: Action)
    requires Inv(s) && s.core.capacity >= 1 && !Drained(s)
    ensures Drains(s, a) && !Cancels(a)
  {
    if t: Ticket :| t < |s.calls| && (Owns(s, t) || (s.calls[t].Waiting? && s.calls[t].cancelled)) {
      a := NextStep(s, t);
    } else {
      assert Owners(s) == {};
      assert s.core.queue == [];
      forall t: Ticket | t < |s.calls| ensures !s.calls[t].Waiting? {
        assert WaiterOk(s, t);
      }
      assert false;
    }
  }

  /** From every reachable state the work can be drained without cancelling anyone. */
  lemma {:induction false} DrainableWithoutCancelling(s: Sys) returns (acts: seq<Action>)
    requires Inv(s) && s.core.capacity >= 1
    ensures DrainRun(s, acts) && Executable(s, acts) && Drained(Run(s, acts))
    ensures forall a | a in acts :: !Cancels(a)
    decreases Measure(s, |s.calls|)
  {
    if Drained(s) {
      acts := [];
    } else {
      var a := SomeNextStep(s);
      StepKeeps(s, a);
      DrainStepDecreases(s, a);
      StepKeepsLimits(s, a);
      var rest := DrainableWithoutCancelling(Apply(s, a));
      acts := [a] + rest;
    }
  }

  // ---- Waiter progress ----

  /** The queued waiters in front of `t`. */
  ghost function Ahead(q: seq<Ticket>, t: Ticket): set<Ticket> {
    set u | u in q && u < t
  }

  lemma {:induction false} AheadIsPosition(q: seq<Ticket>, k: nat)
    requires Increasing(q) && k < |q|
    ensures |Ahead(q, q[k])| == k
  {
    if k == 0 {
      assert Ahead(q, q[0]) == {};
    } else {
      AheadIsPosition(q, k - 1);
      forall u ensures u in Ahead(q, q[k]) <==> u in Ahead(q, q[k - 1]) || u == q[k - 1] {
        if u in q {
          var i :| 0 <= i < |q| && q[i] == u;
          assert u < q[k] <==> i < k;
          assert u < q[k - 1] <==> i < k - 1;
        }
      }
      assert Ahead(q, q[k]) == Ahead(q, q[k - 1]) + {q[k - 1]};
    }
  }

  function Releases(acts: seq<Action>): nat {
    if acts == [] then 0 else (if acts[0].ReturnSlot? then 1 else 0) + Releases(acts[1..])
  }

  lemma SuffixMovesUp(q: seq<Ticket>, k: nat, t: Ticket)
    requires Increasing(q) && k < |q| && t in q[k + 1..]
    ensures t in q && |Ahead(q[k + 1..], t)| < |Ahead(q, t)|
  {
    var r := q[k + 1..];
    var j :| 0 <= j < |r| && r[j] == t;
    assert q[k + 1 + j] == t;
    AheadIsPosition(r, j);
    AheadIsPosition(q, k + 1 + j);
  }

  lemma ReturnSlotMovesUp(s: Sys, t': Ticket, t: Ticket)
    requires Inv(s) && Enabled(s, ReturnSlot(t')) && t in Apply(s, ReturnSlot(t')).core.queue
    ensures t in s.core.queue
    ensures |Ahead(Apply(s, ReturnSlot(t')).core.queue, t)| < |Ahead(s.core.queue, t)|
  {
    ReturnSlotQueue(s, t');
    SuffixMovesUp(s.core.queue, CancelledPrefix(s.core), t);
  }

  lemma ReturnSlotQueue(s: Sys, t: Ticket)
    requires Inv(s) && Enabled(s, ReturnSlot(t))
    ensures Apply(s, ReturnSlot(t)).core.queue == QueueAfter(s.core, CancelledPrefix(s.core))
  {
    ReturnSlotNeverOverflows(s, t);
  }

  lemma StepMovesUp(s: Sys, a: Action, t: Ticket)
    requires Inv(s) && Enabled(s, a) && t < |s.calls|
    requires t in Apply(s, a).core.queue
    ensures t in s.core.queue
    ensures |Ahead(Apply(s, a).core.queue, t)| + (if a.ReturnSlot? then 1 else 0) <= |Ahead(s.core.queue, t)|
  {
    if a.ReturnSlot? {
      ReturnSlotMovesUp(s, a.t, t);
    } else {
      var q, q' := s.core.queue, Apply(s, a).core.queue;
      assert forall u | u in q' && u <= t :: u in q;
      SubsetSize(Ahead(q', t), Ahead(q, t));
    }
  }

  lemma {:induction false} RunMovesUp(s: Sys, acts: seq<Action>, t: Ticket)
    requires Inv(s) && Executable(s, acts) && t < |s.calls|
    requires t in Run(s, acts).core.queue
    ensures t in s.core.queue
    ensures |Ahead(Run(s, acts).core.queue, t)| + Releases(acts) <= |Ahead(s.core.queue, t)|
    decreases |acts|
  {
    if acts == [] {
    } else {
      StepKeeps(s, acts[0]);
      RunMovesUp(Apply(s, acts[0]), acts[1..], t);
      StepMovesUp(s, acts[0], t);
    }
  }

  /** The waiter at position `k` has left the queue, granted or cancelled, after `k + 1` releases. */
  lemma WaiterServedWithinItsPosition(s: Sys, acts: seq<Action>, k: nat)
    requires Inv(s) && k < |s.core.queue| && Executable(s, acts) && Releases(acts) > k
    ensures s.core.queue[k] !in Run(s, acts).core.queue
    ensures WasGranted(Run(s, acts), s.core.queue[k]) || RefusedOrCancelled(Run(s, acts), s.core.queue[k])
  {
    var t := s.core.queue[k];
    assert t in s.core.queue;
    AheadIsPosition(s.core.queue, k);
    if t in Run(s, acts).core.queue {
      RunMovesUp(s, acts, t);
    }
    RunKeeps(s, acts);
    RunExtendsCalls(s, acts);
    assert WaiterOk(Run(s, acts), t);
  }

  lemma {:induction false} RunExtendsCalls(s: Sys, acts: seq<Action>)
    requires Executable(s, acts)
    ensures |s.calls| <= |Run(s, acts).calls|
    decreases |acts|
  {
    if acts == [] {
    } else {
      RunExtendsCalls(Apply(s, acts[0]), acts[1..]);
    }
  }
}
