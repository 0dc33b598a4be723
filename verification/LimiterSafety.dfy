/** What every interleaving of the limiter protocol keeps. */
module LimiterSafety {
  import opened Futures
  import opened LimiterCore
  import opened LimiterProtocol

  /** Call `t` accounts for one slot: a grant not yet observed, a lease, or a return still to run. */
  predicate Owns(s: Sys, t: Ticket) {
    && t < |s.calls|
    && match s.calls[t] {
         case Waiting(_) => t in s.core.futs && s.core.futs[t].Finished?
         case Surrendering => true
         case Leased(_, _, returned) => !returned
         case _ => false
       }
  }

  predicate WasGranted(s: Sys, t: Ticket) {
    && t < |s.calls|
    && match s.calls[t] {
         case Waiting(_) => t in s.core.futs && s.core.futs[t].Finished?
         case Rejected => false
         case Withdrawn => false
         case _ => true
       }
  }

  ghost function Owners(s: Sys): set<Ticket> {
    set t | 0 <= t < |s.calls| && Owns(s, t)
  }

  function Unfired(holds: seq<Hold>): nat {
    if holds == [] then 0 else (if holds[|holds| - 1].fired then 0 else 1) + Unfired(holds[..|holds| - 1])
  }

  ghost predicate LeaseOk(c: Call) {
    c.Leased? ==>
      && c.lease.pendingHolds == Unfired(c.holds)
      && (forall i | 0 <= i < |c.holds| :: c.holds[i].fired ==> c.holds[i].finished)
      && (c.lease.released <==> c.lease.releaseRequested && c.lease.pendingHolds == 0)
      && (c.returned ==> c.lease.released)
  }

  ghost predicate QueueOk(s: Sys) {
    && WellQueued(s.core)
    && |s.core.queue| <= s.core.maxWaiters
    && (s.core.queue != [] ==> s.core.available == 0)
    && (forall t | t in s.core.queue :: t < |s.calls| && s.calls[t].Waiting?)
  }

  ghost predicate WaiterOk(s: Sys, t: Ticket)
    requires t < |s.calls|
  {
    s.calls[t].Waiting? ==>
      && t in s.core.futs
      && !s.core.futs[t].Running?
      && (s.core.futs[t].Claimable() ==> t in s.core.queue)
      && (s.core.futs[t].Cancelled? || s.core.futs[t].CancelledAndNotified? ==> s.calls[t].cancelled)
  }

  ghost predicate CallsOk(s: Sys) {
    && (forall t | t in s.core.futs :: t < |s.calls|)
    && (forall t: Ticket | t < |s.calls| :: WaiterOk(s, t) && LeaseOk(s.calls[t]))
  }

  /** First come, first served: granted tickets, then queued ones, in arrival order. */
  ghost predicate Fifo(s: Sys) {
    && Increasing(s.grants + s.core.queue)
    && (forall t :: t in s.grants <==> WasGranted(s, t))
  }

  ghost predicate Conserved(s: Sys) {
    s.core.available + |Owners(s)| == s.core.capacity
  }

  ghost predicate Inv(s: Sys) {
    QueueOk(s) && CallsOk(s) && Fifo(s) && Conserved(s) && !s.faulted
  }

  lemma InitInv(capacity: nat, maxWaiters: nat)
    ensures Inv(Init(capacity, maxWaiters))
  {
    assert Owners(Init(capacity, maxWaiters)) == {};
  }

  lemma {:induction false} UnfiredUpdate(holds: seq<Hold>, i: nat, h: Hold)
    requires i < |holds|
    ensures Unfired(holds[i := h]) == Unfired(holds) - (if holds[i].fired then 0 else 1) + (if h.fired then 0 else 1)
  {
    var n := |holds| - 1;
    if i < n {
      UnfiredUpdate(holds[..n], i, h);
      assert holds[i := h][..n] == holds[..n][i := h];
    } else {
      assert holds[i := h][..n] == holds[..n];
    }
  }

  lemma {:induction false} UnfiredZero(holds: seq<Hold>)
    ensures Unfired(holds) == 0 <==> forall i | 0 <= i < |holds| :: holds[i].fired
  {
    if holds == [] {
    } else {
      var n := |holds| - 1;
      UnfiredZero(holds[..n]);
      assert forall i | 0 <= i < n :: holds[i] == holds[..n][i];
    }
  }

  lemma IncreasingAppend(q: seq<Ticket>, t: Ticket)
    requires Increasing(q) && forall u | u in q :: u < t
    ensures Increasing(q + [t])
  {
    assert forall i | 0 <= i < |q| :: q[i] in q;
  }

  lemma IncreasingParts(p: seq<Ticket>, q: seq<Ticket>)
    requires Increasing(p + q)
    ensures Increasing(p) && Increasing(q)
    ensures forall u, v | u in p && v in q :: u < v
  {
    var r := p + q;
    assert forall i | 0 <= i < |p| :: p[i] == r[i];
    assert forall i | 0 <= i < |q| :: q[i] == r[|p| + i];
  }

  lemma IncreasingJoin(p: seq<Ticket>, q: seq<Ticket>)
    requires Increasing(p) && Increasing(q)
    requires forall u, v | u in p && v in q :: u < v
    ensures Increasing(p + q)
  {
    forall i, j | 0 <= i < j < |p + q| ensures (p + q)[i] < (p + q)[j] {
      if i < |p| <= j {
        assert p[i] in p && q[j - |p|] in q;
      }
    }
  }

  lemma AcquireKeeps(s: Sys)
    requires Inv(s)
    ensures Inv(Apply(s, Acquire))
  {
    AcquireCalls(s);
    AcquireFifo(s);
    AcquireConserves(s);
  }

  lemma AcquireConserves(s: Sys)
    requires Inv(s)
    ensures Conserved(Apply(s, Acquire))
  {
    var t, s' := |s.calls|, Apply(s, Acquire);
    assert t !in s.core.futs;
    assert forall u :: Owns(s', u) <==> Owns(s, u) || (u == t && s.core.available > 0);
    assert t !in Owners(s);
    assert Owners(s') == if s.core.available > 0 then Owners(s) + {t} else Owners(s);
  }

  lemma AcquireCalls(s: Sys)
    requires Inv(s)
    ensures QueueOk(Apply(s, Acquire)) && CallsOk(Apply(s, Acquire))
  {
    var t, s' := |s.calls|, Apply(s, Acquire);
    assert t !in s.core.futs && t !in s.core.queue;
    IncreasingAppend(s.core.queue, t);
    forall u: Ticket | u < |s'.calls| ensures WaiterOk(s', u) && LeaseOk(s'.calls[u]) {
      assert u < t ==> WaiterOk(s, u) && LeaseOk(s.calls[u]);
    }
  }

  lemma AcquireFifo(s: Sys)
    requires Inv(s)
    ensures Fifo(Apply(s, Acquire))
  {
    var t, s' := |s.calls|, Apply(s, Acquire);
    var order := s.grants + s.core.queue;
    assert forall u | u in s.grants :: WasGranted(s, u);
    assert forall u | u in order :: u < t;
    IncreasingAppend(order, t);
    assert s'.grants + s'.core.queue == order || s'.grants + s'.core.queue == order + [t];
    assert forall u :: WasGranted(s', u) <==> WasGranted(s, u) || (u == t && s.core.available > 0);
  }

  lemma CancelKeeps(s: Sys, a: Action)
    requires Inv(s) && Enabled(s, a)
    requires a.CancelTask? || a.ChainedCancel?
    ensures Inv(Apply(s, a))
  {
    var s' := Apply(s, a);
    assert forall u :: Owns(s', u) == Owns(s, u) && WasGranted(s', u) == WasGranted(s, u);
    assert Owners(s') == Owners(s);
  }

  lemma ExceptBodyKeeps(s: Sys, t: Ticket)
    requires Inv(s) && Enabled(s, ExceptBody(t))
    ensures Inv(Apply(s, ExceptBody(t)))
  {
    var s' := Apply(s, ExceptBody(t));
    assert forall u :: Owns(s', u) == Owns(s, u) && WasGranted(s', u) == WasGranted(s, u);
    assert Owners(s') == Owners(s);
    IncreasingParts(s.grants, s.core.queue);
    IncreasingJoin(s'.grants, s'.core.queue);
  }

  /** Changing one lease, or turning an unobserved grant into one, disturbs nobody else. */
  lemma OneLeaseChanges(s: Sys, t: Ticket, c: Call)
    requires Inv(s) && t < |s.calls| && c.Leased? && LeaseOk(c)
    requires match s.calls[t] {
      case Leased(_, _, returned) => c.returned == returned
      case Waiting(_) => Owns(s, t) && !c.returned
      case _ => false
    }
    ensures Inv(SetCall(s, t, c))
  {
    var s' := SetCall(s, t, c);
    assert t !in s.core.queue by { assert WaiterOk(s, t); }
    assert forall u :: Owns(s', u) == Owns(s, u) && WasGranted(s', u) == WasGranted(s, u);
    assert Owners(s') == Owners(s);
    forall u: Ticket | u < |s'.calls| ensures WaiterOk(s', u) && LeaseOk(s'.calls[u]) {
      assert u != t ==> WaiterOk(s, u) && LeaseOk(s.calls[u]);
    }
  }

  lemma LeaseStepKeeps(s: Sys, a: Action)
    requires Inv(s) && Enabled(s, a)
    requires a.Observe? || a.HoldUntilComplete? || a.FinishWorker? || a.FireCallback? || a.ReleaseLease?
    ensures Inv(Apply(s, a))
  {
    var s', c := Apply(s, a), s.calls[a.t];
    assert LeaseOk(c);
    if a.HoldUntilComplete? {
      assert (c.holds + [Hold(a.alreadyDone, false)])[..|c.holds|] == c.holds;
    } else if a.FinishWorker? {
      UnfiredUpdate(c.holds, a.i, c.holds[a.i].(finished := true));
    } else if a.FireCallback? {
      UnfiredUpdate(c.holds, a.i, c.holds[a.i].(fired := true));
    }
    OneLeaseChanges(s, a.t, s'.calls[a.t]);
  }

  /** Queue entries before, at and after position `k` are different tickets. */
  lemma QueueSplit(queue: seq<Ticket>, k: nat, u: Ticket)
    requires Increasing(queue) && k < |queue|
    ensures u in queue <==> u in queue[..k] || u == queue[k] || u in queue[k + 1..]
    ensures !(u in queue[..k] && u in queue[k + 1..])
    ensures queue[k] !in queue[..k] && queue[k] !in queue[k + 1..]
    ensures Increasing(queue[k + 1..])
  {
    assert forall i | 0 <= i < k :: queue[..k][i] == queue[i];
    assert forall i | k < i < |queue| :: queue[k + 1..][i - k - 1] == queue[i];
  }

  function QueueAfter(c: Core, k: nat): seq<Ticket>
    requires k <= |c.queue|
  {
    if k < |c.queue| then c.queue[k + 1..] else []
  }

  predicate GrantedAt(c: Core, k: nat, u: Ticket) {
    k < |c.queue| && u == c.queue[k]
  }

  /** What a release means for one waiter. */
  lemma ReleaseFate(c: Core, k: nat, u: Ticket)
    requires WellQueued(c) && k == CancelledPrefix(c)
    ensures WellQueued(c.(queue := QueueAfter(c, k)))
    ensures u in QueueAfter(c, k) ==> u in c.queue && FutureAfterRelease(c, k, u) == c.futs[u] && !GrantedAt(c, k, u)
    ensures u in c.queue && u !in QueueAfter(c, k) ==>
      FutureAfterRelease(c, k, u) == if GrantedAt(c, k, u) then Finished else CancelledAndNotified
    ensures u in c.queue && u !in QueueAfter(c, k) && !GrantedAt(c, k, u) ==> c.futs[u].Cancelled?
    ensures u in c.futs && u !in c.queue ==> FutureAfterRelease(c, k, u) == c.futs[u] && !GrantedAt(c, k, u)
  {
    assert forall i | 0 <= i < k :: c.queue[..k][i] == c.queue[i];
    if k < |c.queue| {
      QueueSplit(c.queue, k, u);
      assert forall i | k < i < |c.queue| :: c.queue[k + 1..][i - k - 1] == c.queue[i];
    } else {
      assert c.queue[..k] == c.queue;
    }
  }

  /** The step `ReturnSlot(t)` in closed form, `k` cancelled waiters being skipped. */
  ghost predicate Returns(s: Sys, t: Ticket, k: nat, s': Sys)
    requires k <= |s.core.queue| && InFlight(s, t)
  {
    var granted := k < |s.core.queue|;
    && s'.calls == s.calls[t := if s.calls[t].Surrendering? then Surrendered else s.calls[t].(returned := true)]
    && s'.core.capacity == s.core.capacity && s'.core.maxWaiters == s.core.maxWaiters
    && s'.core.futs.Keys == s.core.futs.Keys
    && (forall u | u in s.core.futs :: s'.core.futs[u] == FutureAfterRelease(s.core, k, u))
    && s'.core.available == (if granted then s.core.available else s.core.available + 1)
    && s'.core.queue == QueueAfter(s.core, k)
    && s'.grants == (if granted then s.grants + [s.core.queue[k]] else s.grants)
    && !s'.faulted
  }

  /** A slot in flight is accounted for, so returning it never exceeds the capacity. */
  lemma ReturnSlotNeverOverflows(s: Sys, t: Ticket)
    requires Inv(s) && InFlight(s, t)
    ensures s.core.available < s.core.capacity
    ensures !Release(s.core).TooMany?
    ensures Returns(s, t, CancelledPrefix(s.core), Apply(s, ReturnSlot(t)))
  {
    assert t in Owners(s);
    ReleaseClosedForm(s.core);
  }

  lemma ReturnsOne(s: Sys, t: Ticket, k: nat, s': Sys, u: Ticket)
    requires Inv(s) && InFlight(s, t) && k == CancelledPrefix(s.core) && Returns(s, t, k, s')
    ensures Owns(s', u) <==> (Owns(s, u) && u != t) || GrantedAt(s.core, k, u)
    ensures WasGranted(s', u) <==> WasGranted(s, u) || GrantedAt(s.core, k, u)
    ensures GrantedAt(s.core, k, u) ==> u < |s.calls| && !Owns(s, u)
  {
    if u < |s.calls| {
      assert WaiterOk(s, u);
    }
    ReleaseFate(s.core, k, u);
    if GrantedAt(s.core, k, u) {
      assert u in s.core.queue;
    }
  }

  lemma ReturnsOwners(s: Sys, t: Ticket, k: nat, s': Sys)
    requires Inv(s) && InFlight(s, t) && k == CancelledPrefix(s.core) && Returns(s, t, k, s')
    ensures Conserved(s')
  {
    var gained := set u | u in Owners(s') && GrantedAt(s.core, k, u);
    forall u ensures u in Owners(s') <==> u in Owners(s) - {t} + gained {
      ReturnsOne(s, t, k, s', u);
    }
    assert Owners(s') == Owners(s) - {t} + gained;
    assert t in Owners(s);
    if k < |s.core.queue| {
      ReturnsOne(s, t, k, s', s.core.queue[k]);
      assert gained == {s.core.queue[k]};
    } else {
      assert gained == {};
    }
  }

  lemma ReturnsFifo(s: Sys, t: Ticket, k: nat, s': Sys)
    requires Inv(s) && InFlight(s, t) && k == CancelledPrefix(s.core) && Returns(s, t, k, s')
    ensures Fifo(s')
  {
    if k < |s.core.queue| {
      ReturnsOrder(s.grants, s.core.queue, k);
    } else {
      IncreasingParts(s.grants, s.core.queue);
      assert s'.grants + s'.core.queue == s.grants;
    }
    forall u ensures u in s'.grants <==> WasGranted(s', u) {
      ReturnsOne(s, t, k, s', u);
      assert u in s'.grants <==> u in s.grants || GrantedAt(s.core, k, u);
    }
  }

  lemma ReturnsOrder(grants: seq<Ticket>, queue: seq<Ticket>, k: nat)
    requires Increasing(grants + queue) && k < |queue|
    ensures Increasing(grants + [queue[k]] + queue[k + 1..])
  {
    IncreasingParts(grants, queue);
    assert queue == queue[..k] + queue[k..];
    IncreasingParts(queue[..k], queue[k..]);
    assert forall u | u in queue[k..] :: u in queue;
    IncreasingJoin(grants, queue[k..]);
    assert grants + [queue[k]] + queue[k + 1..] == grants + queue[k..];
  }

  lemma ReturnsCalls(s: Sys, t: Ticket, k: nat, s': Sys)
    requires Inv(s) && InFlight(s, t) && k == CancelledPrefix(s.core) && Returns(s, t, k, s')
    ensures QueueOk(s') && CallsOk(s')
  {
    forall u: Ticket | u < |s.calls|
      ensures WaiterOk(s', u) && LeaseOk(s'.calls[u])
    {
      assert WaiterOk(s, u) && LeaseOk(s.calls[u]);
      ReleaseFate(s.core, k, u);
    }
    forall u | u in s'.core.queue
      ensures u < |s.calls| && s'.calls[u].Waiting? && u in s'.core.futs && s'.core.futs[u].Claimable()
    {
      ReleaseFate(s.core, k, u);
    }
    ReleaseFate(s.core, k, t);
    assert |s'.core.queue| <= |s.core.queue|;
  }

  lemma ReturnSlotKeeps(s: Sys, t: Ticket)
    requires Inv(s) && Enabled(s, ReturnSlot(t))
    ensures Inv(Apply(s, ReturnSlot(t)))
  {
    var s', k := Apply(s, ReturnSlot(t)), CancelledPrefix(s.core);
    ReturnSlotNeverOverflows(s, t);
    ReturnsOwners(s, t, k, s');
    ReturnsFifo(s, t, k, s');
    ReturnsCalls(s, t, k, s');
  }
}
