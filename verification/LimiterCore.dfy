/**
 The state of one `AsyncCapacityLimiter` and the effect of each of its critical sections.
 Waiters are named by the arrival ticket of the `acquire` call that created them.
 */
module LimiterCore {
  import opened Futures

  type Ticket = nat

  datatype Core = Core(
    capacity: nat,
    maxWaiters: nat,
    available: nat,
    queue: seq<Ticket>,
    futs: map<Ticket, FutureState>)

  datatype Admission = Immediate | Queued | Overloaded

  datatype Released =
    | Granted(core: Core, waiter: Ticket)
    | Restored(core: Core)
    | TooMany(core: Core)

  predicate Increasing(s: seq<Ticket>) {
    forall i, j | 0 <= i < j < |s| :: s[i] < s[j]
  }

  /** Distinct waiters in arrival order, each in a state that `release` may claim. */
  predicate WellQueued(c: Core) {
    && Increasing(c.queue)
    && forall t | t in c.queue :: t in c.futs && c.futs[t].Claimable()
  }

  function Remove(q: seq<Ticket>, t: Ticket): (r: seq<Ticket>)
    ensures |r| <= |q|
    ensures forall u :: u in r <==> u in q && u != t
    ensures Increasing(q) ==> Increasing(r)
  {
    if q == [] then []
    else
      var rest := Remove(q[1..], t);
      assert Increasing(q) ==> Increasing(q[1..]);
      assert Increasing(q) ==> forall u | u in q[1..] :: q[0] < u;
      assert forall i | 0 <= i < |rest| :: rest[i] in rest;
      if q[0] == t then rest else [q[0]] + rest
  }

  /** First critical section of `acquire`. */
  function Admit(c: Core, t: Ticket): (Core, Admission) {
    if c.available > 0 then
      (c.(available := c.available - 1), Immediate)
    else if |c.queue| >= c.maxWaiters then
      (c, Overloaded)
    else
      (c.(queue := c.queue + [t], futs := c.futs[t := Pending]), Queued)
  }

  /** `waiter.cancel()`, whoever calls it. */
  function CancelFuture(c: Core, t: Ticket): Core {
    if t in c.futs then c.(futs := c.futs[t := c.futs[t].AfterCancel()]) else c
  }

  /** Critical section of the `except CancelledError` branch of `acquire`. */
  function Withdraw(c: Core, t: Ticket): Core
    requires t in c.futs
  {
    if c.futs[t].CanCancel() then
      CancelFuture(c, t).(queue := Remove(c.queue, t))
    else
      c
  }

  /** One turn of the release loop that meets a cancelled waiter. */
  function SkipCancelled(c: Core): (r: Core)
    requires WellQueued(c) && c.queue != [] && !c.futs[c.queue[0]].Pending?
    ensures WellQueued(r)
  {
    c.(queue := c.queue[1..], futs := c.futs[c.queue[0] := CancelledAndNotified])
  }

  /** `release`: hand the slot to the first waiter that still wants it, else restore it. */
  function Release(c: Core): Released
    requires WellQueued(c)
    decreases |c.queue|
  {
    if c.queue == [] then
      if c.available >= c.capacity then TooMany(c) else Restored(c.(available := c.available + 1))
    else if c.futs[c.queue[0]].Pending? then
      Granted(c.(queue := c.queue[1..], futs := c.futs[c.queue[0] := Finished]), c.queue[0])
    else
      Release(SkipCancelled(c))
  }

  /** How many queued waiters ahead of the first one still waiting have been cancelled. */
  function CancelledPrefix(c: Core): (k: nat)
    requires WellQueued(c)
    ensures k <= |c.queue|
    ensures forall i | 0 <= i < k :: c.futs[c.queue[i]].Cancelled?
    ensures k < |c.queue| ==> c.futs[c.queue[k]].Pending?
    decreases |c.queue|
  {
    if c.queue == [] || c.futs[c.queue[0]].Pending? then 0
    else
      var k := CancelledPrefix(SkipCancelled(c));
      assert forall i | 1 <= i <= k :: c.queue[i] == c.queue[1..][i - 1];
      1 + k
  }

  /** The future of `t` after a release that skips `k` cancelled waiters. */
  function FutureAfterRelease(c: Core, k: nat, t: Ticket): FutureState
    requires k <= |c.queue| && t in c.futs
  {
    if t in c.queue[..k] then CancelledAndNotified
    else if k < |c.queue| && t == c.queue[k] then Finished
    else c.futs[t]
  }

  ghost predicate ReleasesAs(c: Core, k: nat, r: Released)
    requires k <= |c.queue|
  {
    && r.core.capacity == c.capacity && r.core.maxWaiters == c.maxWaiters
    && r.core.futs.Keys == c.futs.Keys
    && (forall t | t in c.futs :: r.core.futs[t] == FutureAfterRelease(c, k, t))
    && (if k < |c.queue| then
          r.Granted? && r.waiter == c.queue[k] && r.core.queue == c.queue[k + 1..] && r.core.available == c.available
        else if c.available < c.capacity then
          r.Restored? && r.core.queue == [] && r.core.available == c.available + 1
        else
          r.TooMany? && r.core.queue == [] && r.core.available == c.available)
  }

  lemma SkipThenRelease(c: Core, k: nat, r: Released)
    requires WellQueued(c) && c.queue != [] && !c.futs[c.queue[0]].Pending?
    requires k < |c.queue| && ReleasesAs(SkipCancelled(c), k, r)
    ensures ReleasesAs(c, k + 1, r)
  {
    var c' := SkipCancelled(c);
    forall t | t in c.futs ensures FutureAfterRelease(c, k + 1, t) == FutureAfterRelease(c', k, t) {
      assert c.queue[..k + 1] == [c.queue[0]] + c'.queue[..k];
    }
  }

  /**
   One release in closed form: it notifies the cancelled prefix, grants the first waiter that
   still wants the slot, and restores the slot only if no such waiter exists.
   */
  lemma {:induction false} ReleaseClosedForm(c: Core)
    requires WellQueued(c)
    ensures ReleasesAs(c, CancelledPrefix(c), Release(c))
    decreases |c.queue|
  {
    if c.queue != [] && !c.futs[c.queue[0]].Pending? {
      ReleaseClosedForm(SkipCancelled(c));
      SkipThenRelease(c, CancelledPrefix(c) - 1, Release(c));
    }
  }
}
