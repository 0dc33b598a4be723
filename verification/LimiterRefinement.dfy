/**
 The limiter refines a textbook FIFO semaphore whose queue holds only the waiters that still want a
 slot. Cancelled waiters that linger in the concrete queue, and the turns of the release loop that
 discard them, are invisible to it.
 */
module LimiterRefinement {
  import opened Futures
  import opened LimiterCore
  import opened LimiterProtocol
  import opened LimiterSafety
  import opened LimiterTheorems

  datatype Semaphore = Semaphore(free: nat, waiting: seq<Ticket>, served: seq<Ticket>)

  datatype Event =
    | Join(who: Ticket)
    | Leave(who: Ticket)
    | Give
    | Nothing

  /** The reference semaphore. */
  function Next(f: Semaphore, e: Event): Semaphore {
    match e
    case Join(t) =>
      if f.free > 0 then f.(free := f.free - 1, served := f.served + [t]) else f.(waiting := f.waiting + [t])
    case Leave(t) => f.(waiting := Remove(f.waiting, t))
    case Give =>
      if f.waiting == [] then f.(free := f.free + 1)
      else f.(waiting := f.waiting[1..], served := f.served + [f.waiting[0]])
    case Nothing => f
  }

  function NextAll(f: Semaphore, events: seq<Event>): Semaphore
    decreases |events|
  {
    if events == [] then f else NextAll(Next(f, events[0]), events[1..])
  }

  function PendingOnly(q: seq<Ticket>, futs: map<Ticket, FutureState>): seq<Ticket> {
    if q == [] then []
    else
      var rest := PendingOnly(q[1..], futs);
      if q[0] in futs && futs[q[0]].Pending? then [q[0]] + rest else rest
  }

  function Abs(s: Sys): Semaphore {
    Semaphore(s.core.available, PendingOnly(s.core.queue, s.core.futs), s.grants)
  }

  /** The one thing the reference semaphore does for an action of the limiter. */
  function EventOf(s: Sys, a: Action): Event {
    match a
    case Acquire =>
      if s.core.available == 0 && |s.core.queue| >= s.core.maxWaiters then Nothing else Join(|s.calls|)
    case ChainedCancel(t) => Leave(t)
    case ExceptBody(t) => Leave(t)
    case ReturnSlot(_) => Give
    case _ => Nothing
  }

  function EventsOf(s: Sys, acts: seq<Action>): seq<Event>
    requires Executable(s, acts)
    decreases |acts|
  {
    if acts == [] then [] else [EventOf(s, acts[0])] + EventsOf(Apply(s, acts[0]), acts[1..])
  }

  lemma {:induction false} PendingOnlyMembers(q: seq<Ticket>, futs: map<Ticket, FutureState>)
    ensures forall t :: t in PendingOnly(q, futs) <==> t in q && t in futs && futs[t].Pending?
  {
    if q == [] {
    } else {
      PendingOnlyMembers(q[1..], futs);
    }
  }

  lemma {:induction false} PendingOnlyAppend(p: seq<Ticket>, q: seq<Ticket>, futs: map<Ticket, FutureState>)
    ensures PendingOnly(p + q, futs) == PendingOnly(p, futs) + PendingOnly(q, futs)
  {
    if p == [] {
      assert p + q == q;
    } else {
      PendingOnlyAppend(p[1..], q, futs);
      assert (p + q)[1..] == p[1..] + q;
    }
  }

  lemma {:induction false} PendingOnlySame(q: seq<Ticket>, f: map<Ticket, FutureState>, g: map<Ticket, FutureState>)
    requires forall t | t in q :: (t in f && f[t].Pending?) == (t in g && g[t].Pending?)
    ensures PendingOnly(q, f) == PendingOnly(q, g)
  {
    if q == [] {
    } else {
      PendingOnlySame(q[1..], f, g);
    }
  }

  lemma {:induction false} NothingPending(q: seq<Ticket>, futs: map<Ticket, FutureState>)
    requires forall i | 0 <= i < |q| :: q[i] in futs && !futs[q[i]].Pending?
    ensures PendingOnly(q, futs) == []
  {
    if q == [] {
    } else {
      NothingPending(q[1..], futs);
    }
  }

  /** Cancelling a waiter removes it from the reference queue, dequeued or not. */
  lemma {:induction false} PendingOnlyCancel(q: seq<Ticket>, f: map<Ticket, FutureState>, t: Ticket)
    requires t in f
    ensures var g := f[t := f[t].AfterCancel()];
      && PendingOnly(q, g) == Remove(PendingOnly(q, f), t)
      && PendingOnly(Remove(q, t), g) == Remove(PendingOnly(q, f), t)
  {
    if q == [] {
    } else {
      PendingOnlyCancel(q[1..], f, t);
      var rest := PendingOnly(q[1..], f);
      if q[0] in f && f[q[0]].Pending? {
        assert ([q[0]] + rest)[1..] == rest;
      }
      if q[0] != t {
        assert ([q[0]] + Remove(q[1..], t))[1..] == Remove(q[1..], t);
      }
    }
  }

  lemma {:induction false} RemoveAbsent(q: seq<Ticket>, t: Ticket)
    requires t !in q
    ensures Remove(q, t) == q
  {
    if q == [] {
    } else {
      RemoveAbsent(q[1..], t);
    }
  }

  lemma CancelRefines(s: Sys, a: Action)
    requires Inv(s) && Enabled(s, a) && (a.ChainedCancel? || a.ExceptBody?)
    ensures Abs(Apply(s, a)) == Next(Abs(s), Leave(a.t))
  {
    var c := s.core;
    PendingOnlyCancel(c.queue, c.futs, a.t);
    if !c.futs[a.t].CanCancel() {
      PendingOnlyMembers(c.queue, c.futs);
      RemoveAbsent(PendingOnly(c.queue, c.futs), a.t);
    }
  }

  lemma AcquireRefines(s: Sys)
    requires Inv(s)
    ensures Abs(Apply(s, Acquire)) == Next(Abs(s), EventOf(s, Acquire))
    ensures EventOf(s, Acquire) == Nothing ==> Abs(s).free == 0
  {
    var c, t := s.core, |s.calls|;
    if c.available == 0 && |c.queue| < c.maxWaiters {
      var futs := c.futs[t := Pending];
      PendingOnlyAppend(c.queue, [t], futs);
      PendingOnlySame(c.queue, c.futs, futs);
    }
  }

  lemma FirstPendingHead(c: Core, k: nat)
    requires WellQueued(c) && k == CancelledPrefix(c)
    ensures PendingOnly(c.queue, c.futs) ==
      if k < |c.queue| then [c.queue[k]] + PendingOnly(c.queue[k + 1..], c.futs) else []
  {
    assert c.queue == c.queue[..k] + c.queue[k..];
    PendingOnlyAppend(c.queue[..k], c.queue[k..], c.futs);
    NothingPending(c.queue[..k], c.futs);
    if k < |c.queue| {
      assert c.queue[k..][1..] == c.queue[k + 1..];
    }
  }

  lemma ReturnSlotRefines(s: Sys, t: Ticket)
    requires Inv(s) && Enabled(s, ReturnSlot(t))
    ensures Abs(Apply(s, ReturnSlot(t))) == Next(Abs(s), Give)
  {
    var c, k := s.core, CancelledPrefix(s.core);
    var c' := Apply(s, ReturnSlot(t)).core;
    ReturnSlotNeverOverflows(s, t);
    FirstPendingHead(c, k);
    forall u | u in c'.queue ensures (u in c'.futs && c'.futs[u].Pending?) == (u in c.futs && c.futs[u].Pending?) {
      ReleaseFate(c, k, u);
    }
    PendingOnlySame(c'.queue, c.futs, c'.futs);
    if k < |c.queue| {
      var rest := PendingOnly(c.queue[k + 1..], c.futs);
      assert ([c.queue[k]] + rest)[1..] == rest;
    }
  }

  /** Every action of the limiter is one event of the reference semaphore, or none. */
  lemma StepRefines(s: Sys, a: Action)
    requires Inv(s) && Enabled(s, a)
    ensures Abs(Apply(s, a)) == Next(Abs(s), EventOf(s, a))
  {
    if a.Acquire? {
      AcquireRefines(s);
    } else if a.ChainedCancel? || a.ExceptBody? {
      CancelRefines(s, a);
    } else if a.ReturnSlot? {
      ReturnSlotRefines(s, a.t);
    } else if a.FireCallback? {
      StepKeeps(s, a);
    }
  }

  /** Every run of the limiter is a run of the reference semaphore, serving the same callers in the same order. */
  lemma {:induction false} RunRefines(s: Sys, acts: seq<Action>)
    requires Inv(s) && Executable(s, acts)
    ensures Abs(Run(s, acts)) == NextAll(Abs(s), EventsOf(s, acts))
    decreases |acts|
  {
    if acts == [] {
    } else {
      StepKeeps(s, acts[0]);
      StepRefines(s, acts[0]);
      RunRefines(Apply(s, acts[0]), acts[1..]);
      var rest := EventsOf(Apply(s, acts[0]), acts[1..]);
      assert ([EventOf(s, acts[0])] + rest)[1..] == rest;
    }
  }

  // ---- The release loop, turn by turn ----

  function CancelAll(c: Core, ts: seq<Ticket>): Core
    decreases |ts|
  {
    if ts == [] then c else CancelAll(CancelFuture(c, ts[0]), ts[1..])
  }

  lemma {:induction false} CancelAllKeepsQueue(c: Core, ts: seq<Ticket>)
    requires WellQueued(c)
    ensures WellQueued(CancelAll(c, ts)) && CancelAll(c, ts).queue == c.queue
    decreases |ts|
  {
    if ts == [] {
    } else {
      CancelAllKeepsQueue(CancelFuture(c, ts[0]), ts[1..]);
    }
  }

  /**
   The release loop as it really runs: chained cancellations, which do not take the limiter's lock,
   may strike waiters before every turn. `cancels[i]` are those that arrive before turn `i`.
   */
  function InterruptedRelease(c: Core, cancels: seq<seq<Ticket>>): Released
    requires WellQueued(c)
    decreases |c.queue|
  {
    CancelAllKeepsQueue(c, if cancels == [] then [] else cancels[0]);
    var c := if cancels == [] then c else CancelAll(c, cancels[0]);
    if c.queue == [] || c.futs[c.queue[0]].Pending? then Release(c)
    else InterruptedRelease(SkipCancelled(c), if cancels == [] then [] else cancels[1..])
  }

  lemma {:induction false} CancelAllAppend(c: Core, p: seq<Ticket>, q: seq<Ticket>)
    ensures CancelAll(c, p + q) == CancelAll(CancelAll(c, p), q)
    decreases |p|
  {
    if p == [] {
      assert p + q == q;
    } else {
      assert (p + q)[1..] == p[1..] + q;
      CancelAllAppend(CancelFuture(c, p[0]), p[1..], q);
    }
  }

  /** Discarding a cancelled head commutes with any later cancellations. */
  lemma {:induction false} SkipCommutes(c: Core, ts: seq<Ticket>)
    requires WellQueued(c) && c.queue != [] && c.futs[c.queue[0]].Cancelled?
    ensures var d := CancelAll(c, ts);
      && WellQueued(d) && d.queue == c.queue && d.futs[d.queue[0]].Cancelled?
      && SkipCancelled(d) == CancelAll(SkipCancelled(c), ts)
    decreases |ts|
  {
    if ts == [] {
    } else {
      var c' := CancelFuture(c, ts[0]);
      assert SkipCancelled(c').futs == CancelFuture(SkipCancelled(c), ts[0]).futs;
      SkipCommutes(c', ts[1..]);
    }
  }

  /**
   The release loop is atomic: however cancellations interleave with its turns, it ends as the
   uninterrupted release would had those cancellations come first.
   */
  lemma {:induction false} InterruptedReleaseIsAtomic(c: Core, cancels: seq<seq<Ticket>>) returns (early: seq<Ticket>)
    requires WellQueued(c)
    ensures WellQueued(CancelAll(c, early))
    ensures InterruptedRelease(c, cancels) == Release(CancelAll(c, early))
    decreases |c.queue|
  {
    early := if cancels == [] then [] else cancels[0];
    CancelAllKeepsQueue(c, early);
    var d := CancelAll(c, early);
    if d.queue != [] && !d.futs[d.queue[0]].Pending? {
      var late := InterruptedReleaseIsAtomic(SkipCancelled(d), if cancels == [] then [] else cancels[1..]);
      SkipCommutes(d, late);
      CancelAllAppend(c, early, late);
      early := early + late;
    }
  }
}
