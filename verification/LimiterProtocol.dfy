/**
 One `AsyncCapacityLimiter` shared by any number of tasks, leases and worker futures. Each action
 is one critical section, or one thing that happens between two of them: a task is cancelled, the
 cancelled asyncio wrapper cancels its waiter, a task observes its grant, a held worker finishes,
 its callback fires, or a lease already marked released gets round to returning its slot.
 */
module LimiterProtocol {
  import opened LimiterCore
  import opened LeaseCore

  /** A worker future held by a lease, and whether its done-callback has run. */
  datatype Hold = Hold(finished: bool, fired: bool)

  /** One `acquire` call, named by its arrival ticket, and whatever became of it. */
  datatype Call =
    | Rejected                                                     // overloaded
    | Waiting(cancelled: bool)                                     // awaiting the waiter future
    | Withdrawn                                                    // cancelled before any grant
    | Surrendering                                                 // cancelled after a grant, slot not yet returned
    | Surrendered
    | Leased(lease: Lease, holds: seq<Hold>, returned: bool)

  /** `faulted` records that some critical section raised an accounting error. */
  datatype Sys = Sys(core: Core, calls: seq<Call>, grants: seq<Ticket>, faulted: bool)

  datatype Action =
    | Acquire
    | CancelTask(t: Ticket)
    | ChainedCancel(t: Ticket)
    | ExceptBody(t: Ticket)
    | Observe(t: Ticket)
    | HoldUntilComplete(t: Ticket, alreadyDone: bool)
    | FinishWorker(t: Ticket, i: nat)
    | FireCallback(t: Ticket, i: nat)
    | ReleaseLease(t: Ticket)
    | ReturnSlot(t: Ticket)

  function Init(capacity: nat, maxWaiters: nat): Sys {
    Sys(Core(capacity, maxWaiters, capacity, [], map[]), [], [], false)
  }

  predicate Awaiting(s: Sys, t: Ticket) {
    t < |s.calls| && s.calls[t].Waiting? && t in s.core.futs
  }

  predicate HasLease(s: Sys, t: Ticket) {
    t < |s.calls| && s.calls[t].Leased?
  }

  /** The limiter's own `release` is about to run on behalf of call `t`. */
  predicate InFlight(s: Sys, t: Ticket) {
    && t < |s.calls|
    && (s.calls[t].Surrendering? || (s.calls[t].Leased? && s.calls[t].lease.released && !s.calls[t].returned))
  }

  predicate Enabled(s: Sys, a: Action) {
    match a
    case Acquire => true
    case CancelTask(t) => Awaiting(s, t) && !s.calls[t].cancelled
    case ChainedCancel(t) => Awaiting(s, t) && s.calls[t].cancelled
    case ExceptBody(t) => Awaiting(s, t) && s.calls[t].cancelled
    case Observe(t) => Awaiting(s, t) && !s.calls[t].cancelled && s.core.futs[t].Finished?
    case HoldUntilComplete(t, _) => HasLease(s, t)
    case FinishWorker(t, i) => HasLease(s, t) && i < |s.calls[t].holds| && !s.calls[t].holds[i].finished
    case FireCallback(t, i) =>
      HasLease(s, t) && i < |s.calls[t].holds| && s.calls[t].holds[i].finished && !s.calls[t].holds[i].fired
    case ReleaseLease(t) => HasLease(s, t)
    case ReturnSlot(t) => InFlight(s, t)
  }

  function SetCall(s: Sys, t: Ticket, c: Call): Sys
    requires t < |s.calls|
  {
    s.(calls := s.calls[t := c])
  }

  function Apply(s: Sys, a: Action): Sys
    requires Enabled(s, a)
  {
    match a
    case Acquire =>
      var t := |s.calls|;
      var (core, admission) := Admit(s.core, t);
      match admission {
        case Immediate => Sys(core, s.calls + [Leased(FRESH, [], false)], s.grants + [t], s.faulted)
        case Queued => Sys(core, s.calls + [Waiting(false)], s.grants, s.faulted)
        case Overloaded => Sys(core, s.calls + [Rejected], s.grants, s.faulted)
      }
    case CancelTask(t) => SetCall(s, t, Waiting(true))
    case ChainedCancel(t) => s.(core := CancelFuture(s.core, t))
    case ExceptBody(t) =>
      SetCall(s, t, if s.core.futs[t].CanCancel() then Withdrawn else Surrendering).(core := Withdraw(s.core, t))
    case Observe(t) => SetCall(s, t, Leased(FRESH, [], false))
    case HoldUntilComplete(t, alreadyDone) =>
      var c := s.calls[t];
      match Retain(c.lease) {
        case Raised => s
        case Done(lease, _) => SetCall(s, t, c.(lease := lease, holds := c.holds + [Hold(alreadyDone, false)]))
      }
    case FinishWorker(t, i) =>
      var c := s.calls[t];
      SetCall(s, t, c.(holds := c.holds[i := c.holds[i].(finished := true)]))
    case FireCallback(t, i) =>
      var c := s.calls[t];
      var holds := c.holds[i := c.holds[i].(fired := true)];
      match FinishHold(c.lease) {
        case Raised => s.(faulted := true)
        case Done(lease, _) => SetCall(s, t, c.(lease := lease, holds := holds))
      }
    case ReleaseLease(t) =>
      var c := s.calls[t];
      match RequestRelease(c.lease) {
        case Raised => s
        case Done(lease, _) => SetCall(s, t, c.(lease := lease))
      }
    case ReturnSlot(t) =>
      var c := s.calls[t];
      var s' := SetCall(s, t, if c.Surrendering? then Surrendered else c.(returned := true));
      if !WellQueued(s.core) then s.(faulted := true)
      else match Release(s.core) {
        case Granted(core, w) => s'.(core := core, grants := s.grants + [w])
        case Restored(core) => s'.(core := core)
        case TooMany(core) => s'.(core := core, faulted := true)
      }
  }

  predicate Executable(s: Sys, acts: seq<Action>)
    decreases |acts|
  {
    acts == [] || (Enabled(s, acts[0]) && Executable(Apply(s, acts[0]), acts[1..]))
  }

  function Run(s: Sys, acts: seq<Action>): Sys
    requires Executable(s, acts)
    decreases |acts|
  {
    if acts == [] then s else Run(Apply(s, acts[0]), acts[1..])
  }
}
