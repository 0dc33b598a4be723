/**
 The three users of the limiter and their worker threads. A mutation hands its worker future to the
 lease and requests release at once; a search keeps the lease itself and, when cancelled, leaves the
 release to the worker's callback; a similarity pipeline holds any number of queries until someone
 requests release. In each, a worker that has not finished still occupies a slot.
 */
module ExecutorBound {
  import opened Options
  import opened LimiterCore
  import opened LimiterProtocol
  import opened LimiterSafety
  import opened LimiterTheorems

  const AOSS_QUERY_CONCURRENCY := 2
  const AOSS_QUERY_MAX_WAITERS := AOSS_QUERY_CONCURRENCY * 16
  const AOSS_MUTATION_CONCURRENCY := 2
  const AOSS_MUTATION_MAX_WAITERS := AOSS_MUTATION_CONCURRENCY * 16

  datatype Protocol = Mutation | Search | Pipeline

  datatype Job = NotSubmitted | Unfinished | Finished

  /** Where a client stands between its critical sections. */
  datatype Stage =
    | Start      // nothing submitted yet
    | Submitted  // mutation: submitted, not yet held
    | Held       // mutation: held, release not yet requested
    | Attached   // search: awaiting the worker
    | Detached   // search: cancelled, the worker's callback will release
    | Over       // release requested

  datatype Client = Client(protocol: Protocol, stage: Stage, job: Job)

  datatype Pool = Pool(sys: Sys, clients: seq<Client>)

  datatype Move =
    | Admission(protocol: Protocol)
    | Limiter(a: Action)        // cancellation, grant, callback and return steps of the limiter itself
    | Submit(t: Ticket)
    | SubmitFails(t: Ticket)
    | Hold(t: Ticket)
    | Launch(t: Ticket)
    | RequestRelease(t: Ticket)
    | CancelAwait(t: Ticket)
    | WorkerFinishes(t: Ticket)
    | QueryFinishes(t: Ticket, i: nat)

  function InitPool(capacity: nat, maxWaiters: nat): Pool {
    Pool(Init(capacity, maxWaiters), [])
  }

  predicate Owned(p: Pool, t: Ticket) {
    t < |p.clients| == |p.sys.calls| && p.sys.calls[t].Leased?
  }

  /** The points at which each client calls `lease.release()`. */
  predicate MayRequestRelease(c: Client) {
    match c.protocol
    case Mutation => c.stage.Held?
    case Search => (c.stage.Attached? || c.stage.Detached?) && c.job.Finished?
    case Pipeline => true
  }

  predicate Possible(p: Pool, m: Move) {
    match m
    case Admission(_) => |p.clients| == |p.sys.calls|
    case Limiter(a) =>
      && Enabled(p.sys, a)
      && (a.CancelTask? || a.ChainedCancel? || a.ExceptBody? || a.Observe? || a.FireCallback? || a.ReturnSlot?)
    case Submit(t) => Owned(p, t) && p.clients[t].stage.Start? && !p.clients[t].protocol.Pipeline?
    case SubmitFails(t) => Owned(p, t) && p.clients[t].stage.Start? && !p.clients[t].protocol.Pipeline?
    case Hold(t) => Owned(p, t) && p.clients[t].stage.Submitted?
    case Launch(t) =>
      Owned(p, t) && p.clients[t].protocol.Pipeline? && !p.sys.calls[t].lease.releaseRequested
    case RequestRelease(t) => Owned(p, t) && MayRequestRelease(p.clients[t])
    case CancelAwait(t) => Owned(p, t) && !p.clients[t].stage.Start?
    case WorkerFinishes(t) => Owned(p, t) && p.clients[t].job.Unfinished?
    case QueryFinishes(t, i) => Owned(p, t) && p.clients[t].protocol.Pipeline? && Enabled(p.sys, FinishWorker(t, i))
  }

  function SetClient(p: Pool, t: Ticket, c: Client): Pool
    requires t < |p.clients|
  {
    p.(clients := p.clients[t := c])
  }

  function Make(p: Pool, m: Move): Pool
    requires Possible(p, m)
  {
    match m
    case Admission(protocol) => Pool(Apply(p.sys, Acquire), p.clients + [Client(protocol, Start, NotSubmitted)])
    case Limiter(a) => p.(sys := Apply(p.sys, a))
    case Submit(t) =>
      var c := p.clients[t];
      SetClient(p, t, c.(stage := if c.protocol.Mutation? then Submitted else Attached, job := Unfinished))
    case SubmitFails(t) =>
      SetClient(p, t, p.clients[t].(stage := Over)).(sys := Apply(p.sys, ReleaseLease(t)))
    case Hold(t) =>
      SetClient(p, t, p.clients[t].(stage := Held))
        .(sys := Apply(p.sys, HoldUntilComplete(t, p.clients[t].job.Finished?)))
    case Launch(t) => p.(sys := Apply(p.sys, HoldUntilComplete(t, false)))
    case RequestRelease(t) =>
      SetClient(p, t, p.clients[t].(stage := Over)).(sys := Apply(p.sys, ReleaseLease(t)))
    case CancelAwait(t) =>
      var c := p.clients[t];
      SetClient(p, t, if c.stage.Attached? then c.(stage := Detached) else c)
    case WorkerFinishes(t) =>
      var holds := p.sys.calls[t].holds;
      var p' := SetClient(p, t, p.clients[t].(job := Job.Finished));
      if holds != [] && !holds[|holds| - 1].finished then
        p'.(sys := Apply(p.sys, FinishWorker(t, |holds| - 1)))
      else p'
    case QueryFinishes(t, i) => p.(sys := Apply(p.sys, FinishWorker(t, i)))
  }

  predicate Feasible(p: Pool, moves: seq<Move>)
    decreases |moves|
  {
    moves == [] || (Possible(p, moves[0]) && Feasible(Make(p, moves[0]), moves[1..]))
  }

  function Play(p: Pool, moves: seq<Move>): Pool
    requires Feasible(p, moves)
    decreases |moves|
  {
    if moves == [] then p else Play(Make(p, moves[0]), moves[1..])
  }

  /** The one hold is on the client's worker. */
  predicate HoldsTrack(holds: seq<LimiterProtocol.Hold>, job: Job) {
    |holds| == 1 && holds[0].finished == job.Finished?
  }

  predicate ClientOk(c: Client, call: Call) {
    if !call.Leased? then c.stage.Start? && c.job.NotSubmitted?
    else if c.job.NotSubmitted? then
      && (c.stage.Start? || c.stage.Over?)
      && (c.stage.Over? <==> call.lease.releaseRequested)
      && (!c.protocol.Pipeline? ==> call.holds == [])
    else match c.protocol {
      case Mutation =>
        && !c.stage.Start? && !c.stage.Attached? && !c.stage.Detached?
        && (c.stage.Over? <==> call.lease.releaseRequested)
        && (if c.stage.Submitted? then call.holds == [] else HoldsTrack(call.holds, c.job))
      case Search =>
        && !c.stage.Start? && !c.stage.Submitted? && !c.stage.Held? && call.holds == []
        && (c.stage.Over? ==> c.job.Finished?)
        && (c.stage.Over? <==> call.lease.releaseRequested)
      case Pipeline => false
    }
  }

  ghost predicate PoolInv(p: Pool) {
    Inv(p.sys) && ClientsOk(p)
  }

  ghost predicate ClientsOk(p: Pool) {
    && |p.clients| == |p.sys.calls|
    && forall t | 0 <= t < |p.clients| :: ClientOk(p.clients[t], p.sys.calls[t])
  }

  lemma ReturnMoveKeeps(p: Pool, t: Ticket)
    requires PoolInv(p) && Possible(p, Limiter(ReturnSlot(t)))
    ensures ClientsOk(Make(p, Limiter(ReturnSlot(t))))
  {
    ReturnSlotNeverOverflows(p.sys, t);
    assert ClientOk(p.clients[t], p.sys.calls[t]);
  }

  lemma LimiterMoveKeeps(p: Pool, a: Action)
    requires PoolInv(p) && Possible(p, Limiter(a))
    ensures ClientsOk(Make(p, Limiter(a)))
  {
    if a.ReturnSlot? {
      ReturnMoveKeeps(p, a.t);
    } else {
      assert ClientOk(p.clients[a.t], p.sys.calls[a.t]);
      assert LeaseOk(p.sys.calls[a.t]);
    }
  }

  lemma WorkerMoveKeeps(p: Pool, m: Move)
    requires PoolInv(p) && Possible(p, m) && (m.WorkerFinishes? || m.QueryFinishes?)
    ensures ClientsOk(Make(p, m))
  {
    assert ClientOk(p.clients[m.t], p.sys.calls[m.t]);
  }

  lemma ClientMoveKeeps(p: Pool, m: Move)
    requires PoolInv(p) && Possible(p, m) && !m.Limiter? && !m.WorkerFinishes? && !m.QueryFinishes?
    ensures ClientsOk(Make(p, m))
  {
    if !m.Admission? {
      assert ClientOk(p.clients[m.t], p.sys.calls[m.t]);
    }
  }

  /** The step that a move makes of the limiter, if any. */
  function StepOf(p: Pool, m: Move): Option<Action>
    requires Possible(p, m)
  {
    match m
    case Admission(_) => Some(Acquire)
    case Limiter(a) => Some(a)
    case Hold(t) => Some(HoldUntilComplete(t, p.clients[t].job.Finished?))
    case Launch(t) => Some(HoldUntilComplete(t, false))
    case SubmitFails(t) => Some(ReleaseLease(t))
    case RequestRelease(t) => Some(ReleaseLease(t))
    case QueryFinishes(t, i) => Some(FinishWorker(t, i))
    case WorkerFinishes(t) =>
      var holds := p.sys.calls[t].holds;
      if holds != [] && !holds[|holds| - 1].finished then Some(FinishWorker(t, |holds| - 1)) else None
    case _ => None
  }

  /** A client's move is one step of the limiter or none. */
  lemma MoveIsStep(p: Pool, m: Move)
    requires Possible(p, m)
    ensures match StepOf(p, m)
      case None => Make(p, m).sys == p.sys
      case Some(a) => Enabled(p.sys, a) && Make(p, m).sys == Apply(p.sys, a)
  {
  }

  lemma MoveKeeps(p: Pool, m: Move)
    requires PoolInv(p) && Possible(p, m)
    ensures PoolInv(Make(p, m))
  {
    MoveIsStep(p, m);
    if StepOf(p, m).Some? {
      StepKeeps(p.sys, StepOf(p, m).value);
    }
    match m
    case Limiter(a) => LimiterMoveKeeps(p, a);
    case WorkerFinishes(_) => WorkerMoveKeeps(p, m);
    case QueryFinishes(_, _) => WorkerMoveKeeps(p, m);
    case _ => ClientMoveKeeps(p, m);
  }

  lemma MoveKeepsLimits(p: Pool, m: Move)
    requires PoolInv(p) && Possible(p, m)
    ensures Make(p, m).sys.core.capacity == p.sys.core.capacity
    ensures Make(p, m).sys.core.maxWaiters == p.sys.core.maxWaiters
  {
    MoveIsStep(p, m);
    if StepOf(p, m).Some? {
      StepKeepsLimits(p.sys, StepOf(p, m).value);
    }
  }

  lemma {:induction false} PlayKeeps(p: Pool, moves: seq<Move>)
    requires PoolInv(p) && Feasible(p, moves)
    ensures PoolInv(Play(p, moves))
    ensures Play(p, moves).sys.core.capacity == p.sys.core.capacity
    ensures Play(p, moves).sys.core.maxWaiters == p.sys.core.maxWaiters
    decreases |moves|
  {
    if moves == [] {
    } else {
      MoveKeepsLimits(p, moves[0]);
      MoveKeeps(p, moves[0]);
      PlayKeeps(Make(p, moves[0]), moves[1..]);
    }
  }

  /** Client `t` has a worker that has not finished: its one job, or any query of a pipeline. */
  predicate Busy(p: Pool, t: Ticket) {
    && t < |p.clients| == |p.sys.calls|
    && if p.clients[t].protocol.Pipeline? then
         p.sys.calls[t].Leased? && exists i :: 0 <= i < |p.sys.calls[t].holds| && !p.sys.calls[t].holds[i].finished
       else p.clients[t].job.Unfinished?
  }

  ghost function BusyClients(p: Pool): set<Ticket> {
    set t | 0 <= t < |p.clients| && Busy(p, t)
  }

  /** A client with an unfinished worker still owns its slot. */
  lemma BusyClientOwnsSlot(p: Pool, t: Ticket)
    requires PoolInv(p) && Busy(p, t)
    ensures t in Owners(p.sys)
  {
    var call := p.sys.calls[t];
    assert LeaseOk(call);
    assert ClientOk(p.clients[t], call);
    if call.Leased? {
      UnfiredZero(call.holds);
    }
  }

  /**
   Whatever is cancelled and whenever, there are never more clients with unfinished workers than
   slots. A mutation or a search has one worker, so a thread pool of that size never queues one.
   */
  lemma WorkersNeverExceedCapacity(capacity: nat, maxWaiters: nat, moves: seq<Move>)
    requires Feasible(InitPool(capacity, maxWaiters), moves)
    ensures |BusyClients(Play(InitPool(capacity, maxWaiters), moves))| <= capacity
    ensures |Play(InitPool(capacity, maxWaiters), moves).sys.core.queue| <= maxWaiters
  {
    InitInv(capacity, maxWaiters);
    PlayKeeps(InitPool(capacity, maxWaiters), moves);
    var p := Play(InitPool(capacity, maxWaiters), moves);
    forall t | t in BusyClients(p) ensures t in Owners(p.sys) {
      BusyClientOwnsSlot(p, t);
    }
    assert Owners(p.sys) == BusyClients(p) + (Owners(p.sys) - BusyClients(p));
  }

  /** The two OpenSearch pools as they are configured: two slots and two threads each, and at most 32 waiters. */
  lemma AossPoolsHaveNoBacklog(queries: seq<Move>, mutations: seq<Move>)
    requires Feasible(InitPool(AOSS_QUERY_CONCURRENCY, AOSS_QUERY_MAX_WAITERS), queries)
    requires Feasible(InitPool(AOSS_MUTATION_CONCURRENCY, AOSS_MUTATION_MAX_WAITERS), mutations)
    ensures InitPool(AOSS_QUERY_CONCURRENCY, AOSS_QUERY_MAX_WAITERS) == InitPool(2, 32)
    ensures InitPool(AOSS_MUTATION_CONCURRENCY, AOSS_MUTATION_MAX_WAITERS) == InitPool(2, 32)
    ensures var p := Play(InitPool(2, 32), queries); |BusyClients(p)| <= 2 && |p.sys.core.queue| <= 32
    ensures var p := Play(InitPool(2, 32), mutations); |BusyClients(p)| <= 2 && |p.sys.core.queue| <= 32
  {
    WorkersNeverExceedCapacity(AOSS_QUERY_CONCURRENCY, AOSS_QUERY_MAX_WAITERS, queries);
    WorkersNeverExceedCapacity(AOSS_MUTATION_CONCURRENCY, AOSS_MUTATION_MAX_WAITERS, mutations);
  }
}
