/** Every client gives its slot back in the end, whatever was cancelled before. */
module ExecutorLiveness {
  import opened LimiterCore
  import opened LimiterProtocol
  import opened LimiterSafety
  import opened LimiterTheorems
  import opened LimiterLiveness
  import opened ExecutorBound

  /** A move that brings in no work, cancels nothing and lets no submission fail. */
  predicate Quiet(m: Move) {
    match m
    case Admission(_) => false
    case Launch(_) => false
    case CancelAwait(_) => false
    case SubmitFails(_) => false
    case Limiter(a) => !Cancels(a)
    case _ => true
  }

  /** A quiet move that is not a repeated request. */
  predicate Settles(p: Pool, m: Move) {
    && Possible(p, m) && Quiet(m)
    && (m.RequestRelease? ==> !p.sys.calls[m.t].lease.releaseRequested)
  }

  function ClientRank(c: Client): nat {
    (if c.job.Unfinished? then 1 else 0) +
    match c.stage
    case Start => 7
    case Submitted => 5
    case Over => 0
    case _ => 2
  }

  /** How much is left to happen to client `t`. */
  function PoolRank(p: Pool, t: Ticket): nat
    requires t < |p.clients| == |p.sys.calls|
  {
    Rank(p.sys, t) + ClientRank(p.clients[t])
  }

  function PoolMeasure(p: Pool, n: nat): nat
    requires n <= |p.clients| == |p.sys.calls|
  {
    if n == 0 then 0 else PoolMeasure(p, n - 1) + PoolRank(p, n - 1)
  }

  lemma {:induction false} PoolMeasureDecreases(p: Pool, p': Pool, n: nat, t: Ticket)
    requires n <= |p.clients| == |p.sys.calls| == |p'.clients| == |p'.sys.calls|
    requires forall u: Ticket | u < n :: PoolRank(p', u) <= PoolRank(p, u)
    requires t < n ==> PoolRank(p', t) < PoolRank(p, t)
    ensures PoolMeasure(p', n) <= PoolMeasure(p, n)
    ensures t < n ==> PoolMeasure(p', n) < PoolMeasure(p, n)
  {
    if n == 0 {
    } else {
      PoolMeasureDecreases(p, p', n - 1, t);
    }
  }

  lemma LimiterMoveRanks(p: Pool, a: Action)
    requires PoolInv(p) && Settles(p, Limiter(a))
    ensures var p' := Make(p, Limiter(a));
      && |p'.clients| == |p.clients| == |p'.sys.calls|
      && (forall u: Ticket | u < |p.clients| :: PoolRank(p', u) <= PoolRank(p, u))
      && a.t < |p.clients| && PoolRank(p', a.t) < PoolRank(p, a.t)
  {
    if a.ReturnSlot? {
      ReturnSlotRanks(p.sys, a.t);
    } else if a.FireCallback? {
      StepKeeps(p.sys, a);
      HoldRankUpdate(p.sys.calls[a.t].holds, a.i, p.sys.calls[a.t].holds[a.i].(fired := true));
    }
  }

  lemma WorkerMoveRanks(p: Pool, m: Move)
    requires PoolInv(p) && Settles(p, m) && (m.WorkerFinishes? || m.QueryFinishes?)
    ensures m.t < |p.clients| == |Make(p, m).clients| == |Make(p, m).sys.calls|
    ensures PoolRank(Make(p, m), m.t) < PoolRank(p, m.t)
  {
    var holds := p.sys.calls[m.t].holds;
    var i := if m.QueryFinishes? then m.i else |holds| - 1;
    if 0 <= i < |holds| && !holds[i].finished {
      HoldRankUpdate(holds, i, holds[i].(finished := true));
    }
  }

  lemma HoldRankAppend(holds: seq<LimiterProtocol.Hold>, h: LimiterProtocol.Hold)
    ensures HoldRank(holds + [h]) <= HoldRank(holds) + 2
  {
    assert (holds + [h])[..|holds|] == holds;
  }

  lemma HoldMoveRanks(p: Pool, t: Ticket)
    requires PoolInv(p) && Settles(p, Move.Hold(t))
    ensures t < |p.clients| == |Make(p, Move.Hold(t)).clients| == |Make(p, Move.Hold(t)).sys.calls|
    ensures PoolRank(Make(p, Move.Hold(t)), t) < PoolRank(p, t)
  {
    assert ClientOk(p.clients[t], p.sys.calls[t]);
    HoldRankAppend(p.sys.calls[t].holds, LimiterProtocol.Hold(p.clients[t].job.Finished?, false));
  }

  lemma RequestMoveRanks(p: Pool, m: Move)
    requires PoolInv(p) && Settles(p, m) && (m.Submit? || m.RequestRelease?)
    ensures m.t < |p.clients| == |Make(p, m).clients| == |Make(p, m).sys.calls|
    ensures PoolRank(Make(p, m), m.t) < PoolRank(p, m.t)
  {
  }

  /** A client's own move changes nobody else's rank. */
  lemma OthersKeepRank(p: Pool, m: Move, u: Ticket)
    requires PoolInv(p) && Settles(p, m) && !m.Limiter? && u < |p.clients| && u != m.t
    ensures u < |Make(p, m).clients| == |Make(p, m).sys.calls| && PoolRank(Make(p, m), u) == PoolRank(p, u)
  {
  }

  lemma ClientMoveRanks(p: Pool, m: Move)
    requires PoolInv(p) && Settles(p, m) && !m.Limiter?
    ensures var p' := Make(p, m);
      && |p'.clients| == |p.clients| == |p'.sys.calls|
      && (forall u: Ticket | u < |p.clients| :: PoolRank(p', u) <= PoolRank(p, u))
      && m.t < |p.clients| && PoolRank(p', m.t) < PoolRank(p, m.t)
  {
    if m.WorkerFinishes? || m.QueryFinishes? {
      WorkerMoveRanks(p, m);
    } else if m.Hold? {
      HoldMoveRanks(p, m.t);
    } else {
      RequestMoveRanks(p, m);
    }
    forall u: Ticket | u < |p.clients| && u != m.t ensures PoolRank(Make(p, m), u) == PoolRank(p, u) {
      OthersKeepRank(p, m, u);
    }
  }

  lemma SettlingDecreases(p: Pool, m: Move)
    requires PoolInv(p) && Settles(p, m)
    ensures |Make(p, m).clients| == |p.clients| == |Make(p, m).sys.calls|
    ensures PoolMeasure(Make(p, m), |p.clients|) < PoolMeasure(p, |p.clients|)
  {
    if m.Limiter? {
      LimiterMoveRanks(p, m.a);
      PoolMeasureDecreases(p, Make(p, m), |p.clients|, m.a.t);
    } else {
      ClientMoveRanks(p, m);
      PoolMeasureDecreases(p, Make(p, m), |p.clients|, m.t);
    }
  }

  predicate SettlingRun(p: Pool, moves: seq<Move>)
    decreases |moves|
  {
    moves == [] || (Settles(p, moves[0]) && SettlingRun(Make(p, moves[0]), moves[1..]))
  }

  /** Settling ends: no sequence of such moves is longer than a measure of the pool it starts from. */
  lemma {:induction false} SettlingIsBounded(p: Pool, moves: seq<Move>)
    requires PoolInv(p) && SettlingRun(p, moves)
    ensures |moves| <= PoolMeasure(p, |p.clients|)
    decreases |moves|
  {
    if moves == [] {
    } else {
      SettlingDecreases(p, moves[0]);
      MoveKeeps(p, moves[0]);
      SettlingIsBounded(Make(p, moves[0]), moves[1..]);
    }
  }

  /** Where the limiter is owed a step, some client can make a move. */
  lemma MoveFor(p: Pool, a: Action) returns (m: Move)
    requires PoolInv(p) && Drains(p.sys, a) && !Cancels(a)
    ensures Settles(p, m)
  {
    var t := a.t;
    var c, call := p.clients[t], p.sys.calls[t];
    assert ClientOk(c, call);
    match a
    case ReleaseLease(_) =>
      m := if c.protocol.Pipeline? then RequestRelease(t)
           else if c.stage.Start? then Submit(t)
           else if c.stage.Submitted? then Move.Hold(t)
           else if c.stage.Held? || c.job.Finished? then RequestRelease(t)
           else WorkerFinishes(t);
    case FinishWorker(_, i) => m := if c.protocol.Pipeline? then QueryFinishes(t, i) else WorkerFinishes(t);
    case _ => m := Limiter(a);
  }

  /**
   No slot is leaked, in any of the three protocols and whatever was cancelled or failed to submit: the
   clients and their workers have nothing left to do exactly if nobody waits and every slot is back.
   */
  lemma StuckOnlyWhenSlotsAreBack(capacity: nat, maxWaiters: nat, moves: seq<Move>)
    requires capacity >= 1 && Feasible(InitPool(capacity, maxWaiters), moves)
    ensures var p := Play(InitPool(capacity, maxWaiters), moves);
      Drained(p.sys) <==> forall m :: !Settles(p, m)
  {
    var p := Play(InitPool(capacity, maxWaiters), moves);
    InitInv(capacity, maxWaiters);
    PlayKeeps(InitPool(capacity, maxWaiters), moves);
    if Drained(p.sys) {
      DrainedIsStuck(p.sys);
      forall m ensures !Settles(p, m) {
        NothingToDo(p, m);
      }
    } else {
      var a := SomeNextStep(p.sys);
      var m := MoveFor(p, a);
    }
  }

  lemma NothingToDo(p: Pool, m: Move)
    requires PoolInv(p) && Drained(p.sys) && forall a :: !Drains(p.sys, a)
    ensures !Settles(p, m)
  {
    if Settles(p, m) {
      if m.Limiter? {
        assert Drains(p.sys, m.a);
      } else {
        var call := p.sys.calls[m.t];
        assert ClientOk(p.clients[m.t], call) && LeaseOk(call);
        UnfiredZero(call.holds);
      }
    }
  }

  /** No client has an unfinished worker, nobody waits, and every slot is free. */
  ghost predicate Settled(p: Pool) {
    p.sys.core.queue == [] && p.sys.core.available == p.sys.core.capacity && BusyClients(p) == {}
  }

  lemma DrainedIsSettled(p: Pool)
    requires PoolInv(p) && Drained(p.sys)
    ensures Settled(p)
  {
    forall t | t in BusyClients(p) ensures false {
      BusyClientOwnsSlot(p, t);
    }
  }

  /** From every pool some clients' moves, without any cancellation or new work, lead to a settled one. */
  lemma {:induction false} SettlesDown(p: Pool) returns (more: seq<Move>)
    requires PoolInv(p) && p.sys.core.capacity >= 1
    ensures Feasible(p, more) && (forall m | m in more :: Quiet(m)) && Settled(Play(p, more))
    decreases PoolMeasure(p, |p.clients|)
  {
    if Drained(p.sys) {
      more := [];
      DrainedIsSettled(p);
    } else {
      var a := SomeNextStep(p.sys);
      var m := MoveFor(p, a);
      MoveKeeps(p, m);
      MoveKeepsLimits(p, m);
      SettlingDecreases(p, m);
      var rest := SettlesDown(Make(p, m));
      more := [m] + rest;
      PlayNext(p, m, rest);
    }
  }

  lemma PlayNext(p: Pool, m: Move, rest: seq<Move>)
    requires Possible(p, m) && Feasible(Make(p, m), rest)
    ensures Feasible(p, [m] + rest) && Play(p, [m] + rest) == Play(Make(p, m), rest)
  {
    assert ([m] + rest)[1..] == rest;
  }

  /** After any run every slot can come back without cancelling anyone. */
  lemma EveryRunSettles(capacity: nat, maxWaiters: nat, moves: seq<Move>) returns (more: seq<Move>)
    requires capacity >= 1 && Feasible(InitPool(capacity, maxWaiters), moves)
    ensures var p := Play(InitPool(capacity, maxWaiters), moves);
      Feasible(p, more) && (forall m | m in more :: Quiet(m)) && Settled(Play(p, more))
  {
    InitInv(capacity, maxWaiters);
    PlayKeeps(InitPool(capacity, maxWaiters), moves);
    more := SettlesDown(Play(InitPool(capacity, maxWaiters), moves));
  }

  // ---- Each protocol, from the first step to the last ----

  /** Anyone may ask for a slot at any time: it is given if one is free, and only a full queue is a reason to refuse. */
  lemma AdmissionOutcome(p: Pool, protocol: Protocol)
    requires PoolInv(p)
    ensures Possible(p, Admission(protocol))
    ensures var p', t := Make(p, Admission(protocol)), |p.clients|;
      && |p'.clients| == t + 1 == |p'.sys.calls| && p'.clients[t].protocol == protocol
      && p'.sys.calls[..t] == p.sys.calls && p'.clients[..t] == p.clients
      && (Owned(p', t) <==> p.sys.core.available > 0)
      && (p'.sys.calls[t].Rejected? <==> p.sys.core.available == 0 && |p.sys.core.queue| >= p.sys.core.maxWaiters)
      && (p'.sys.calls[t].Waiting? ==> p'.sys.core.queue == p.sys.core.queue + [t])
  {
  }

  /** A client that waits for its slot may be cancelled, and is then out of the queue or returns what it was granted. */
  lemma WaitingClientMayLeave(p: Pool, t: Ticket)
    requires PoolInv(p) && t < |p.sys.calls| && p.sys.calls[t] == Waiting(false)
    ensures t in p.sys.core.futs
    ensures var moves := [Limiter(CancelTask(t)), Limiter(ExceptBody(t))];
      && Feasible(p, moves) && t !in Play(p, moves).sys.core.queue
      && Play(p, moves).sys.calls == p.sys.calls[t := if p.sys.core.futs[t].Finished? then Surrendering else Withdrawn]
  {
    assert WaiterOk(p.sys, t);
    TwoMoves(p, Limiter(CancelTask(t)), Limiter(ExceptBody(t)), []);
    assert [Limiter(CancelTask(t)), Limiter(ExceptBody(t))] + [] == [Limiter(CancelTask(t)), Limiter(ExceptBody(t))];
  }

  /** The worker of client `t` runs under a slot that `t` accounts for. */
  ghost predicate RunsUnderSlot(p: Pool, t: Ticket) {
    Busy(p, t) && t in Owners(p.sys)
  }

  /** A submission that fails gives the slot back. */
  lemma FailedSubmissionReturnsSlot(p: Pool, t: Ticket)
    requires PoolInv(p) && Owned(p, t) && p.clients[t].stage.Start? && !p.clients[t].protocol.Pipeline?
    ensures var moves := [SubmitFails(t), Limiter(ReturnSlot(t))];
      Feasible(p, moves) && HasReturned(Play(p, moves).sys, t)
  {
    assert ClientOk(p.clients[t], p.sys.calls[t]) && LeaseOk(p.sys.calls[t]);
    var p1 := Make(p, SubmitFails(t));
    MoveKeeps(p, SubmitFails(t));
    SlotReturns(p1, t);
    PlayNext(p, SubmitFails(t), [Limiter(ReturnSlot(t))]);
    assert [SubmitFails(t)] + [Limiter(ReturnSlot(t))] == [SubmitFails(t), Limiter(ReturnSlot(t))];
  }

  lemma SlotReturns(p: Pool, t: Ticket)
    requires PoolInv(p) && InFlight(p.sys, t)
    ensures Feasible(p, [Limiter(ReturnSlot(t))]) && HasReturned(Play(p, [Limiter(ReturnSlot(t))]).sys, t)
  {
    StepReturnsOnce(p.sys, ReturnSlot(t), t);
    PlayNext(p, Limiter(ReturnSlot(t)), []);
    assert [Limiter(ReturnSlot(t))] + [] == [Limiter(ReturnSlot(t))];
  }

  /** A search may be cancelled while its worker runs; the slot then comes back once the worker has finished. */
  lemma CancelledSearchReturnsSlot(p: Pool, t: Ticket)
    requires PoolInv(p) && Owned(p, t) && p.clients[t].stage.Start? && p.clients[t].protocol.Search?
    ensures var moves := [Submit(t), CancelAwait(t)]; Feasible(p, moves) && RunsUnderSlot(Play(p, moves), t)
    ensures var moves := [Submit(t), CancelAwait(t)] + ([WorkerFinishes(t), RequestRelease(t)] + [Limiter(ReturnSlot(t))]);
      Feasible(p, moves) && HasReturned(Play(p, moves).sys, t)
  {
    assert ClientOk(p.clients[t], p.sys.calls[t]);
    var p1 := Make(p, Submit(t));
    var p2 := Make(p1, CancelAwait(t));
    MoveKeeps(p, Submit(t));
    MoveKeeps(p1, CancelAwait(t));
    TwoMoves(p, Submit(t), CancelAwait(t), []);
    assert [Submit(t), CancelAwait(t)] + [] == [Submit(t), CancelAwait(t)];
    BusyClientOwnsSlot(p2, t);
    DetachedSearchReturnsSlot(p2, t);
    TwoMoves(p, Submit(t), CancelAwait(t), [WorkerFinishes(t), RequestRelease(t)] + [Limiter(ReturnSlot(t))]);
  }

  lemma DetachedSearchReturnsSlot(p: Pool, t: Ticket)
    requires PoolInv(p) && Owned(p, t) && p.clients[t] == Client(Search, Detached, Unfinished)
    ensures var moves := [WorkerFinishes(t), RequestRelease(t)] + [Limiter(ReturnSlot(t))];
      Feasible(p, moves) && HasReturned(Play(p, moves).sys, t)
  {
    assert ClientOk(p.clients[t], p.sys.calls[t]) && LeaseOk(p.sys.calls[t]);
    var p1 := Make(p, WorkerFinishes(t));
    var p2 := Make(p1, RequestRelease(t));
    MoveKeeps(p, WorkerFinishes(t));
    MoveKeeps(p1, RequestRelease(t));
    SlotReturns(p2, t);
    TwoMoves(p, WorkerFinishes(t), RequestRelease(t), [Limiter(ReturnSlot(t))]);
  }

  lemma TwoMoves(p: Pool, m: Move, n: Move, rest: seq<Move>)
    requires Possible(p, m) && Possible(Make(p, m), n) && Feasible(Make(Make(p, m), n), rest)
    ensures Feasible(p, [m, n] + rest) && Play(p, [m, n] + rest) == Play(Make(Make(p, m), n), rest)
  {
    PlayNext(Make(p, m), n, rest);
    PlayNext(p, m, [n] + rest);
    assert [m] + ([n] + rest) == [m, n] + rest;
  }

  /** A mutation asks for release before its worker has finished; the worker's callback then brings the slot back. */
  lemma CancelledMutationReturnsSlot(p: Pool, t: Ticket)
    requires PoolInv(p) && Owned(p, t) && p.clients[t].stage.Start? && p.clients[t].protocol.Mutation?
    ensures var moves := [Submit(t), Move.Hold(t)] + [RequestRelease(t), CancelAwait(t)];
      Feasible(p, moves) && RunsUnderSlot(Play(p, moves), t)
    ensures var moves := [Submit(t), Move.Hold(t)] + ([RequestRelease(t), CancelAwait(t)] +
                         ([WorkerFinishes(t), Limiter(FireCallback(t, 0))] + [Limiter(ReturnSlot(t))]));
      Feasible(p, moves) && HasReturned(Play(p, moves).sys, t)
  {
    assert ClientOk(p.clients[t], p.sys.calls[t]) && LeaseOk(p.sys.calls[t]);
    var p1 := Make(p, Submit(t));
    var p2 := Make(p1, Move.Hold(t));
    MoveKeeps(p, Submit(t));
    MoveKeeps(p1, Move.Hold(t));
    HeldMutationReturnsSlot(p2, t);
    TwoMoves(p, Submit(t), Move.Hold(t), [RequestRelease(t), CancelAwait(t)]);
    TwoMoves(p, Submit(t), Move.Hold(t), [RequestRelease(t), CancelAwait(t)] +
             ([WorkerFinishes(t), Limiter(FireCallback(t, 0))] + [Limiter(ReturnSlot(t))]));
  }

  lemma HeldMutationReturnsSlot(p: Pool, t: Ticket)
    requires PoolInv(p) && Owned(p, t) && p.clients[t] == Client(Mutation, Held, Unfinished)
    ensures var moves := [RequestRelease(t), CancelAwait(t)]; Feasible(p, moves) && RunsUnderSlot(Play(p, moves), t)
    ensures var moves := [RequestRelease(t), CancelAwait(t)] +
                         ([WorkerFinishes(t), Limiter(FireCallback(t, 0))] + [Limiter(ReturnSlot(t))]);
      Feasible(p, moves) && HasReturned(Play(p, moves).sys, t)
  {
    assert ClientOk(p.clients[t], p.sys.calls[t]) && LeaseOk(p.sys.calls[t]);
    UnfiredZero(p.sys.calls[t].holds);
    var p1 := Make(p, RequestRelease(t));
    var p2 := Make(p1, CancelAwait(t));
    MoveKeeps(p, RequestRelease(t));
    MoveKeeps(p1, CancelAwait(t));
    TwoMoves(p, RequestRelease(t), CancelAwait(t), []);
    assert [RequestRelease(t), CancelAwait(t)] + [] == [RequestRelease(t), CancelAwait(t)];
    BusyClientOwnsSlot(p2, t);
    OverdueMutationReturnsSlot(p2, t);
    TwoMoves(p, RequestRelease(t), CancelAwait(t), [WorkerFinishes(t), Limiter(FireCallback(t, 0))] + [Limiter(ReturnSlot(t))]);
  }

  lemma OverdueMutationReturnsSlot(p: Pool, t: Ticket)
    requires PoolInv(p) && Owned(p, t) && p.clients[t] == Client(Mutation, Over, Unfinished)
    ensures var moves := [WorkerFinishes(t), Limiter(FireCallback(t, 0))] + [Limiter(ReturnSlot(t))];
      Feasible(p, moves) && HasReturned(Play(p, moves).sys, t)
  {
    assert ClientOk(p.clients[t], p.sys.calls[t]) && LeaseOk(p.sys.calls[t]);
    var p1 := Make(p, WorkerFinishes(t));
    var p2 := Make(p1, Limiter(FireCallback(t, 0)));
    MoveKeeps(p, WorkerFinishes(t));
    MoveKeeps(p1, Limiter(FireCallback(t, 0)));
    assert LeaseOk(p2.sys.calls[t]);
    UnfiredZero(p2.sys.calls[t].holds);
    SlotReturns(p2, t);
    TwoMoves(p, WorkerFinishes(t), Limiter(FireCallback(t, 0)), [Limiter(ReturnSlot(t))]);
  }

  function Launches(t: Ticket, n: nat): seq<Move> {
    if n == 0 then [] else [Launch(t)] + Launches(t, n - 1)
  }

  function Running(n: nat): (holds: seq<LimiterProtocol.Hold>)
    ensures |holds| == n
  {
    seq(n, _ => LimiterProtocol.Hold(false, false))
  }

  lemma LaunchHolds(p: Pool, t: Ticket)
    requires PoolInv(p) && Owned(p, t) && p.clients[t].protocol.Pipeline? && p.clients[t].stage.Start?
    ensures Possible(p, Launch(t)) && PoolInv(Make(p, Launch(t)))
    ensures Owned(Make(p, Launch(t)), t) && Make(p, Launch(t)).clients == p.clients
    ensures Make(p, Launch(t)).sys.calls[t].holds == p.sys.calls[t].holds + [LimiterProtocol.Hold(false, false)]
  {
    assert ClientOk(p.clients[t], p.sys.calls[t]);
    MoveKeeps(p, Launch(t));
  }

  /** Until its release is requested a pipeline may launch any number of queries, each held by its lease. */
  lemma {:induction false} PipelineHoldsEveryQuery(p: Pool, t: Ticket, n: nat)
    requires PoolInv(p) && Owned(p, t) && p.clients[t].protocol.Pipeline? && p.clients[t].stage.Start?
    ensures Feasible(p, Launches(t, n)) && PoolInv(Play(p, Launches(t, n))) && Owned(Play(p, Launches(t, n)), t)
    ensures Play(p, Launches(t, n)).clients == p.clients
    ensures Play(p, Launches(t, n)).sys.calls[t].holds == p.sys.calls[t].holds + Running(n)
    decreases n
  {
    if n == 0 {
      assert p.sys.calls[t].holds + Running(0) == p.sys.calls[t].holds;
    } else {
      LaunchHolds(p, t);
      assert [LimiterProtocol.Hold(false, false)] + Running(n - 1) == Running(n);
      PipelineHoldsEveryQuery(Make(p, Launch(t)), t, n - 1);
      PlayNext(p, Launch(t), Launches(t, n - 1));
    }
  }

  /** Meanwhile the slot stays with the pipeline. */
  lemma LaunchedPipelineOwnsSlot(p: Pool, t: Ticket, n: nat)
    requires PoolInv(p) && Owned(p, t) && p.clients[t].protocol.Pipeline? && p.clients[t].stage.Start? && n >= 1
    ensures Feasible(p, Launches(t, n)) && RunsUnderSlot(Play(p, Launches(t, n)), t)
  {
    PipelineHoldsEveryQuery(p, t, n);
    var q := Play(p, Launches(t, n));
    assert !q.sys.calls[t].holds[|p.sys.calls[t].holds|].finished;
    BusyClientOwnsSlot(q, t);
  }
}
