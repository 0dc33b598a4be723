/** Whole histories of saves and deletions of one vector index. */
module VectorHistories {
  import opened VersionedStore
  import opened VectorWrites
  import opened VectorIndex
  import opened VectorWellFormed

  type Writes = seq<Write<Body>>

  lemma SendsAreStrict(op: Operation, dimension: nat)
    ensures Strict(Sends(op, dimension))
  {
  }

  // ---- Every history is a sequence of deliveries ----

  function TurnDeliveries(w: Write<Body>, t: Turn): Writes {
    t.foreign + match t.fate {
      case Answered => [w]
      case Resent => [w, w]
      case Lost(_) => []
      case Unsure(_) => [w]
    }
  }

  function BulkDeliveries(ws: Writes, turns: seq<Turn>): Writes
    requires |ws| == |turns|
  {
    if ws == [] then []
    else
      var n := |ws| - 1;
      BulkDeliveries(ws[..n], turns[..n]) + TurnDeliveries(ws[n], turns[n])
  }

  function OpDeliveries(op: Operation, dimension: nat): Writes {
    var ws := Sends(op, dimension);
    var n := Attempted(op.net, |ws|);
    BulkDeliveries(ws[..n], Turns(op.net, n))
  }

  /** Everything the index received, in the order in which it did. */
  function Deliveries(ops: seq<Operation>, dimension: nat): Writes {
    if ops == [] then []
    else Deliveries(ops[..|ops| - 1], dimension) + OpDeliveries(ops[|ops| - 1], dimension)
  }

  lemma TurnIsDelivery(s: Store<Body>, w: Write<Body>, t: Turn)
    ensures BulkTurn(s, w, t).store == DeliverAll(s, TurnDeliveries(w, t))
  {
    var d := DeliverAll(s, t.foreign);
    assert [w][..0] == [] && [w, w][..1] == [w];
    assert DeliverAll(d, [w]) == Deliver(d, w) && DeliverAll(d, [w, w]) == Deliver(Deliver(d, w), w);
    DeliverAllAppend(s, t.foreign, TurnDeliveries(w, t)[|t.foreign|..]);
    assert TurnDeliveries(w, t) == t.foreign + TurnDeliveries(w, t)[|t.foreign|..];
  }

  lemma {:induction false} BulkIsDelivery(s: Store<Body>, ws: Writes, turns: seq<Turn>)
    requires |ws| == |turns|
    ensures Bulk(s, ws, turns).store == DeliverAll(s, BulkDeliveries(ws, turns))
  {
    if ws == [] {
    } else {
      var n := |ws| - 1;
      BulkIsDelivery(s, ws[..n], turns[..n]);
      TurnIsDelivery(Bulk(s, ws[..n], turns[..n]).store, ws[n], turns[n]);
      DeliverAllAppend(s, BulkDeliveries(ws[..n], turns[..n]), TurnDeliveries(ws[n], turns[n]));
    }
  }

  /** Whatever the network does, a history leaves what its deliveries leave. */
  lemma {:induction false} HistoryIsDelivery(s: Store<Body>, ops: seq<Operation>, dimension: nat)
    ensures Effects(s, ops, dimension) == DeliverAll(s, Deliveries(ops, dimension))
  {
    if ops == [] {
    } else {
      var before, op := ops[..|ops| - 1], ops[|ops| - 1];
      HistoryIsDelivery(s, before, dimension);
      var ws := Sends(op, dimension);
      var n := Attempted(op.net, |ws|);
      EffectIsBulk(Effects(s, before, dimension), op, dimension);
      BulkIsDelivery(Effects(s, before, dimension), ws[..n], Turns(op.net, n));
      DeliverAllAppend(s, Deliveries(before, dimension), OpDeliveries(op, dimension));
    }
  }

  // ---- What is delivered was sent ----

  ghost predicate SentAround(turns: seq<Turn>, w: Write<Body>) {
    exists t :: t in turns && w in t.foreign
  }

  /** `w` is among the deliveries of turn `i`. */
  predicate DeliveredAt(ws: Writes, turns: seq<Turn>, i: int, w: Write<Body>)
    requires |ws| == |turns|
  {
    0 <= i < |ws| && w in TurnDeliveries(ws[i], turns[i])
  }

  lemma {:induction false} BulkDeliveriesMembers(ws: Writes, turns: seq<Turn>, w: Write<Body>)
    requires |ws| == |turns|
    ensures w in BulkDeliveries(ws, turns) <==> exists i :: DeliveredAt(ws, turns, i, w)
  {
    if ws == [] {
    } else {
      var n := |ws| - 1;
      BulkDeliveriesMembers(ws[..n], turns[..n], w);
      forall i | DeliveredAt(ws[..n], turns[..n], i, w) ensures DeliveredAt(ws, turns, i, w) {
      }
      forall i | DeliveredAt(ws, turns, i, w) && i < n ensures DeliveredAt(ws[..n], turns[..n], i, w) {
      }
      assert DeliveredAt(ws, turns, n, w) <==> w in TurnDeliveries(ws[n], turns[n]);
    }
  }

  lemma BulkDeliversWhatWasSent(ws: Writes, turns: seq<Turn>, w: Write<Body>)
    requires |ws| == |turns|
    ensures w in BulkDeliveries(ws, turns) ==> w in ws || SentAround(turns, w)
    ensures SentAround(turns, w) ==> w in BulkDeliveries(ws, turns)
    ensures w in ws && (forall t | t in turns :: Confirmed(t)) ==> w in BulkDeliveries(ws, turns)
  {
    BulkDeliveriesMembers(ws, turns, w);
    forall i | DeliveredAt(ws, turns, i, w) ensures w in ws || SentAround(turns, w) {
      assert ws[i] in ws && turns[i] in turns;
    }
    if SentAround(turns, w) {
      var i :| 0 <= i < |turns| && w in turns[i].foreign;
      assert DeliveredAt(ws, turns, i, w);
    }
    if w in ws && forall t | t in turns :: Confirmed(t) {
      var i :| 0 <= i < |ws| && ws[i] == w;
      assert turns[i] in turns;
      assert DeliveredAt(ws, turns, i, w);
    }
  }

  /** A write sent by some operation of the history. */
  ghost predicate Sent(ops: seq<Operation>, dimension: nat, w: Write<Body>) {
    exists op :: op in ops && w in Sends(op, dimension)
  }

  /** A write that some other client got in during the history. */
  ghost predicate SentByOthers(ops: seq<Operation>, w: Write<Body>) {
    exists op, i: nat :: op in ops && w in op.net.turn(i).foreign
  }

  /** Another client got `w` in before some attempted action of the operation. */
  ghost predicate GotInDuring(op: Operation, dimension: nat, w: Write<Body>) {
    SentAround(Turns(op.net, Attempted(op.net, |Sends(op, dimension)|)), w)
  }

  ghost predicate GotIn(ops: seq<Operation>, dimension: nat, w: Write<Body>) {
    exists op :: op in ops && GotInDuring(op, dimension, w)
  }

  lemma OpDeliversWhatWasSent(op: Operation, dimension: nat, w: Write<Body>)
    ensures w in OpDeliveries(op, dimension) ==> w in Sends(op, dimension) || GotInDuring(op, dimension, w)
    ensures GotInDuring(op, dimension, w) ==> w in OpDeliveries(op, dimension)
    ensures GotInDuring(op, dimension, w) ==> exists i: nat :: w in op.net.turn(i).foreign
    ensures w in Sends(op, dimension) && AllConfirmed(op.net, |Sends(op, dimension)|) ==> w in OpDeliveries(op, dimension)
  {
    var ws := Sends(op, dimension);
    var n := Attempted(op.net, |ws|);
    var turns := Turns(op.net, n);
    BulkDeliversWhatWasSent(ws[..n], turns, w);
    assert forall i | 0 <= i < n :: turns[i] == op.net.turn(i);
    if AllConfirmed(op.net, |ws|) {
      assert ws[..n] == ws;
    }
  }

  lemma {:induction false} DeliveredWasSent(ops: seq<Operation>, dimension: nat, w: Write<Body>)
    requires w in Deliveries(ops, dimension)
    ensures Sent(ops, dimension, w) || (GotIn(ops, dimension, w) && SentByOthers(ops, w))
  {
    var before, op := ops[..|ops| - 1], ops[|ops| - 1];
    assert op in ops && forall o | o in before :: o in ops;
    if w in Deliveries(before, dimension) {
      DeliveredWasSent(before, dimension, w);
    } else {
      OpDeliversWhatWasSent(op, dimension, w);
    }
  }

  lemma {:induction false} WhatGotInWasDelivered(ops: seq<Operation>, dimension: nat, op: Operation, w: Write<Body>)
    requires op in ops && GotInDuring(op, dimension, w)
    ensures w in Deliveries(ops, dimension)
  {
    if op == ops[|ops| - 1] {
      OpDeliversWhatWasSent(op, dimension, w);
    } else {
      assert op in ops[..|ops| - 1];
      WhatGotInWasDelivered(ops[..|ops| - 1], dimension, op, w);
    }
  }

  lemma {:induction false} ConfirmedWasDelivered(ops: seq<Operation>, dimension: nat, op: Operation, w: Write<Body>)
    requires op in ops && w in Sends(op, dimension) && AllConfirmed(op.net, |Sends(op, dimension)|)
    ensures w in Deliveries(ops, dimension)
  {
    if op == ops[|ops| - 1] {
      OpDeliversWhatWasSent(op, dimension, w);
    } else {
      assert op in ops[..|ops| - 1];
      ConfirmedWasDelivered(ops[..|ops| - 1], dimension, op, w);
    }
  }

  // ---- Finality and convergence of histories ----

  /** Other clients write vectors through the same operations. */
  ghost predicate StrictAround(ops: seq<Operation>) {
    forall w | SentByOthers(ops, w) :: w.order.External?
  }

  lemma DeliveriesAreStrict(ops: seq<Operation>, dimension: nat)
    requires StrictAround(ops)
    ensures Strict(Deliveries(ops, dimension))
  {
    forall w | w in Deliveries(ops, dimension) ensures w.order.External? {
      DeliveredWasSent(ops, dimension, w);
      if Sent(ops, dimension, w) {
        var op :| op in ops && w in Sends(op, dimension);
        SendsAreStrict(op, dimension);
      }
    }
  }

  /**
   A tombstone, or any document, outlives every history of saves and deletions in which nobody sends a
   newer generation for its id, whatever is retried, lost, repeated or interleaved.
   */
  lemma OutlivesOlderHistories(s: Store<Body>, ops: seq<Operation>, dimension: nat, id: Id)
    requires id in s && StrictAround(ops)
    requires forall w | (Sent(ops, dimension, w) || SentByOthers(ops, w)) && w.id == id :: w.version <= s[id].version
    ensures id in Effects(s, ops, dimension) && Effects(s, ops, dimension)[id] == s[id]
  {
    var ds := Deliveries(ops, dimension);
    HistoryIsDelivery(s, ops, dimension);
    DeliveriesAreStrict(ops, dimension);
    forall w | w in ds && w.id == id ensures w.version <= s[id].version {
      DeliveredWasSent(ops, dimension, w);
    }
    FinalIffNothingNewer(s, ds, id);
  }

  /** Failed operations are retried until each write has gone through once. */
  ghost predicate RetriedUntilConfirmed(ops: seq<Operation>, dimension: nat) {
    forall w | Sent(ops, dimension, w) :: exists op ::
      op in ops && w in Sends(op, dimension) && AllConfirmed(op.net, |Sends(op, dimension)|)
  }

  /** Every write that reached the index during the history or was sent in it. */
  ghost predicate Took(ops: seq<Operation>, dimension: nat, w: Write<Body>) {
    Sent(ops, dimension, w) || GotIn(ops, dimension, w)
  }

  lemma DeliveredIffTook(ops: seq<Operation>, dimension: nat, w: Write<Body>)
    requires RetriedUntilConfirmed(ops, dimension)
    ensures w in Deliveries(ops, dimension) <==> Took(ops, dimension, w)
  {
    if w in Deliveries(ops, dimension) {
      DeliveredWasSent(ops, dimension, w);
    }
    if Sent(ops, dimension, w) {
      var op :| op in ops && w in Sends(op, dimension) && AllConfirmed(op.net, |Sends(op, dimension)|);
      ConfirmedWasDelivered(ops, dimension, op, w);
    }
    if GotIn(ops, dimension, w) {
      var op :| op in ops && GotInDuring(op, dimension, w);
      WhatGotInWasDelivered(ops, dimension, op, w);
    }
  }

  /**
   Two histories that take the same writes, their own and those of other clients, leave the same
   index, however they batch, order, repeat and retry them, as long as one generation stands for one
   content and every write of theirs gets through in the end.
   */
  lemma HistoriesConverge(s: Store<Body>, ops: seq<Operation>, others: seq<Operation>, dimension: nat)
    requires RetriedUntilConfirmed(ops, dimension) && RetriedUntilConfirmed(others, dimension)
    requires StrictAround(ops) && StrictAround(others)
    requires forall w :: Took(ops, dimension, w) <==> Took(others, dimension, w)
    requires forall v, w | Took(ops, dimension, v) && Took(ops, dimension, w) && v.id == w.id && v.version == w.version :: v.doc == w.doc
    ensures Effects(s, ops, dimension) == Effects(s, others, dimension)
  {
    var ds, es := Deliveries(ops, dimension), Deliveries(others, dimension);
    HistoryIsDelivery(s, ops, dimension);
    HistoryIsDelivery(s, others, dimension);
    forall w ensures w in ds <==> Took(ops, dimension, w) {
      DeliveredIffTook(ops, dimension, w);
    }
    forall w ensures w in es <==> Took(others, dimension, w) {
      DeliveredIffTook(others, dimension, w);
    }
    DeliveriesAreStrict(ops, dimension);
    GenerationsConverge(s, ds, es);
  }
}
