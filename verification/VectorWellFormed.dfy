/** Every vector document that saves and deletions can leave behind is well formed. */
module VectorWellFormed {
  import opened Options
  import opened VersionedStore
  import opened VectorWrites
  import opened SearchPages
  import opened VectorIndex

  /** Either a live vector of the index's dimension or a tombstone without one. */
  predicate LiveOrTombstone(b: Body, dimension: nat) {
    if b.tombstone then b.embedding.Missing? else b.embedding.Vector? && |b.embedding.values| == dimension
  }

  predicate WellFormedEntry(id: Id, version: nat, b: Body, dimension: nat) {
    && b.uuid == id
    && LiveOrTombstone(b, dimension)
    && VECTOR_AOSS_WRITE_VERSION <= version < VECTOR_AOSS_VERSION_CEILING
  }

  predicate WellFormed(s: Store<Body>, dimension: nat) {
    forall id | id in s :: WellFormedEntry(id, s[id].version, s[id].doc, dimension)
  }

  predicate WellFormedWrites(ws: seq<Write<Body>>, dimension: nat) {
    forall i | 0 <= i < |ws| :: WellFormedEntry(ws[i].id, ws[i].version, ws[i].doc, dimension)
  }

  /** The generation a stored version stands for. */
  function Generation(version: nat): int {
    version - VECTOR_AOSS_WRITE_VERSION
  }

  /** Other writers are vector saves and deletions too. */
  ghost predicate WellFormedNet(net: Network, dimension: nat) {
    forall i: nat :: WellFormedWrites(net.turn(i).foreign, dimension)
  }

  lemma {:induction false} DeliveriesWellFormed(s: Store<Body>, ws: seq<Write<Body>>, dimension: nat)
    requires WellFormed(s, dimension) && WellFormedWrites(ws, dimension)
    ensures WellFormed(DeliverAll(s, ws), dimension)
  {
    if ws == [] {
    } else {
      DeliveriesWellFormed(s, ws[..|ws| - 1], dimension);
    }
  }

  lemma {:induction false} BulkWellFormed(s: Store<Body>, ws: seq<Write<Body>>, turns: seq<Turn>, dimension: nat)
    requires |ws| == |turns| && WellFormed(s, dimension) && WellFormedWrites(ws, dimension)
    requires forall i | 0 <= i < |turns| :: WellFormedWrites(turns[i].foreign, dimension)
    ensures WellFormed(Bulk(s, ws, turns).store, dimension)
  {
    if ws == [] {
    } else {
      var n := |ws| - 1;
      var before := Bulk(s, ws[..n], turns[..n]).store;
      BulkWellFormed(s, ws[..n], turns[..n], dimension);
      DeliveriesWellFormed(before, turns[n].foreign, dimension);
      assert WellFormedEntry(ws[n].id, ws[n].version, ws[n].doc, dimension);
    }
  }

  datatype Operation =
    | Save(data: seq<Document>, net: Network)
    | Delete(chunk: seq<Id>, versions: map<Id, int>, net: Network)

  /** The effect proved of `SaveVectorToAoss` and of each request of `DeleteDocumentIds`. */
  function Effect(s: Store<Body>, op: Operation, dimension: nat): Store<Body> {
    match op
    case Save(data, net) => SaveEffect(s, data, Some(dimension), net)
    case Delete(chunk, versions, net) => ChunkEffect(s, chunk, versions, net)
  }

  function Effects(s: Store<Body>, ops: seq<Operation>, dimension: nat): Store<Body> {
    if ops == [] then s else Effect(Effects(s, ops[..|ops| - 1], dimension), ops[|ops| - 1], dimension)
  }

  /** The index actions an operation sends, none if it raises beforehand. */
  function Sends(op: Operation, dimension: nat): seq<Write<Body>> {
    match op
    case Save(data, _) => if Projectable(data, Some(dimension)) then VectorActions(data) else []
    case Delete(chunk, versions, _) => if Deletable(chunk, versions) then Markers(chunk, versions) else []
  }

  lemma EffectIsBulk(s: Store<Body>, op: Operation, dimension: nat)
    ensures Effect(s, op, dimension) == BulkOver(s, Sends(op, dimension), op.net).store
  {
  }

  lemma EffectWellFormed(s: Store<Body>, op: Operation, dimension: nat)
    requires WellFormed(s, dimension) && WellFormedNet(op.net, dimension)
    ensures WellFormed(Effect(s, op, dimension), dimension)
  {
    var ws := Sends(op, dimension);
    EffectIsBulk(s, op, dimension);
    if op.Save? && ws != [] {
      forall i | 0 <= i < |ws| ensures WellFormedEntry(ws[i].id, ws[i].version, ws[i].doc, dimension) {
        assert Fits(Projected(op.data[i]).body, Some(dimension));
      }
    }
    var n := Attempted(op.net, |ws|);
    BulkWellFormed(s, ws[..n], Turns(op.net, n), dimension);
  }

  /**
   However saves and deletions interleave, fail or repeat, every stored document lies under its own
   uuid, is live with the right dimension or a bare tombstone, and has a version that decodes to
   exactly one generation.
   */
  lemma {:induction false} ReachableIndexIsWellFormed(ops: seq<Operation>, dimension: nat)
    requires forall op | op in ops :: WellFormedNet(op.net, dimension)
    ensures var s := Effects(map[], ops, dimension);
      && WellFormed(s, dimension)
      && forall id | id in s :: ExternalVersion(Generation(s[id].version)) == Some(s[id].version)
  {
    if ops == [] {
    } else {
      ReachableIndexIsWellFormed(ops[..|ops| - 1], dimension);
      assert ops[|ops| - 1] in ops;
      EffectWellFormed(Effects(map[], ops[..|ops| - 1], dimension), ops[|ops| - 1], dimension);
    }
  }

  /** So paged deletion and purging sort the documents of any scope by distinct uuids. */
  lemma ReachableIndexIsAligned(ops: seq<Operation>, dimension: nat, scope: Body -> bool)
    requires forall op | op in ops :: WellFormedNet(op.net, dimension)
    ensures var s := Effects(map[], ops, dimension); Aligned(s, scope) && DistinctKeys(ScopeKeys(s, scope))
  {
    ReachableIndexIsWellFormed(ops, dimension);
  }
}
