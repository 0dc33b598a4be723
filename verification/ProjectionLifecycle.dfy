/**
 A graph node and its vector document over any interleaving of saves, replays, repairs and
 deletions. The graph commits a generation, marks the node as pending, and only later, if at all,
 does the vector index hear of it. Versions are written as generations here; the driver adds the
 same constant to each of them.
 */
module ProjectionLifecycle {
  import opened Options
  import opened VersionedStore
  import opened VectorWrites
  import VectorIndex

  datatype Content = Content(groupId: string, embedding: Option<seq<real>>)

  /** A vector document: live, a tombstone for an entity without embedding, or a tombstone for a deleted one. */
  datatype Projection = Live(groupId: string, embedding: seq<real>) | Cleared(groupId: string) | Deleted

  /** What a save projects: without an embedding the driver writes a tombstone. */
  function Projected(content: Content): Projection {
    if content.embedding.Some? then Live(content.groupId, content.embedding.value) else Cleared(content.groupId)
  }

  datatype Node = Node(content: Content, version: nat, syncPending: Option<nat>, deletePending: bool)

  /** Everything the two databases and their clients know about one uuid. */
  datatype Track = Track(
    ledger: nat,                         // generations handed out so far
    node: Option<Node>,                  // the graph node
    stored: Option<Stored<Projection>>,  // the vector document
    issued: map<nat, Projection>,        // writes some client has been entitled to send, by generation
    acked: set<nat>,                     // those whose save or deletion returned normally
    reserved: set<nat>)                  // deletions that have a generation but have not marked the node

  datatype Step =
    | Commit(content: Content)   // the save query
    | Deliver(g: nat)            // the index receives a write, possibly not for the first time
    | Acknowledge(g: nat)        // the vector save or deletion returns normally
    | Clear(g: nat)              // clear_projection_sync_pending
    | Reserve                    // reserve_projection_versions
    | Prepare(g: nat)            // mark the node before its tombstone is sent
    | Finalize(g: nat)           // delete the marked node

  const UNKNOWN := Track(0, None, None, map[], {}, {})

  /** The save query's guard: no deletion under way, and a node never changes its group. */
  predicate MayCommit(k: Track, content: Content) {
    k.node.Some? ==> !k.node.value.deletePending && k.node.value.content.groupId == content.groupId
  }

  predicate Durable(k: Track, g: nat) {
    k.stored.Some? && k.stored.value.version >= g
  }

  /** Strict external versioning, seen from one id. */
  function Receive(stored: Option<Stored<Projection>>, g: nat, doc: Projection): Option<Stored<Projection>> {
    if stored.Some? && g <= stored.value.version then stored else Some(Stored(g, doc))
  }

  predicate Enabled(k: Track, s: Step) {
    match s
    case Commit(_) => true
    case Deliver(g) => g in k.issued
    case Acknowledge(g) => g in k.issued && Durable(k, g)
    case Clear(g) => g in k.acked
    case Reserve => true
    case Prepare(g) => g in k.reserved
    case Finalize(g) => g in k.acked
  }

  function Apply(k: Track, s: Step): Track
    requires Enabled(k, s)
  {
    match s
    case Commit(content) =>
      var g := k.ledger + 1;
      if MayCommit(k, content) then
        k.(ledger := g, node := Some(Node(content, g, Some(g), false)), issued := k.issued[g := Projected(content)])
      else k.(ledger := g)
    case Deliver(g) => k.(stored := Receive(k.stored, g, k.issued[g]))
    case Acknowledge(g) => k.(acked := k.acked + {g})
    case Clear(g) =>
      if k.node.Some? && k.node.value.version == g && k.node.value.syncPending == Some(g) && !k.node.value.deletePending then
        k.(node := Some(k.node.value.(syncPending := None)))
      else k
    case Reserve => k.(ledger := k.ledger + 1, reserved := k.reserved + {k.ledger + 1})
    case Prepare(g) =>
      var k' := k.(reserved := k.reserved - {g}, issued := k.issued[g := Deleted]);
      if k.node.Some? && k.node.value.version < g then
        k'.(node := Some(k.node.value.(deletePending := true, version := g)))
      else k'
    case Finalize(g) =>
      if k.node.Some? && k.node.value.deletePending && k.node.value.version == g then k.(node := None) else k
  }

  /** The delivery of a write, as the whole index sees it. */
  lemma ReceiveIsStrictDelivery(s: Store<Projection>, id: Id, g: nat, doc: Projection, other: Id)
    ensures var r := VersionedStore.Deliver(s, Write(id, g, External, doc));
      && id in r && Some(r[id]) == Receive(if id in s then Some(s[id]) else None, g, doc)
      && (other != id ==> (other in r <==> other in s) && (other in s ==> r[other] == s[other]))
  {
  }

  /** A projection as the document the driver indexes. */
  function AsBody(id: Id, p: Projection): Body {
    match p
    case Live(groupId, embedding) => Body(id, Some(groupId), Vector(embedding), false)
    case Cleared(groupId) => Body(id, Some(groupId), Missing, true)
    case Deleted => Tombstone(id)
  }

  /** What `save` hands to the driver. */
  function Handed(id: Id, content: Content, generation: int): VectorIndex.Document {
    var embedding := if content.embedding.Some? then Vector(content.embedding.value) else Missing;
    VectorIndex.Document(Body(id, Some(content.groupId), embedding, false), Some(generation))
  }

  /** The projections here are the documents that vector saves and deletions send. */
  lemma ProjectionsAreTheDriversDocuments(id: Id, content: Content, generation: int)
    requires ExternalVersion(generation).Some?
    ensures var d := Handed(id, content, generation);
      && VectorIndex.HasGeneration(d) && VectorIndex.Projected(d).body == AsBody(id, Projected(content))
      && VectorIndex.Marker(id, generation).doc == AsBody(id, Deleted)
  {
  }

  /** All uuids side by side; the steps of different uuids interleave freely. */
  type World = map<Id, Track>

  function TrackOf(w: World, id: Id): Track {
    if id in w then w[id] else UNKNOWN
  }

  predicate Executable(w: World, steps: seq<(Id, Step)>)
    decreases |steps|
  {
    steps == [] ||
    var (id, s) := steps[0];
    Enabled(TrackOf(w, id), s) && Executable(w[id := Apply(TrackOf(w, id), s)], steps[1..])
  }

  function Run(w: World, steps: seq<(Id, Step)>): World
    requires Executable(w, steps)
    decreases |steps|
  {
    if steps == [] then w
    else
      var (id, s) := steps[0];
      Run(w[id := Apply(TrackOf(w, id), s)], steps[1..])
  }

  /** A node's version bounds every write, and the write at that version carries the node's state. */
  ghost predicate NodeOk(k: Track, n: Node) {
    && n.version in k.issued
    && k.issued[n.version] == (if n.deletePending then Deleted else Projected(n.content))
    && (forall g | g in k.issued :: g <= n.version)
    && (!n.deletePending && n.syncPending.Some? ==> n.syncPending.value == n.version)
    && (!n.deletePending && n.syncPending.None? ==> Durable(k, n.version))
  }

  /** Without its node, a uuid has only tombstones left, stored or to come. */
  ghost predicate AbsentOk(k: Track) {
    && (k.stored.Some? ==> k.stored.value.doc.Deleted?)
    && (forall g | g in k.issued :: k.issued[g].Deleted? || Durable(k, g))
  }

  ghost predicate Inv(k: Track) {
    && (forall g | g in k.issued :: g <= k.ledger && g !in k.reserved)
    && (forall g | g in k.reserved :: g <= k.ledger)
    && (forall g | g in k.acked :: g in k.issued && Durable(k, g))
    && (k.stored.Some? ==> k.stored.value.version in k.issued && k.issued[k.stored.value.version] == k.stored.value.doc)
    && (if k.node.Some? then NodeOk(k, k.node.value) else AbsentOk(k))
  }

  lemma StepKeeps(k: Track, s: Step)
    requires Inv(k) && Enabled(k, s)
    ensures Inv(Apply(k, s))
  {
  }

  lemma {:induction false} RunKeeps(w: World, steps: seq<(Id, Step)>)
    requires Executable(w, steps) && forall id :: Inv(TrackOf(w, id))
    ensures forall id :: Inv(TrackOf(Run(w, steps), id))
    decreases |steps|
  {
    if steps == [] {
    } else {
      var (id, s) := steps[0];
      StepKeeps(TrackOf(w, id), s);
      var w' := w[id := Apply(TrackOf(w, id), s)];
      assert forall i :: TrackOf(w', i) == if i == id then w'[id] else TrackOf(w, i);
      RunKeeps(w', steps[1..]);
    }
  }

  ghost predicate Reachable(k: Track) {
    exists steps, id :: Executable(map[], steps) && k == TrackOf(Run(map[], steps), id)
  }

  lemma ReachableInv(k: Track)
    requires Reachable(k)
    ensures Inv(k)
  {
    var steps, id :| Executable(map[], steps) && k == TrackOf(Run(map[], steps), id);
    EveryTrackInv(steps);
  }

  lemma EveryTrackInv(steps: seq<(Id, Step)>)
    requires Executable(map[], steps)
    ensures forall id :: Inv(TrackOf(Run(map[], steps), id))
  {
    assert forall id :: TrackOf(map[], id) == UNKNOWN;
    RunKeeps(map[], steps);
  }

  /** A node that may be read through its vector: no deletion is under way. */
  predicate Active(k: Track) {
    k.node.Some? && !k.node.value.deletePending
  }

  /** The index shows exactly the node's current generation, with that generation's content. */
  predicate InSync(k: Track)
    requires k.node.Some?
  {
    k.stored == Some(Stored(k.node.value.version, Projected(k.node.value.content)))
  }

  /** The pending marker is sound: when it is gone the index is in sync, and while it is set it names the current generation. */
  lemma PendingMarkerIsSound(k: Track)
    requires Reachable(k) && Active(k)
    ensures k.node.value.syncPending.None? ==> InSync(k)
    ensures k.node.value.syncPending.Some? ==> k.node.value.syncPending.value == k.node.value.version
    ensures InSync(k) <==> Durable(k, k.node.value.version)
  {
    ReachableInv(k);
  }

  /** No orphan: a uuid without a node is never found through a live vector, whatever arrives late. */
  lemma NoLiveVectorWithoutNode(k: Track)
    requires Reachable(k) && k.node.None?
    ensures k.stored.Some? ==> k.stored.value.doc.Deleted?
    ensures forall g | g in k.issued :: Receive(k.stored, g, k.issued[g]).value.doc.Deleted?
  {
    ReachableInv(k);
  }

  /** Every new commit outranks all that is stored or still on its way, also after a deletion. */
  lemma CommitOutranksThePast(k: Track, content: Content)
    requires Reachable(k) && MayCommit(k, content)
    ensures var k' := Apply(k, Commit(content));
      && (k.stored.Some? ==> k.stored.value.version < k'.node.value.version)
      && (forall g | g in k.issued :: g < k'.node.value.version)
      && InSync(Apply(k', Deliver(k'.node.value.version)))
  {
    ReachableInv(k);
  }

  /**
   Once every issued write has arrived, in any order, there is a live vector exactly if the node is
   active and has an embedding, and it is that one.
   */
  lemma AllDeliveredMeansInSync(k: Track)
    requires Reachable(k) && forall g | g in k.issued :: Durable(k, g)
    ensures Active(k) ==> InSync(k)
    ensures (Active(k) && k.node.value.content.embedding.Some?) <==> (k.stored.Some? && k.stored.value.doc.Live?)
  {
    ReachableInv(k);
  }

  /** The node of `id` exists throughout the run. */
  predicate Lives(w: World, steps: seq<(Id, Step)>, id: Id)
    requires Executable(w, steps)
    decreases |steps|
  {
    && TrackOf(w, id).node.Some?
    && (steps != [] ==>
          var (i, s) := steps[0];
          Lives(w[i := Apply(TrackOf(w, i), s)], steps[1..], id))
  }

  /** Between `k` and `k'`: the same group, versions that do not go back, and a deletion that is not undone. */
  predicate SameLife(k: Track, k': Track) {
    k.node.Some? && k'.node.Some? ==>
      && k'.node.value.content.groupId == k.node.value.content.groupId
      && k'.node.value.version >= k.node.value.version
      && (k.node.value.deletePending ==> k'.node.value.deletePending && k'.node.value.content == k.node.value.content)
  }

  /**
   As long as a node exists it stays in its group, its version never goes back, and a prepared
   deletion is never undone: the uuid comes back only after the node is gone.
   */
  lemma {:induction false} LifetimeKeepsGroupAndDeletion(w: World, steps: seq<(Id, Step)>, id: Id)
    requires Executable(w, steps) && Lives(w, steps, id) && forall i :: Inv(TrackOf(w, i))
    ensures TrackOf(Run(w, steps), id).node.Some? && SameLife(TrackOf(w, id), TrackOf(Run(w, steps), id))
    decreases |steps|
  {
    if steps == [] {
    } else {
      var (i, s) := steps[0];
      StepKeeps(TrackOf(w, i), s);
      var w' := w[i := Apply(TrackOf(w, i), s)];
      assert forall j :: TrackOf(w', j) == if j == i then w'[i] else TrackOf(w, j);
      assert SameLife(TrackOf(w, id), TrackOf(w', id));
      LifetimeKeepsGroupAndDeletion(w', steps[1..], id);
    }
  }

  // ---- What one client can always achieve ----

  function Saving(id: Id, content: Content, g: nat): seq<(Id, Step)> {
    [(id, Commit(content)), (id, Deliver(g)), (id, Acknowledge(g)), (id, Clear(g))]
  }

  function Deleting(id: Id, g: nat): seq<(Id, Step)> {
    [(id, Reserve), (id, Prepare(g)), (id, Deliver(g)), (id, Acknowledge(g)), (id, Finalize(g))]
  }

  function TrackAfter(w: World, id: Id, s: Step): World
    requires Enabled(TrackOf(w, id), s)
  {
    w[id := Apply(TrackOf(w, id), s)]
  }

  lemma RunNext(w: World, id: Id, s: Step, rest: seq<(Id, Step)>)
    requires Enabled(TrackOf(w, id), s) && Executable(TrackAfter(w, id, s), rest)
    ensures Executable(w, [(id, s)] + rest) && Run(w, [(id, s)] + rest) == Run(TrackAfter(w, id, s), rest)
  {
    assert ([(id, s)] + rest)[1..] == rest;
  }

  lemma FourSteps(w: World, id: Id, s1: Step, s2: Step, s3: Step, s4: Step)
    requires Enabled(TrackOf(w, id), s1) && Enabled(TrackOf(TrackAfter(w, id, s1), id), s2)
    requires var w2 := TrackAfter(TrackAfter(w, id, s1), id, s2);
      Enabled(TrackOf(w2, id), s3) && Enabled(TrackOf(TrackAfter(w2, id, s3), id), s4)
    ensures var steps := [(id, s1), (id, s2), (id, s3), (id, s4)];
      && Executable(w, steps)
      && Run(w, steps) == TrackAfter(TrackAfter(TrackAfter(TrackAfter(w, id, s1), id, s2), id, s3), id, s4)
  {
    var w1 := TrackAfter(w, id, s1);
    var w2 := TrackAfter(w1, id, s2);
    var w3 := TrackAfter(w2, id, s3);
    RunNext(w3, id, s4, []);
    RunNext(w2, id, s3, [(id, s4)] + []);
    RunNext(w1, id, s2, [(id, s3)] + ([(id, s4)] + []));
    RunNext(w, id, s1, [(id, s2)] + ([(id, s3)] + ([(id, s4)] + [])));
    assert [(id, s1)] + ([(id, s2)] + ([(id, s3)] + ([(id, s4)] + []))) == [(id, s1), (id, s2), (id, s3), (id, s4)];
  }

  /** The vector document that a node's content asks for. */
  function Wanted(content: Content): Projection {
    match content.embedding
    case Some(embedding) => Live(content.groupId, embedding)
    case None => Cleared(content.groupId)
  }

  /**
   Whatever has happened before, content of its group can be saved unless a deletion is under way, on a
   new uuid any content; the save leaves that content on the node, in the index and without a marker.
   */
  lemma SaveSucceeds(past: seq<(Id, Step)>, id: Id, content: Content)
    requires Executable(map[], past)
    requires var node := TrackOf(Run(map[], past), id).node;
      node.Some? ==> !node.value.deletePending && node.value.content.groupId == content.groupId
    ensures var w := Run(map[], past);
      var g := TrackOf(w, id).ledger + 1;
      && Executable(w, Saving(id, content, g))
      && TrackOf(Run(w, Saving(id, content, g)), id).node == Some(Node(content, g, None, false))
      && TrackOf(Run(w, Saving(id, content, g)), id).stored == Some(Stored(g, Wanted(content)))
  {
    var w := Run(map[], past);
    var g := TrackOf(w, id).ledger + 1;
    EveryTrackInv(past);
    FourSteps(w, id, Commit(content), Deliver(g), Acknowledge(g), Clear(g));
  }

  /** Any node can be deleted, also one whose deletion was begun before: only a tombstone is left. */
  lemma DeleteSucceeds(past: seq<(Id, Step)>, id: Id)
    requires Executable(map[], past) && TrackOf(Run(map[], past), id).node.Some?
    ensures var w := Run(map[], past);
      var g := TrackOf(w, id).ledger + 1;
      && Executable(w, Deleting(id, g))
      && TrackOf(Run(w, Deleting(id, g)), id).node == None
      && TrackOf(Run(w, Deleting(id, g)), id).stored == Some(Stored(g, Deleted))
  {
    var w := Run(map[], past);
    var g := TrackOf(w, id).ledger + 1;
    EveryTrackInv(past);
    var reserved := TrackAfter(w, id, Reserve);
    FourSteps(reserved, id, Prepare(g), Deliver(g), Acknowledge(g), Finalize(g));
    RunNext(w, id, Reserve, [(id, Prepare(g)), (id, Deliver(g)), (id, Acknowledge(g)), (id, Finalize(g))]);
    assert [(id, Reserve)] + [(id, Prepare(g)), (id, Deliver(g)), (id, Acknowledge(g)), (id, Finalize(g))] == Deleting(id, g);
  }

  datatype SaveError = Mismatch | NotDurable

  /** One entity node or edge with its projection, as its `save` drives it. */
  class Entity {
    var track: Track

    constructor ()
      ensures track == UNKNOWN
    {
      track := UNKNOWN;
    }

    /**
     `save`: commit, project, clear the marker, in that order. The vector write may or may not reach
     the index (`arrives`) and may or may not be answered for (`answered`). A save that returns leaves
     the index in sync; one that raises leaves the marker set on its own generation for the repair.
     */
    method Save(content: Content, arrives: bool, answered: bool) returns (r: Result<nat, SaveError>)
      requires Inv(track) && (answered ==> arrives)
      modifies this
      ensures Inv(track) && track.ledger == old(track).ledger + 1
      ensures r == Err(Mismatch) <==>
        && old(track).node.Some?
        && (old(track).node.value.deletePending || old(track).node.value.content.groupId != content.groupId)
      ensures r.Ok? <==> r != Err(Mismatch) && answered
      ensures r == Err(Mismatch) ==> track == old(track).(ledger := track.ledger)
      ensures r != Err(Mismatch) ==> Active(track) && track.node.value.content == content && track.node.value.version == track.ledger
      ensures r.Ok? ==> r.value == track.ledger && track.node.value.syncPending.None? && InSync(track)
      ensures r == Err(NotDurable) ==> track.node.value.syncPending == Some(track.ledger)
    {
      var accepted := MayCommit(track, content);
      track := Apply(track, Commit(content));
      if !accepted {
        return Err(Mismatch);
      }
      var version := track.node.value.version;
      if arrives {
        StepKeeps(track, Deliver(version));
        track := Apply(track, Deliver(version));
      }
      if !answered {
        return Err(NotDurable);
      }
      track := Apply(track, Acknowledge(version));
      track := Apply(track, Clear(version));
      return Ok(version);
    }
  }
}
