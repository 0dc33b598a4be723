/**
 The driver's operations on one vector index, over a network that may lose, repeat or leave
 unanswered any action and let other writers in at any point.
 */
module VectorIndex {
  import opened Options
  import opened Collections
  import opened VersionedStore
  import opened VectorWrites
  import opened SearchPages

  /** One bulk request: what happens to action `i`, and whether the client raises after some actions. */
  datatype Network = Network(turn: nat -> Turn, crash: Option<nat>)

  ghost predicate HonestNet(net: Network) {
    forall i: nat, ids :: HonestTurn(net.turn(i), ids)
  }

  /** No other writer is active. */
  ghost predicate Quiet(net: Network) {
    forall i: nat :: net.turn(i).foreign == []
  }

  /** Every request of a series, honest and, where asked for, undisturbed. */
  ghost predicate HonestNets(nets: nat -> Network) {
    forall k: nat :: HonestNet(nets(k))
  }

  ghost predicate QuietNets(nets: nat -> Network) {
    forall k: nat :: Quiet(nets(k))
  }

  function Turns(net: Network, n: nat): (turns: seq<Turn>)
    ensures |turns| == n
  {
    seq(n, i requires 0 <= i < n => net.turn(i))
  }

  /** How many of `n` actions are attempted. */
  function Attempted(net: Network, n: nat): nat {
    if net.crash.Some? && net.crash.value < n then net.crash.value else n
  }

  function BulkOver(s: Store<Body>, ws: seq<Write<Body>>, net: Network): BulkResult {
    var n := Attempted(net, |ws|);
    Bulk(s, ws[..n], Turns(net, n))
  }

  /** The request came back and every action in it was answered. */
  predicate AllConfirmed(net: Network, n: nat) {
    net.crash.None? && forall i | 0 <= i < n :: Confirmed(net.turn(i))
  }

  /** Something went wrong with a request: the client raised or an action was not plainly answered. */
  ghost predicate Troubled(net: Network) {
    net.crash.Some? || exists i: nat :: !net.turn(i).fate.Answered?
  }

  /** A request did not come back, or some action in it was not answered, the first time or when it was sent again. */
  ghost predicate Unconfirmed(net: Network) {
    net.crash.Some? || exists i: nat :: !Confirmed(net.turn(i))
  }

  ghost predicate Hindered(nets: nat -> Network) {
    exists k: nat :: Unconfirmed(nets(k))
  }

  lemma BulkOverIsDurable(s: Store<Body>, ws: seq<Write<Body>>, net: Network)
    ensures NeverLower(s, BulkOver(s, ws, net).store)
    ensures AllConfirmed(net, |ws|) ==> forall i | 0 <= i < |ws| ::
      ws[i].id in BulkOver(s, ws, net).store && BulkOver(s, ws, net).store[ws[i].id].version >= ws[i].version
  {
    var n := Attempted(net, |ws|);
    BulkIsDurable(s, ws[..n], Turns(net, n));
  }

  lemma BulkOverCounts(s: Store<Body>, ws: seq<Write<Body>>, net: Network, ids: set<Id>)
    requires HonestNet(net) && net.crash.None? && forall i | 0 <= i < |ws| :: ws[i].id in ids
    ensures var r := BulkOver(s, ws, net);
      && r.success + Conflicts(r.errors, ids) <= |ws|
      && (r.success + Conflicts(r.errors, ids) == |ws| <==> AllConfirmed(net, |ws|))
      && (Conflicts(r.errors, ids) == |r.errors| <==> AllConfirmed(net, |ws|))
  {
    var turns := Turns(net, |ws|);
    assert ws[..|ws|] == ws;
    BulkCountsConfirmed(s, ws, turns, ids);
    assert forall i | 0 <= i < |ws| :: turns[i] == net.turn(i) && turns[i] in turns;
  }

  datatype ProjectionError = InvalidGeneration | MissingGeneration | NotDurable

  /** A document handed to `save_to_aoss`, with its version and, optionally, its version type. */
  datatype VersionedDocument = VersionedDocument(body: Body, version: nat, order: Option<VersionType>)

  function Action(d: VersionedDocument): Write<Body> {
    Versioned(d.body.uuid, d.version, d.order, d.body)
  }

  /** A document handed to `save_vector_to_aoss`; its generation is absent unless it is an integer. */
  datatype Document = Document(body: Body, generation: Option<int>)

  predicate HasGeneration(d: Document) {
    d.generation.Some? && ExternalVersion(d.generation.value).Some?
  }

  function Projected(d: Document): VersionedDocument
    requires HasGeneration(d)
  {
    VersionedDocument(
      d.body.(tombstone := d.body.embedding.Missing?), ExternalVersion(d.generation.value).value, Some(External))
  }

  /** The strictly versioned index actions for a batch of projections. */
  function VectorActions(data: seq<Document>): (ws: seq<Write<Body>>)
    requires forall i | 0 <= i < |data| :: HasGeneration(data[i])
  {
    seq(|data|, i requires 0 <= i < |data| => Action(Projected(data[i])))
  }

  predicate Fits(b: Body, dimension: Option<nat>) {
    dimension.Some? && !b.tombstone ==> b.embedding.Vector? && |b.embedding.values| == dimension.value
  }

  function Marker(id: Id, generation: int): Write<Body>
    requires ExternalVersion(generation).Some?
  {
    Write(id, ExternalVersion(generation).value, External, Tombstone(id))
  }

  /** Every id has a usable graph generation. */
  predicate Deletable(ids: seq<Id>, versions: map<Id, int>) {
    forall i | 0 <= i < |ids| :: ids[i] in versions && ExternalVersion(versions[ids[i]]).Some?
  }

  /** The caller supplied no usable generation for some id. */
  ghost predicate Unversioned(ids: set<Id>, versions: map<Id, int>) {
    exists id :: id in ids && (id in versions ==> ExternalVersion(versions[id]).None?)
  }

  function Members(ids: seq<Id>): set<Id> {
    set id | id in ids
  }

  function Markers(ids: seq<Id>, versions: map<Id, int>): (ws: seq<Write<Body>>)
    requires Deletable(ids, versions)
    ensures |ws| == |ids| && forall i | 0 <= i < |ids| :: ws[i] == Marker(ids[i], versions[ids[i]])
  {
    seq(|ids|, i requires 0 <= i < |ids| => Marker(ids[i], versions[ids[i]]))
  }

  /** Every document has a usable generation and, if live, an embedding of the right dimension. */
  predicate Projectable(data: seq<Document>, dimension: Option<nat>) {
    forall i | 0 <= i < |data| :: HasGeneration(data[i]) && Fits(Projected(data[i]).body, dimension)
  }

  /** What a vector save does to the index: all or nothing up to the network. */
  function SaveEffect(s: Store<Body>, data: seq<Document>, dimension: Option<nat>, net: Network): Store<Body> {
    if Projectable(data, dimension) then BulkOver(s, VectorActions(data), net).store else s
  }

  /** `id` now holds `doc` at `version`, unless what it held before is at least as new and has stayed. */
  ghost predicate Replaces(s: Store<Body>, r: Store<Body>, id: Id, version: int, doc: Body) {
    id in r && if id in s && s[id].version >= version then r[id] == s[id] else r[id].version == version && r[id].doc == doc
  }

  /** No other document of the batch has the uuid of `data[i]`. */
  predicate OnlyOne(data: seq<Document>, i: int) {
    0 <= i < |data| && forall j | 0 <= j < |data| && j != i :: data[j].body.uuid != data[i].body.uuid
  }

  /** Each document of a batch is stored as a live vector or, without an embedding, as a tombstone; nothing else changes. */
  ghost predicate SavedOnly(s: Store<Body>, r: Store<Body>, data: seq<Document>) {
    && (forall i | OnlyOne(data, i) ::
          && data[i].generation.Some?
          && var b := data[i].body;
             Replaces(s, r, b.uuid, VECTOR_AOSS_WRITE_VERSION + data[i].generation.value,
                      Body(b.uuid, b.groupId, b.embedding, b.embedding.Missing?)))
    && (forall id | forall i | 0 <= i < |data| :: data[i].body.uuid != id :: SameEntry(r, s, id))
  }

  lemma {:induction false} OnlyDelivery(s: Store<Body>, ws: seq<Write<Body>>, i: nat)
    requires i < |ws| && forall j | 0 <= j < |ws| && j != i :: ws[j].id != ws[i].id
    ensures SameEntry(DeliverAll(s, ws), Deliver(s, ws[i]), ws[i].id)
  {
    var n := |ws| - 1;
    if i == n {
      OtherDeliveries(s, ws[..n], ws[n].id);
    } else {
      OnlyDelivery(s, ws[..n], i);
    }
  }

  /** A confirmed save while nobody else writes. */
  lemma ConfirmedSave(s: Store<Body>, data: seq<Document>, net: Network)
    requires (forall i | 0 <= i < |data| :: HasGeneration(data[i])) && Quiet(net) && AllConfirmed(net, |data|)
    ensures SavedOnly(s, BulkOver(s, VectorActions(data), net).store, data)
  {
    var ws, turns := VectorActions(data), Turns(net, |data|);
    var r := BulkOver(s, ws, net).store;
    assert ws[..|data|] == ws;
    forall id ensures SameEntry(r, DeliverAll(s, ws), id) {
      BulkEntry(s, ws, turns, id);
    }
    forall i | OnlyOne(data, i)
      ensures var b := data[i].body;
        Replaces(s, r, b.uuid, VECTOR_AOSS_WRITE_VERSION + data[i].generation.value,
                 Body(b.uuid, b.groupId, b.embedding, b.embedding.Missing?))
    {
      assert forall j | 0 <= j < |data| :: ws[j].id == data[j].body.uuid;
      OnlyDelivery(s, ws, i);
      assert SameEntry(r, DeliverAll(s, ws), ws[i].id);
    }
    forall id | forall i | 0 <= i < |data| :: data[i].body.uuid != id ensures SameEntry(r, s, id) {
      OtherDeliveries(s, ws, id);
      assert SameEntry(r, DeliverAll(s, ws), id);
    }
  }

  /** A deletion marker replaces exactly what is older by a bare tombstone at its own generation, and touches nothing else. */
  lemma MarkerReplacesOlder(s: Store<Body>, id: Id, generation: int)
    requires ExternalVersion(generation).Some?
    ensures var r := Deliver(s, Marker(id, generation));
      && Replaces(s, r, id, VECTOR_AOSS_WRITE_VERSION + generation, Body(id, None, Missing, true))
      && forall other | other != id :: SameEntry(r, s, other)
  {
  }

  /** What one deletion request does to the index. */
  function ChunkEffect(s: Store<Body>, chunk: seq<Id>, versions: map<Id, int>, net: Network): Store<Body> {
    if Deletable(chunk, versions) then BulkOver(s, Markers(chunk, versions), net).store else s
  }

  /** `list(dict.fromkeys(ids))`. */
  function FirstOccurrences(ids: seq<Id>): (r: seq<Id>)
    ensures |r| <= |ids| && forall id :: id in r <==> id in ids
    ensures forall i, j | 0 <= i < j < |r| :: r[i] != r[j]
  {
    if ids == [] then []
    else
      var rest, last := FirstOccurrences(ids[..|ids| - 1]), ids[|ids| - 1];
      assert ids == ids[..|ids| - 1] + [last];
      if last in rest then rest else rest + [last]
  }

  /** A tombstone marker at its own generation replaces exactly the older documents. */
  lemma {:induction false} MarkersEntry(s: Store<Body>, ids: seq<Id>, versions: map<Id, int>, id: Id)
    requires Deletable(ids, versions)
    ensures id !in ids ==> SameEntry(DeliverAll(s, Markers(ids, versions)), s, id)
    ensures id in ids ==>
      Deletable([id], versions) && SameEntry(DeliverAll(s, Markers(ids, versions)), Deliver(s, Marker(id, versions[id])), id)
  {
    if ids == [] {
    } else {
      var n := |ids| - 1;
      assert ids == ids[..n] + [ids[n]];
      MarkersEntry(s, ids[..n], versions, id);
      assert Markers(ids, versions)[..n] == Markers(ids[..n], versions);
    }
  }

  /** Over a quiet network a request touches only its own ids, and a confirmed one delivers every marker. */
  lemma ChunkEntry(s: Store<Body>, chunk: seq<Id>, versions: map<Id, int>, net: Network, id: Id)
    requires Deletable(chunk, versions) && Quiet(net)
    ensures id !in chunk ==> SameEntry(BulkOver(s, Markers(chunk, versions), net).store, s, id)
    ensures id in chunk && AllConfirmed(net, |chunk|) ==>
      SameEntry(BulkOver(s, Markers(chunk, versions), net).store, Deliver(s, Marker(id, versions[id])), id)
  {
    var ws := Markers(chunk, versions);
    var n := Attempted(net, |chunk|);
    assert ws[..n] == Markers(chunk[..n], versions);
    if id !in chunk || AllConfirmed(net, |chunk|) {
      BulkEntry(s, ws[..n], Turns(net, n), id);
      assert forall i | 0 <= i < n :: chunk[..n][i] == chunk[i];
      MarkersEntry(s, chunk[..n], versions, id);
    }
  }

  /** What a completed deletion leaves under each of its ids. */
  ghost predicate Deleted(s: Store<Body>, r: Store<Body>, ids: seq<Id>, versions: map<Id, int>) {
    forall id | id in ids ::
      && id in versions && ExternalVersion(versions[id]).Some?
      && SameEntry(r, Deliver(s, Marker(id, versions[id])), id)
  }

  /** Nothing outside `ids` has changed. */
  ghost predicate OnlyWithin(s: Store<Body>, r: Store<Body>, ids: seq<Id>) {
    forall id | id !in ids :: SameEntry(r, s, id)
  }

  ghost predicate DeletedOnly(s: Store<Body>, r: Store<Body>, ids: seq<Id>, versions: map<Id, int>) {
    Deleted(s, r, ids, versions) && OnlyWithin(s, r, ids)
  }

  /** Every id is stored at its deletion's version or above. */
  ghost predicate DeletedDurably(r: Store<Body>, ids: seq<Id>, versions: map<Id, int>) {
    forall id | id in ids ::
      && id in versions && ExternalVersion(versions[id]).Some?
      && id in r && r[id].version >= ExternalVersion(versions[id]).value
  }

  lemma {:induction false} FirstOccurrencesOfDistinct(ids: seq<Id>)
    requires Distinct(ids)
    ensures FirstOccurrences(ids) == ids
  {
    if ids == [] {
    } else {
      var n := |ids| - 1;
      FirstOccurrencesOfDistinct(ids[..n]);
      assert ids == ids[..n] + [ids[n]];
    }
  }

  /** The documents in scope, each under the `uuid` field that searches sort by. */
  function ScopeKeys(s: Store<Body>, scope: Body -> bool): Keys {
    map id | id in s && scope(s[id].doc) :: s[id].doc.uuid
  }

  function ScopeIds(s: Store<Body>, scope: Body -> bool): set<Id> {
    ScopeKeys(s, scope).Keys
  }

  /** Every document in scope lies under its own uuid, as all documents that saves and deletions write do. */
  predicate Aligned(s: Store<Body>, scope: Body -> bool) {
    forall id | id in ScopeIds(s, scope) :: s[id].doc.uuid == id
  }

  /**
   What a search over the scope of `s0` may show once the index has reached `s`: the documents now in
   scope, except that the `lingering` ones still appear as they were.
   */
  function Shown(s0: Store<Body>, s: Store<Body>, scope: Body -> bool, lingering: set<Id>): Keys
    requires lingering <= ScopeIds(s0, scope)
  {
    map id | id in ScopeIds(s, scope) + lingering :: if id in lingering then s0[id].doc.uuid else s[id].doc.uuid
  }

  /** Every value that a document in scope can ever be sorted by: its uuid, or its id once it is a tombstone. */
  function SortValues(s: Store<Body>, scope: Body -> bool): set<string> {
    (set id | id in ScopeIds(s, scope) :: s[id].doc.uuid) + ScopeIds(s, scope)
  }

  lemma CountParts(all: set<Id>, a: set<Id>, b: set<Id>)
    requires a !! b && forall id :: id in all <==> id in a || id in b
    ensures all == a + b && |all| == |a| + |b|
  {
    assert all == a + b;
  }

  /** The documents that the paging has passed. */
  ghost function Passed(keys: Keys, cursor: Option<string>): set<Id> {
    set id | id in keys && id !in Beyond(keys, cursor)
  }

  /** One page passes exactly its hits. */
  lemma PagePasses(keys: Keys, cursor: Option<string>, size: nat, hits: seq<Id>)
    requires IsPage(Beyond(keys, cursor), size, hits) && hits != [] && DistinctKeys(keys)
    ensures hits[|hits| - 1] in keys
    ensures var next := Some(keys[hits[|hits| - 1]]);
      && Passed(keys, next) == Passed(keys, cursor) + Members(hits)
      && |Passed(keys, next)| == |Passed(keys, cursor)| + |hits|
  {
    PageAdvances(keys, cursor, size, hits);
    SizeOfDistinct(hits);
    assert forall id | id in hits :: id in Beyond(keys, cursor);
    CountParts(Passed(keys, Some(keys[hits[|hits| - 1]])), Passed(keys, cursor), Members(hits));
  }

  /** A short page passes everything that was left. */
  lemma ShortPagePassesAll(keys: Keys, cursor: Option<string>, size: nat, hits: seq<Id>)
    requires IsPage(Beyond(keys, cursor), size, hits) && |hits| < size
    ensures Passed(keys, cursor) + Members(hits) == keys.Keys
    ensures |Passed(keys, cursor)| + |hits| == |keys.Keys|
  {
    ShortPageIsLast(Beyond(keys, cursor), size, hits);
    SizeOfDistinct(hits);
    CountParts(keys.Keys, Passed(keys, cursor), Members(hits));
  }

  /** The ids in `done` have been tombstoned where they were older; nothing else has changed. */
  ghost predicate Swept(s0: Store<Body>, s: Store<Body>, done: set<Id>, versions: map<Id, int>) {
    && (forall id | id in done ::
          && id in versions && ExternalVersion(versions[id]).Some?
          && SameEntry(s, Deliver(s0, Marker(id, versions[id])), id))
    && (forall id | id !in done :: SameEntry(s, s0, id))
  }

  /** Nothing outside the scope has changed. */
  ghost predicate Untouched(s0: Store<Body>, s: Store<Body>, scope: set<Id>) {
    forall id | id !in scope :: SameEntry(s, s0, id)
  }

  /** Each document of the scope is as it was or a tombstone, and nothing else has changed. */
  ghost predicate PartlyDeleted(s0: Store<Body>, s: Store<Body>, scope: set<Id>) {
    && Untouched(s0, s, scope)
    && forall id | id in scope :: id in s0 && id in s && (s[id] == s0[id] || s[id].doc == Tombstone(id))
  }

  lemma PartlyDeletedMore(s0: Store<Body>, s: Store<Body>, r: Store<Body>, scope: set<Id>, hits: seq<Id>, versions: map<Id, int>)
    requires PartlyDeleted(s0, s, scope) && Deleted(s, r, hits, versions) && OnlyWithin(s, r, hits)
    requires forall h | h in hits :: h in scope
    ensures PartlyDeleted(s0, r, scope)
  {
    forall id | id !in scope ensures SameEntry(r, s0, id) {
      assert SameEntry(r, s, id) && SameEntry(s, s0, id);
    }
    forall id | id in scope ensures id in r && (r[id] == s0[id] || r[id].doc == Tombstone(id)) {
      assert if id in hits then SameEntry(r, Deliver(s, Marker(id, versions[id])), id) else SameEntry(r, s, id);
    }
  }

  /** Only documents of the scope are ever shown, under a value they can be sorted by. */
  lemma ShownIsInScope(s0: Store<Body>, s: Store<Body>, scope: Body -> bool, lingering: set<Id>, id: Id)
    requires PartlyDeleted(s0, s, ScopeIds(s0, scope)) && lingering <= ScopeIds(s0, scope) && id in Shown(s0, s, scope, lingering)
    ensures id in ScopeIds(s0, scope) && Shown(s0, s, scope, lingering)[id] in SortValues(s0, scope)
  {
    assert id !in ScopeIds(s0, scope) ==> SameEntry(s, s0, id);
  }

  lemma SweptMore(s0: Store<Body>, s: Store<Body>, r: Store<Body>, done: set<Id>, hits: seq<Id>, versions: map<Id, int>)
    requires Swept(s0, s, done, versions) && Deleted(s, r, hits, versions) && OnlyWithin(s, r, hits)
    requires forall id | id in hits :: id !in done
    ensures Swept(s0, r, done + Members(hits), versions)
  {
    forall id | id in hits ensures SameEntry(r, Deliver(s0, Marker(id, versions[id])), id) {
      assert SameEntry(s, s0, id);
    }
  }

  /** Where documents lie under their own uuids, `count` of them, those passed, have met their tombstones. */
  ghost predicate SweptTo(s0: Store<Body>, s: Store<Body>, scope: Body -> bool, versions: map<Id, int>,
                          cursor: Option<string>, count: nat) {
    Aligned(s0, scope) ==>
      && Swept(s0, s, Passed(ScopeKeys(s0, scope), cursor), versions)
      && count == |Passed(ScopeKeys(s0, scope), cursor)|
  }

  ghost predicate SweptAll(s0: Store<Body>, s: Store<Body>, scope: Body -> bool, versions: map<Id, int>, count: nat) {
    Aligned(s0, scope) ==> Swept(s0, s, ScopeIds(s0, scope), versions) && count == |ScopeIds(s0, scope)|
  }

  /** Beyond the cursor the index shows the untouched remainder of the scope, however stale it is elsewhere. */
  lemma VisibleBeyond(s0: Store<Body>, s: Store<Body>, scope: Body -> bool, cursor: Option<string>, lingering: set<Id>,
                      versions: map<Id, int>)
    requires Aligned(s0, scope) && Swept(s0, s, Passed(ScopeKeys(s0, scope), cursor), versions)
    requires lingering <= ScopeIds(s0, scope)
    ensures Beyond(Shown(s0, s, scope, lingering), cursor) == Beyond(ScopeKeys(s0, scope), cursor)
  {
    var keys, shown := ScopeKeys(s0, scope), Shown(s0, s, scope, lingering);
    forall id
      ensures id in Beyond(shown, cursor) <==> id in Beyond(keys, cursor)
      ensures id in Beyond(keys, cursor) && id in shown ==> shown[id] == keys[id]
    {
      if id in Passed(keys, cursor) {
        assert SameEntry(s, Deliver(s0, Marker(id, versions[id])), id);
        assert id in shown ==> shown[id] == keys[id];
      } else {
        assert SameEntry(s, s0, id);
      }
    }
  }

  /** One tombstoned page takes the sweep to its last hit, or to the end if it was short. */
  lemma SweepMoves(s0: Store<Body>, s: Store<Body>, r: Store<Body>, scope: Body -> bool, versions: map<Id, int>,
                   cursor: Option<string>, count: nat, size: nat, hits: seq<Id>)
    requires IsPage(Beyond(ScopeKeys(s0, scope), cursor), size, hits) && size >= 1 && Aligned(s0, scope)
    requires SweptTo(s0, s, scope, versions, cursor, count)
    requires Deleted(s, r, hits, versions) && OnlyWithin(s, r, hits)
    ensures |hits| < size ==> SweptAll(s0, r, scope, versions, count + |hits|)
    ensures |hits| >= size ==>
      && hits[|hits| - 1] in ScopeIds(s0, scope)
      && SweptTo(s0, r, scope, versions, Some(s0[hits[|hits| - 1]].doc.uuid), count + |hits|)
  {
    var keys := ScopeKeys(s0, scope);
    forall id | id in hits ensures id !in Passed(keys, cursor) {
      assert id in Beyond(keys, cursor);
    }
    SweptMore(s0, s, r, Passed(keys, cursor), hits, versions);
    if |hits| < size {
      ShortPagePassesAll(keys, cursor, size, hits);
    } else {
      PagePasses(keys, cursor, size, hits);
    }
  }

  /** The state of the deletion between two pages. */
  ghost predicate Sweeping(s0: Store<Body>, s: Store<Body>, scope: Body -> bool, versions: map<Id, int>,
                           cursor: Option<string>, count: nat) {
    && NeverLower(s0, s) && PartlyDeleted(s0, s, ScopeIds(s0, scope))
    && SweptTo(s0, s, scope, versions, cursor, count)
  }

  /** What one page that was listed and tombstoned does to the deletion. */
  lemma PageSwept(s0: Store<Body>, s: Store<Body>, r: Store<Body>, scope: Body -> bool, versions: map<Id, int>,
                  lingering: set<Id>, cursor: Option<string>, count: nat, size: nat, hits: seq<Id>)
    requires Sweeping(s0, s, scope, versions, cursor, count) && lingering <= ScopeIds(s0, scope) && size >= 1
    requires IsPage(Beyond(Shown(s0, s, scope, lingering), cursor), size, hits)
    requires Deleted(s, r, hits, versions) && OnlyWithin(s, r, hits) && NeverLower(s0, r)
    ensures |hits| < size ==> PartlyDeleted(s0, r, ScopeIds(s0, scope)) && SweptAll(s0, r, scope, versions, count + |hits|)
    ensures |hits| >= size ==>
      && hits[|hits| - 1] in Shown(s0, s, scope, lingering)
      && var next := Shown(s0, s, scope, lingering)[hits[|hits| - 1]];
         Sweeping(s0, r, scope, versions, Some(next), count + |hits|) && next in ValuesBeyond(SortValues(s0, scope), cursor)
  {
    var shown := Shown(s0, s, scope, lingering);
    HitsInScope(s0, s, r, scope, versions, lingering, cursor, size, hits);
    PartlyDeletedMore(s0, s, r, ScopeIds(s0, scope), hits, versions);
    if |hits| >= size {
      PageStaysBehind(shown, cursor, size, hits);
      ShownIsInScope(s0, s, scope, lingering, hits[|hits| - 1]);
    }
    if Aligned(s0, scope) {
      VisibleBeyond(s0, s, scope, cursor, lingering, versions);
      SweepMoves(s0, s, r, scope, versions, cursor, count, size, hits);
    }
  }

  /** A page touches nothing outside the scope, even if it is interrupted. */
  lemma HitsInScope(s0: Store<Body>, s: Store<Body>, r: Store<Body>, scope: Body -> bool, versions: map<Id, int>,
                    lingering: set<Id>, cursor: Option<string>, size: nat, hits: seq<Id>)
    requires PartlyDeleted(s0, s, ScopeIds(s0, scope)) && lingering <= ScopeIds(s0, scope)
    requires IsPage(Beyond(Shown(s0, s, scope, lingering), cursor), size, hits) && OnlyWithin(s, r, hits)
    ensures Untouched(s0, r, ScopeIds(s0, scope)) && forall h | h in hits :: h in ScopeIds(s0, scope)
    ensures Unversioned(Members(hits), versions) ==> Unversioned(ScopeIds(s0, scope), versions)
  {
    forall h | h in hits ensures h in ScopeIds(s0, scope) {
      ShownIsInScope(s0, s, scope, lingering, h);
    }
    forall id | id !in ScopeIds(s0, scope) ensures SameEntry(r, s0, id) {
      assert SameEntry(r, s, id) && SameEntry(s, s0, id);
    }
  }

  // ---- Hard deletion ----

  /** One delete action: answered only if it found its document; a repeated one meets a missing document. */
  function PurgeTurn(s: Store<Body>, id: Id, fate: Fate): (Store<Body>, bool) {
    match fate
    case Answered => (s - {id}, id in s)
    case Resent => (s - {id}, false)
    case Lost(_) => (s, false)
    case Unsure(_) => (s - {id}, false)
  }

  function PurgeBulk(s: Store<Body>, ids: seq<Id>, net: Network): (Store<Body>, nat) {
    if ids == [] then (s, 0)
    else
      var n := |ids| - 1;
      var (before, success) := PurgeBulk(s, ids[..n], net);
      var (after, answered) := PurgeTurn(before, ids[n], net.turn(n).fate);
      (after, if answered then success + 1 else success)
  }

  /** Hard deletion removes nothing but its ids; without errors it removes every one of them. */
  lemma {:induction false} PurgeBulkRemoves(s: Store<Body>, ids: seq<Id>, net: Network) returns (gone: set<Id>)
    ensures PurgeBulk(s, ids, net).1 <= |ids| && gone <= set id | id in ids
    ensures PurgeBulk(s, ids, net).0 == s - gone
    ensures PurgeBulk(s, ids, net).1 == |ids| ==> gone == set id | id in ids
  {
    if ids == [] {
      gone := {};
      assert s == s - gone;
    } else {
      var n := |ids| - 1;
      assert ids == ids[..n] + [ids[n]];
      gone := PurgeBulkRemoves(s, ids[..n], net);
      if !net.turn(n).fate.Lost? {
        assert s - gone - {ids[n]} == s - (gone + {ids[n]});
        gone := gone + {ids[n]};
      }
    }
  }

  /** A purge that is answered throughout reports no error: it never asks for a document already gone. */
  lemma {:induction false} PurgeBulkSmooth(s: Store<Body>, ids: seq<Id>, net: Network)
    requires Distinct(ids) && (forall id | id in ids :: id in s) && forall i: nat :: net.turn(i).fate.Answered?
    ensures PurgeBulk(s, ids, net).1 == |ids|
  {
    if ids == [] {
    } else {
      var n := |ids| - 1;
      assert forall id | id in ids[..n] :: id in ids;
      PurgeBulkSmooth(s, ids[..n], net);
      var gone := PurgeBulkRemoves(s, ids[..n], net);
      assert ids[n] !in gone && ids[n] in ids;
    }
  }

  /** Exactly the documents in `gone` have been removed. */
  ghost predicate Removed(s: Store<Body>, r: Store<Body>, gone: set<Id>) {
    && (forall id | id in gone :: id !in r)
    && (forall id | id !in gone :: SameEntry(r, s, id))
  }

  lemma RemovedIsDifference(s: Store<Body>, r: Store<Body>, gone: set<Id>)
    requires Removed(s, r, gone)
    ensures r == s - gone
  {
    forall id ensures id in r <==> id in s - gone {
      assert id !in gone ==> SameEntry(r, s, id);
    }
    forall id | id in r ensures r[id] == s[id] {
      assert SameEntry(r, s, id);
    }
  }

  lemma RemovedMore(s0: Store<Body>, s: Store<Body>, r: Store<Body>, done: set<Id>, gone: set<Id>, all: set<Id>)
    requires Removed(s0, s, done) && Removed(s, r, gone)
    requires done <= all && gone <= all && forall id | id in all :: id in done || id in gone
    ensures Removed(s0, r, all)
  {
    forall id ensures if id in all then id !in r else SameEntry(r, s0, id) {
      assert id !in gone ==> SameEntry(r, s, id);
      assert id !in done ==> SameEntry(s, s0, id);
    }
  }

  /** Some documents of the scope are gone and everything else is as it was. */
  ghost predicate PartlyPurged(s0: Store<Body>, s: Store<Body>, scope: set<Id>) {
    && (forall id | id in s :: id in s0 && s[id] == s0[id])
    && (forall id | id in s0 && id !in scope :: id in s)
  }

  lemma PartlyPurgedMore(s0: Store<Body>, s: Store<Body>, r: Store<Body>, done: set<Id>, gone: set<Id>, scope: set<Id>)
    requires PartlyPurged(s0, s, done) && Removed(s, r, gone) && done <= scope && gone <= scope
    ensures PartlyPurged(s0, r, scope)
  {
    forall id | id in r ensures id in s0 && r[id] == s0[id] {
      assert SameEntry(r, s, id);
    }
    forall id | id in s0 && id !in scope ensures id in r {
      assert SameEntry(r, s, id);
    }
  }

  /** The state of the purge between two pages: nothing beyond the cursor is gone, and everything passed if uuids are distinct. */
  ghost predicate Purging(s0: Store<Body>, s: Store<Body>, scope: Body -> bool, cursor: Option<string>, count: nat) {
    var keys := ScopeKeys(s0, scope);
    && PartlyPurged(s0, s, Passed(keys, cursor))
    && (DistinctKeys(keys) ==> Removed(s0, s, Passed(keys, cursor)) && count == |Passed(keys, cursor)|)
  }

  ghost predicate PurgedAll(s0: Store<Body>, s: Store<Body>, scope: Body -> bool, count: nat) {
    DistinctKeys(ScopeKeys(s0, scope)) ==> Removed(s0, s, ScopeIds(s0, scope)) && count == |ScopeIds(s0, scope)|
  }

  lemma PurgeStarts(s: Store<Body>, scope: Body -> bool)
    ensures Purging(s, s, scope, None, 0) && PartlyPurged(s, s, ScopeIds(s, scope))
  {
    assert Passed(ScopeKeys(s, scope), None) == {};
  }

  /** Beyond the cursor the index shows what is left of the scope, even if purged documents linger. */
  lemma PurgedInvisibly(s0: Store<Body>, s: Store<Body>, scope: Body -> bool, cursor: Option<string>, lingering: set<Id>)
    requires PartlyPurged(s0, s, Passed(ScopeKeys(s0, scope), cursor)) && lingering <= ScopeIds(s0, scope)
    ensures Beyond(Shown(s0, s, scope, lingering), cursor) == Beyond(ScopeKeys(s0, scope), cursor)
  {
    var keys, shown := ScopeKeys(s0, scope), Shown(s0, s, scope, lingering);
    assert forall id | id in shown :: id in keys && shown[id] == keys[id];
    forall id | id in Beyond(keys, cursor) ensures id in shown {
      assert id !in Passed(keys, cursor);
    }
  }

  /** The hits of a page are documents of the scope that are still there. */
  lemma PageInScope(s0: Store<Body>, s: Store<Body>, scope: Body -> bool, cursor: Option<string>, size: nat, hits: seq<Id>)
    requires IsPage(Beyond(ScopeKeys(s0, scope), cursor), size, hits)
    requires PartlyPurged(s0, s, Passed(ScopeKeys(s0, scope), cursor))
    ensures (forall id | id in hits :: id in s) && Members(hits) <= ScopeIds(s0, scope)
  {
    assert forall id | id in hits :: id in Beyond(ScopeKeys(s0, scope), cursor);
  }

  /** Whatever is gone lies behind the cursor's new place, and that is further up. */
  lemma PurgedBehind(s0: Store<Body>, s: Store<Body>, r: Store<Body>, scope: Body -> bool, cursor: Option<string>,
                     size: nat, hits: seq<Id>)
    requires IsPage(Beyond(ScopeKeys(s0, scope), cursor), size, hits) && hits != []
    requires PartlyPurged(s0, s, Passed(ScopeKeys(s0, scope), cursor)) && Removed(s, r, Members(hits))
    ensures hits[|hits| - 1] in ScopeIds(s0, scope)
    ensures var next := s0[hits[|hits| - 1]].doc.uuid;
      PartlyPurged(s0, r, Passed(ScopeKeys(s0, scope), Some(next))) && next in ValuesBeyond(SortValues(s0, scope), cursor)
  {
    var keys := ScopeKeys(s0, scope);
    PageStaysBehind(keys, cursor, size, hits);
    var next := Some(keys[hits[|hits| - 1]]);
    assert forall id | id in hits :: id in Beyond(keys, cursor);
    assert Passed(keys, cursor) <= Passed(keys, next) && Members(hits) <= Passed(keys, next);
    PartlyPurgedMore(s0, s, r, Passed(keys, cursor), Members(hits), Passed(keys, next));
  }

  /** Where uuids are distinct, a purged page takes the purge to its last hit, or to the end if it was short. */
  lemma PurgedExactly(s0: Store<Body>, s: Store<Body>, r: Store<Body>, scope: Body -> bool, cursor: Option<string>,
                      size: nat, hits: seq<Id>)
    requires IsPage(Beyond(ScopeKeys(s0, scope), cursor), size, hits) && size >= 1 && DistinctKeys(ScopeKeys(s0, scope))
    requires Removed(s0, s, Passed(ScopeKeys(s0, scope), cursor)) && Removed(s, r, Members(hits))
    ensures |hits| < size ==> PurgedAll(s0, r, scope, |Passed(ScopeKeys(s0, scope), cursor)| + |hits|)
    ensures |hits| >= size ==> hits[|hits| - 1] in ScopeIds(s0, scope)
    ensures |hits| >= size ==>
      var passed := Passed(ScopeKeys(s0, scope), Some(s0[hits[|hits| - 1]].doc.uuid));
      Removed(s0, r, passed) && |Passed(ScopeKeys(s0, scope), cursor)| + |hits| == |passed|
  {
    var keys := ScopeKeys(s0, scope);
    var passed := Passed(keys, cursor);
    if |hits| < size {
      ShortPagePassesAll(keys, cursor, size, hits);
      RemovedMore(s0, s, r, passed, Members(hits), passed + Members(hits));
    } else {
      PagePasses(keys, cursor, size, hits);
      RemovedMore(s0, s, r, passed, Members(hits), passed + Members(hits));
    }
  }

  /** What one page that was listed and purged, wholly or in part, does to the purge. */
  lemma PagePurged(s0: Store<Body>, s: Store<Body>, r: Store<Body>, scope: Body -> bool, lingering: set<Id>,
                   cursor: Option<string>, count: nat, size: nat, hits: seq<Id>, gone: set<Id>)
    requires Purging(s0, s, scope, cursor, count) && lingering <= ScopeIds(s0, scope) && size >= 1
    requires IsPage(Beyond(Shown(s0, s, scope, lingering), cursor), size, hits)
    requires Removed(s, r, gone) && gone <= Members(hits)
    ensures PartlyPurged(s0, r, ScopeIds(s0, scope))
    ensures gone == Members(hits) && |hits| < size ==> PurgedAll(s0, r, scope, count + |hits|)
    ensures gone == Members(hits) && |hits| >= size ==>
      && hits[|hits| - 1] in Shown(s0, s, scope, lingering)
      && var next := Shown(s0, s, scope, lingering)[hits[|hits| - 1]];
         Purging(s0, r, scope, Some(next), count + |hits|) && next in ValuesBeyond(SortValues(s0, scope), cursor)
  {
    var keys := ScopeKeys(s0, scope);
    PurgedInvisibly(s0, s, scope, cursor, lingering);
    PageInScope(s0, s, scope, cursor, size, hits);
    PartlyPurgedMore(s0, s, r, Passed(keys, cursor), gone, ScopeIds(s0, scope));
    if gone == Members(hits) {
      if |hits| >= size {
        assert hits[|hits| - 1] in Beyond(Shown(s0, s, scope, lingering), cursor);
        PurgedBehind(s0, s, r, scope, cursor, size, hits);
      }
      if DistinctKeys(keys) {
        PurgedExactly(s0, s, r, scope, cursor, size, hits);
      }
    }
  }

  class AossIndex {
    const dimension: Option<nat>
    const projectionEnabled: bool
    var created: bool
    var docs: Store<Body>

    constructor (dimension: Option<nat>, projectionEnabled: bool)
      ensures this.dimension == dimension && this.projectionEnabled == projectionEnabled
      ensures !created && docs == map[]
    {
      this.dimension, this.projectionEnabled := dimension, projectionEnabled;
      created, docs := false, map[];
    }

    /** `save_to_aoss`: the number of documents the index answered for, 0 if the batch was not accepted. */
    method SaveToAoss(data: seq<VersionedDocument>, net: Network) returns (count: nat)
      requires HonestNet(net)
      modifies this`docs
      ensures NeverLower(old(docs), docs) && count <= |data|
      ensures (exists i :: 0 <= i < |data| && !Fits(data[i].body, dimension)) ==> count == 0 && docs == old(docs)
      ensures (forall i | 0 <= i < |data| :: Fits(data[i].body, dimension)) ==>
        docs == BulkOver(old(docs), seq(|data|, i requires 0 <= i < |data| => Action(data[i])), net).store
      ensures data != [] ==>
        (count == |data| <==> AllConfirmed(net, |data|) && forall i | 0 <= i < |data| :: Fits(data[i].body, dimension))
      ensures data != [] && AllConfirmed(net, |data|) ==>
        (count == |data| <==> forall i | 0 <= i < |data| ::
          || dimension.None? || data[i].body.tombstone
          || (data[i].body.embedding.Vector? && |data[i].body.embedding.values| == dimension.value))
    {
      var toIndex: seq<Write<Body>>, versionedIds: set<Id> := [], {};
      for i := 0 to |data|
        invariant |toIndex| == i && forall j | 0 <= j < i :: toIndex[j] == Action(data[j]) && Fits(data[j].body, dimension)
        invariant forall j | 0 <= j < i :: toIndex[j].id in versionedIds
      {
        if !Fits(data[i].body, dimension) {
          return 0;
        }
        toIndex := toIndex + [Action(data[i])];
        versionedIds := versionedIds + {data[i].body.uuid};
      }
      assert toIndex == seq(|data|, i requires 0 <= i < |data| => Action(data[i]));
      var result := BulkOver(docs, toIndex, net);
      BulkOverIsDurable(docs, toIndex, net);
      docs := result.store;
      if net.crash.Some? {
        return 0;
      }
      BulkOverCounts(old(docs), toIndex, net, versionedIds);
      var superseded := CountConflicts(result.errors, versionedIds);
      return result.success + superseded;
    }

    /** The loop that sorts bulk errors into superseded writes and failures. */
    static method CountConflicts(errors: seq<BulkError>, ids: set<Id>) returns (superseded: nat)
      ensures superseded == Conflicts(errors, ids)
    {
      superseded := 0;
      for i := 0 to |errors|
        invariant superseded == Conflicts(errors[..i], ids)
      {
        assert errors[..i + 1][..i] == errors[..i];
        if IsVersionConflict(errors[i], ids) {
          superseded := superseded + 1;
        }
      }
      assert errors[..|errors|] == errors;
    }

    /** `save_vector_to_aoss`: write a required projection, durably, or raise. */
    method SaveVectorToAoss(data: seq<Document>, net: Network) returns (r: Result<nat, ProjectionError>)
      requires HonestNet(net)
      modifies this`docs
      ensures NeverLower(old(docs), docs)
      ensures data != [] && projectionEnabled ==>
        (r.Ok? <==>
          AllConfirmed(net, |data|) && Projectable(data, dimension))
      ensures r.Ok? ==> r.value == |data|
      ensures docs == if projectionEnabled then SaveEffect(old(docs), data, dimension, net) else old(docs)
      ensures r.Ok? && projectionEnabled ==> forall i | 0 <= i < |data| ::
        && HasGeneration(data[i]) && data[i].body.uuid in docs
        && docs[data[i].body.uuid].version >= ExternalVersion(data[i].generation.value).value
      ensures data == [] || !projectionEnabled ==> r == Ok(|data|)
      ensures data != [] && projectionEnabled && AllConfirmed(net, |data|) ==>
        (r == Ok(|data|) <==> forall i | 0 <= i < |data| ::
          && data[i].generation.Some?
          && 0 <= data[i].generation.value < 1_000_000_000_000_000
          && (|| dimension.None? || data[i].body.embedding.Missing?
              || (data[i].body.embedding.Vector? && |data[i].body.embedding.values| == dimension.value)))
      ensures data != [] && projectionEnabled ==>
        (r == Err(InvalidGeneration) <==> !forall i | 0 <= i < |data| ::
          data[i].generation.Some? && 0 <= data[i].generation.value < 1_000_000_000_000_000)
      ensures r.Err? ==> r == Err(InvalidGeneration) || r == Err(NotDurable)
      ensures r.Ok? && projectionEnabled && Quiet(net) ==> SavedOnly(old(docs), docs, data)
    {
      if data == [] {
        return Ok(0);
      }
      if !projectionEnabled {
        return Ok(|data|);
      }
      var versioned: seq<VersionedDocument> := [];
      for i := 0 to |data|
        invariant |versioned| == i && forall j | 0 <= j < i :: HasGeneration(data[j]) && versioned[j] == Projected(data[j])
      {
        if !HasGeneration(data[i]) {
          return Err(InvalidGeneration);
        }
        versioned := versioned + [Projected(data[i])];
      }
      var before := docs;
      var success := SaveToAoss(versioned, net);
      assert seq(|versioned|, i requires 0 <= i < |versioned| => Action(versioned[i])) == VectorActions(data);
      if success != |data| {
        return Err(NotDurable);
      }
      var ws := VectorActions(data);
      BulkOverIsDurable(before, ws, net);
      if Quiet(net) {
        ConfirmedSave(before, data, net);
      }
      assert forall i | 0 <= i < |data| :: ws[i].id == data[i].body.uuid && ws[i].version == Projected(data[i]).version;
      return Ok(success);
    }

    /** One request of `_delete_aoss_document_ids`. */
    method DeleteChunk(chunk: seq<Id>, versions: map<Id, int>, net: Network) returns (r: Result<nat, ProjectionError>)
      requires HonestNet(net)
      modifies this`docs
      ensures NeverLower(old(docs), docs)
      ensures r.Ok? <==> Deletable(chunk, versions) && AllConfirmed(net, |chunk|)
      ensures r == Err(NotDurable) <==> Deletable(chunk, versions) && !AllConfirmed(net, |chunk|)
      ensures r.Ok? ==> r.value == |chunk|
      ensures docs == ChunkEffect(old(docs), chunk, versions, net)
    {
      var actions: seq<Write<Body>>, versionedIds: set<Id> := [], {};
      for i := 0 to |chunk|
        invariant Deletable(chunk[..i], versions)
        invariant |actions| == i && forall j | 0 <= j < i :: actions[j] == Marker(chunk[j], versions[chunk[j]])
        invariant forall j | 0 <= j < i :: chunk[j] in versionedIds
      {
        assert forall j | 0 <= j < i :: chunk[..i][j] == chunk[j];
        if chunk[i] !in versions {
          return Err(MissingGeneration);
        }
        if ExternalVersion(versions[chunk[i]]).None? {
          return Err(InvalidGeneration);
        }
        actions := actions + [Marker(chunk[i], versions[chunk[i]])];
        versionedIds := versionedIds + {chunk[i]};
      }
      assert chunk[..|chunk|] == chunk;
      assert actions == Markers(chunk, versions);
      var result := BulkOver(docs, actions, net);
      BulkOverIsDurable(docs, actions, net);
      docs := result.store;
      if net.crash.Some? {
        return Err(NotDurable);
      }
      BulkOverCounts(old(docs), actions, net, versionedIds);
      ConflictsAtMost(result.errors, versionedIds);
      var superseded := CountConflicts(result.errors, versionedIds);
      if superseded < |result.errors| {
        return Err(NotDurable);
      }
      return Ok(result.success + superseded);
    }

    /** `_delete_aoss_document_ids`: tombstone the given ids, request by request. */
    method DeleteDocumentIds(ids: seq<Id>, versions: map<Id, int>, nets: nat -> Network, pageSize: nat)
      returns (r: Result<nat, ProjectionError>)
      requires pageSize >= 1 && HonestNets(nets)
      modifies this`docs
      ensures NeverLower(old(docs), docs)
      ensures !created ==> r.Ok? && docs == old(docs)
      ensures r.Ok? && Distinct(ids) ==> r.value == |ids|
      ensures r.Ok? && created ==> DeletedDurably(docs, ids, versions)
      ensures QuietNets(nets) && r.Ok? && created ==> Deleted(old(docs), docs, ids, versions)
      ensures QuietNets(nets) ==> OnlyWithin(old(docs), docs, ids)
      ensures r.Err? ==> Hindered(nets) || Unversioned(Members(ids), versions)
    {
      if ids == [] {
        return Ok(0);
      }
      if !created {
        if Distinct(ids) {
          SizeOfDistinct(ids);
        }
        return Ok(|Members(ids)|);
      }
      var deleted, start, k := 0, 0, 0;
      while start < |ids|
        invariant start <= |ids| && created == old(created)
        invariant NeverLower(old(docs), docs)
        invariant Distinct(ids) ==> deleted == start
        invariant DeletedDurably(docs, ids[..start], versions)
        invariant QuietNets(nets) ==> DeletedOnly(old(docs), docs, ids[..start], versions)
        decreases |ids| - start
      {
        var stop := if start + pageSize < |ids| then start + pageSize else |ids|;
        var chunk := FirstOccurrences(ids[start..stop]);
        var before := docs;
        var step := DeleteChunk(chunk, versions, nets(k));
        if QuietNets(nets) {
          ChunkQuiet(old(docs), before, docs, ids, start, stop, versions, nets(k), step.Ok?);
        }
        if step.Err? {
          ChunkFails(ids, start, stop, versions, nets(k));
          return step;
        }
        ChunkDurable(before, docs, ids, start, stop, versions, nets(k));
        if Distinct(ids) {
          FirstOccurrencesOfDistinct(ids[start..stop]);
        }
        deleted := deleted + step.value;
        start, k := stop, k + 1;
      }
      assert ids[..|ids|] == ids;
      return Ok(deleted);
    }

    /** One search page over whatever the index currently shows. */
    method Search(shown: Keys, cursor: Option<string>, size: nat) returns (hits: seq<Id>)
      ensures IsPage(Beyond(shown, cursor), size, hits)
    {
      ghost var page := PageExists(Beyond(shown, cursor), size);
      hits :| IsPage(Beyond(shown, cursor), size, hits);
    }

    /**
     One turn of `_delete_aoss_query`: list what the index shows beyond the cursor, tombstone it, and
     move the cursor behind the uuid of the last hit unless the page was short. The index may still
     show the `lingering` ids as they were when the deletion began, in `s0`.
     */
    method DeletePage(s0: Store<Body>, scope: Body -> bool, versions: map<Id, int>, nets: nat -> Network, down: bool,
                      lingering: set<Id>, cursor: Option<string>, pageSize: nat, ghost count: nat)
      returns (r: Result<nat, ProjectionError>, next: Option<string>)
      requires created && pageSize >= 1 && HonestNets(nets) && QuietNets(nets)
      requires Sweeping(s0, docs, scope, versions, cursor, count) && lingering <= ScopeIds(s0, scope)
      modifies this`docs
      ensures NeverLower(s0, docs) && Untouched(s0, docs, ScopeIds(s0, scope))
      ensures r.Ok? && next.Some? ==>
        && Sweeping(s0, docs, scope, versions, next, count + r.value)
        && next.value in ValuesBeyond(SortValues(s0, scope), cursor)
      ensures r.Ok? && next.None? ==>
        PartlyDeleted(s0, docs, ScopeIds(s0, scope)) && SweptAll(s0, docs, scope, versions, count + r.value)
      ensures r.Err? ==> down || Hindered(nets) || Unversioned(ScopeIds(s0, scope), versions)
    {
      next := None;
      if down {
        return Err(NotDurable), None;
      }
      var shown := Shown(s0, docs, scope, lingering);
      var hits := Search(shown, cursor, pageSize);
      r := DeleteDocumentIds(hits, versions, nets, pageSize);
      HitsInScope(s0, old(docs), docs, scope, versions, lingering, cursor, pageSize, hits);
      if r.Ok? {
        PageSwept(s0, old(docs), docs, scope, versions, lingering, cursor, count, pageSize, hits);
        if |hits| >= pageSize {
          next := Some(shown[hits[|hits| - 1]]);
        }
      }
    }

    /**
     `_delete_aoss_query`: page through every document in scope and tombstone it. On page `p` the
     index may still show the ids in `stale(p)` as they were when the deletion began, and the search
     itself fails when `down(p)`.
     */
    method DeleteQuery(scope: Body -> bool, versions: map<Id, int>, nets: nat -> nat -> Network,
                       stale: nat -> set<Id>, down: nat -> bool, pageSize: nat)
      returns (r: Result<nat, ProjectionError>)
      requires pageSize >= 1 && forall p: nat :: HonestNets(nets(p)) && QuietNets(nets(p))
      modifies this`docs
      ensures NeverLower(old(docs), docs)
      ensures !created ==> r == Ok(0) && docs == old(docs)
      ensures r.Ok? && created && Aligned(old(docs), scope) ==>
        r.value == |ScopeIds(old(docs), scope)| && Swept(old(docs), docs, ScopeIds(old(docs), scope), versions)
      ensures r.Ok? ==> PartlyDeleted(old(docs), docs, ScopeIds(old(docs), scope))
      ensures Untouched(old(docs), docs, ScopeIds(old(docs), scope))
      ensures r.Err? ==> (exists p: nat :: down(p) || Hindered(nets(p))) || Unversioned(ScopeIds(old(docs), scope), versions)
    {
      r := Ok(0);
      if created {
        r := DeletePages(scope, versions, nets, stale, down, pageSize);
      }
    }

    /** The paging loop of `_delete_aoss_query`. */
    method DeletePages(scope: Body -> bool, versions: map<Id, int>, nets: nat -> nat -> Network,
                       stale: nat -> set<Id>, down: nat -> bool, pageSize: nat)
      returns (r: Result<nat, ProjectionError>)
      requires created && pageSize >= 1 && forall p: nat :: HonestNets(nets(p)) && QuietNets(nets(p))
      modifies this`docs
      ensures NeverLower(old(docs), docs) && Untouched(old(docs), docs, ScopeIds(old(docs), scope))
      ensures r.Ok? ==>
        PartlyDeleted(old(docs), docs, ScopeIds(old(docs), scope)) && SweptAll(old(docs), docs, scope, versions, r.value)
      ensures r.Err? ==> (exists p: nat :: down(p) || Hindered(nets(p))) || Unversioned(ScopeIds(old(docs), scope), versions)
    {
      var s0 := docs;
      var cursor: Option<string>, deleted: nat, p: nat := None, 0, 0;
      assert Passed(ScopeKeys(s0, scope), cursor) == {};
      while true
        invariant created && Sweeping(s0, docs, scope, versions, cursor, deleted)
        decreases |ValuesBeyond(SortValues(s0, scope), cursor)|
      {
        var step, next := DeletePage(s0, scope, versions, nets(p), down(p), stale(p) * ScopeIds(s0, scope),
                                     cursor, pageSize, deleted);
        if step.Err? {
          return step;
        }
        deleted, p := deleted + step.value, p + 1;
        if next.None? {
          return Ok(deleted);
        }
        CursorMovesUp(SortValues(s0, scope), cursor, next.value);
        cursor := next;
      }
    }

    /** One bulk request of `_purge_aoss_query`. */
    method PurgeHits(hits: seq<Id>, net: Network) returns (r: Result<nat, ProjectionError>, ghost gone: set<Id>)
      requires Distinct(hits) && forall id | id in hits :: id in docs
      modifies this`docs
      ensures Removed(old(docs), docs, gone) && gone <= Members(hits)
      ensures r.Ok? ==> r.value == |hits| && gone == Members(hits)
      ensures r.Err? ==> Troubled(net)
    {
      var n := Attempted(net, |hits|);
      gone := PurgeBulkRemoves(docs, hits[..n], net);
      var result := PurgeBulk(docs, hits[..n], net);
      if !Troubled(net) {
        assert hits[..n] == hits;
        PurgeBulkSmooth(docs, hits, net);
      } else if net.crash.None? {
        assert hits[..n] == hits;
      }
      docs := result.0;
      r := if net.crash.Some? || result.1 < |hits| then Err(NotDurable) else Ok(result.1);
    }

    /** One turn of `_purge_aoss_query`. */
    method PurgePage(s0: Store<Body>, scope: Body -> bool, net: Network, lingering: set<Id>, cursor: Option<string>,
                     pageSize: nat, ghost count: nat)
      returns (r: Result<nat, ProjectionError>, next: Option<string>)
      requires pageSize >= 1 && Purging(s0, docs, scope, cursor, count) && lingering <= ScopeIds(s0, scope)
      modifies this`docs
      ensures PartlyPurged(s0, docs, ScopeIds(s0, scope))
      ensures r.Ok? && next.None? ==> PurgedAll(s0, docs, scope, count + r.value)
      ensures r.Ok? && next.Some? ==>
        && Purging(s0, docs, scope, next, count + r.value)
        && next.value in ValuesBeyond(SortValues(s0, scope), cursor)
      ensures r.Err? ==> Troubled(net)
    {
      next := None;
      var shown := Shown(s0, docs, scope, lingering);
      var hits := Search(shown, cursor, pageSize);
      PurgedInvisibly(s0, docs, scope, cursor, lingering);
      PageInScope(s0, docs, scope, cursor, pageSize, hits);
      if hits == [] {
        assert Members(hits) == {};
        PagePurged(s0, docs, docs, scope, lingering, cursor, count, pageSize, hits, {});
        return Ok(0), None;
      }
      ghost var gone;
      r, gone := PurgeHits(hits, net);
      PagePurged(s0, old(docs), docs, scope, lingering, cursor, count, pageSize, hits, gone);
      if r.Ok? && |hits| >= pageSize {
        next := Some(shown[hits[|hits| - 1]]);
      }
    }

    /** The paging loop of `_purge_aoss_query`. */
    method PurgePages(scope: Body -> bool, nets: nat -> Network, stale: nat -> set<Id>, down: nat -> bool, pageSize: nat)
      returns (r: Result<nat, ProjectionError>)
      requires created && pageSize >= 1
      modifies this`docs
      ensures r.Ok? ==> PurgedAll(old(docs), docs, scope, r.value)
      ensures PartlyPurged(old(docs), docs, ScopeIds(old(docs), scope))
      ensures r.Err? ==> exists p: nat :: down(p) || Troubled(nets(p))
    {
      var s0 := docs;
      var cursor: Option<string>, deleted: nat, p: nat := None, 0, 0;
      PurgeStarts(s0, scope);
      while !down(p)
        invariant Purging(s0, docs, scope, cursor, deleted) && PartlyPurged(s0, docs, ScopeIds(s0, scope))
        decreases |ValuesBeyond(SortValues(s0, scope), cursor)|
      {
        var step, next := PurgePage(s0, scope, nets(p), stale(p) * ScopeIds(s0, scope), cursor, pageSize, deleted);
        if step.Err? {
          return step;
        }
        deleted, p := deleted + step.value, p + 1;
        if next.None? {
          return Ok(deleted);
        }
        CursorMovesUp(SortValues(s0, scope), cursor, next.value);
        cursor := next;
      }
      return Err(NotDurable);
    }

    /** `_purge_aoss_query`: remove every document in scope for good while no one else writes. */
    method PurgeQuery(scope: Body -> bool, nets: nat -> Network, stale: nat -> set<Id>, down: nat -> bool, pageSize: nat)
      returns (r: Result<nat, ProjectionError>)
      requires pageSize >= 1
      modifies this`docs
      ensures !created ==> r == Ok(0) && docs == old(docs)
      ensures created && r.Ok? && DistinctKeys(ScopeKeys(old(docs), scope)) ==>
        docs == old(docs) - ScopeIds(old(docs), scope) && r.value == |ScopeIds(old(docs), scope)|
      ensures PartlyPurged(old(docs), docs, ScopeIds(old(docs), scope))
      ensures r.Err? ==> exists p: nat :: down(p) || Troubled(nets(p))
    {
      if created {
        ghost var before := docs;
        r := PurgePages(scope, nets, stale, down, pageSize);
        if r.Ok? && DistinctKeys(ScopeKeys(before, scope)) {
          RemovedIsDifference(before, docs, ScopeIds(before, scope));
        }
      } else {
        PurgeStarts(docs, scope);
        r := Ok(0);
      }
    }
  }

  /** What `DeleteChunk` does to the index, as a relation. */
  ghost predicate ChunkStep(s: Store<Body>, r: Store<Body>, chunk: seq<Id>, versions: map<Id, int>, net: Network, ok: bool) {
    && (ok <==> Deletable(chunk, versions) && AllConfirmed(net, |chunk|))
    && r == ChunkEffect(s, chunk, versions, net)
  }

  lemma PrefixMembers(ids: seq<Id>, start: nat, stop: nat)
    requires start <= stop <= |ids|
    ensures forall id :: id in ids[..stop] <==> id in ids[..start] || id in FirstOccurrences(ids[start..stop])
  {
    assert ids[..stop] == ids[..start] + ids[start..stop];
  }

  /** One more request extends the durably deleted prefix of `ids` from `start` to `stop`. */
  lemma ChunkDurable(s: Store<Body>, r: Store<Body>, ids: seq<Id>, start: nat, stop: nat,
                     versions: map<Id, int>, net: Network)
    requires start <= stop <= |ids| && DeletedDurably(s, ids[..start], versions)
    requires ChunkStep(s, r, FirstOccurrences(ids[start..stop]), versions, net, true)
    ensures DeletedDurably(r, ids[..stop], versions)
  {
    var chunk := FirstOccurrences(ids[start..stop]);
    var ws := Markers(chunk, versions);
    PrefixMembers(ids, start, stop);
    BulkOverIsDurable(s, ws, net);
    forall id | id in chunk
      ensures && id in versions && ExternalVersion(versions[id]).Some?
              && id in r && r[id].version >= ExternalVersion(versions[id]).value
    {
      var i :| 0 <= i < |chunk| && chunk[i] == id;
      assert ws[i].id == id;
    }
  }

  /** A request fails only for want of a generation or because of the network. */
  lemma ChunkFails(ids: seq<Id>, start: nat, stop: nat, versions: map<Id, int>, net: Network)
    requires start <= stop <= |ids|
    requires var chunk := FirstOccurrences(ids[start..stop]); !(Deletable(chunk, versions) && AllConfirmed(net, |chunk|))
    ensures Unconfirmed(net) || Unversioned(Members(ids), versions)
  {
    var chunk := FirstOccurrences(ids[start..stop]);
    PrefixMembers(ids, start, stop);
    if !Deletable(chunk, versions) {
      var i :| 0 <= i < |chunk| && (chunk[i] in versions ==> ExternalVersion(versions[chunk[i]]).None?);
      assert chunk[i] in chunk && chunk[i] in ids[..stop];
    }
  }

  lemma ChunkQuiet(s0: Store<Body>, s: Store<Body>, r: Store<Body>, ids: seq<Id>, start: nat, stop: nat,
                   versions: map<Id, int>, net: Network, ok: bool)
    requires start <= stop <= |ids| && Quiet(net) && DeletedOnly(s0, s, ids[..start], versions)
    requires ChunkStep(s, r, FirstOccurrences(ids[start..stop]), versions, net, ok)
    ensures ok ==> DeletedOnly(s0, r, ids[..stop], versions)
    ensures OnlyWithin(s0, r, ids)
  {
    var chunk := FirstOccurrences(ids[start..stop]);
    PrefixMembers(ids, start, stop);
    assert forall id | id in ids[..stop] :: id in ids;
    if Deletable(chunk, versions) {
      forall id ensures id !in chunk ==> SameEntry(r, s, id)
        ensures id in chunk && ok ==> SameEntry(r, Deliver(s, Marker(id, versions[id])), id)
      {
        ChunkEntry(s, chunk, versions, net, id);
      }
    }
  }
}
