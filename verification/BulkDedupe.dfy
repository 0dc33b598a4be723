/**
 How bulk ingestion shares out nodes and edges: each goes to the first episode that mentions it, nodes
 are replaced by what they were resolved to, and edge objects have their endpoints rewritten in place.
 */
module BulkDedupe {
  import opened Options
  import opened Collections

  type Id = string

  /** A node or an edge: its uuid and whatever else it carries. */
  datatype Item<T> = Item(uuid: Id, value: T)

  type ByEpisode<T> = map<Id, seq<Item<T>>>

  function Uuids<T>(items: seq<Item<T>>): set<Id> {
    set i | 0 <= i < |items| :: items[i].uuid
  }

  /** The items not seen before, each uuid once. */
  function Fresh<T>(items: seq<Item<T>>, seen: set<Id>): seq<Item<T>> {
    if items == [] then []
    else
      var n := |items| - 1;
      var before := Fresh(items[..n], seen);
      if items[n].uuid in seen || items[n].uuid in Uuids(items[..n]) then before else before + [items[n]]
  }

  /** Every uuid mentioned by the episodes of `order`. */
  function Seen<T>(order: seq<Id>, items: ByEpisode<T>): set<Id>
    requires forall e | e in order :: e in items
  {
    if order == [] then {}
    else
      assert order[|order| - 1] in order;
      assert forall e | e in order[..|order| - 1] :: e in order;
      Seen(order[..|order| - 1], items) + Uuids(items[order[|order| - 1]])
  }

  /** The share of each episode; an episode listed twice keeps only its last share. */
  function Shares<T>(order: seq<Id>, items: ByEpisode<T>): ByEpisode<T>
    requires forall e | e in order :: e in items
  {
    if order == [] then map[]
    else
      var n := |order| - 1;
      assert order[n] in order;
      assert forall e | e in order[..n] :: e in order;
      Shares(order[..n], items)[order[n] := Fresh(items[order[n]], Seen(order[..n], items))]
  }

  lemma {:induction false} FreshMembers<T>(items: seq<Item<T>>, seen: set<Id>)
    ensures Uuids(Fresh(items, seen)) == Uuids(items) - seen
    ensures forall i, j | 0 <= i < j < |Fresh(items, seen)| :: Fresh(items, seen)[i].uuid != Fresh(items, seen)[j].uuid
  {
    if items == [] {
    } else {
      var n := |items| - 1;
      var before, last := Fresh(items[..n], seen), items[n];
      FreshMembers(items[..n], seen);
      assert items == items[..n] + [last];
      UuidsAppend(items[..n], last);
      UuidsAppend(before, last);
      forall i | 0 <= i < |before| ensures before[i].uuid in Uuids(items[..n]) && before[i].uuid !in seen {
        assert before[i].uuid in Uuids(before);
      }
    }
  }

  /** Where a uuid is mentioned first. */
  function FirstIndex<T>(items: seq<Item<T>>, u: Id): (k: nat)
    requires u in Uuids(items)
    ensures k < |items| && items[k].uuid == u && forall j | 0 <= j < k :: items[j].uuid != u
  {
    var n := |items| - 1;
    UuidsAppend(items[..n], items[n]);
    assert items == items[..n] + [items[n]];
    if u in Uuids(items[..n]) then FirstIndex(items[..n], u) else n
  }

  /** A share consists of the first mentions themselves, in the order in which they were listed. */
  lemma {:induction false} FreshAreFirst<T>(items: seq<Item<T>>, seen: set<Id>)
    ensures forall i | 0 <= i < |Fresh(items, seen)| ::
      var u := Fresh(items, seen)[i].uuid; u in Uuids(items) && Fresh(items, seen)[i] == items[FirstIndex(items, u)]
    ensures forall i, j | 0 <= i < j < |Fresh(items, seen)| ::
      FirstIndex(items, Fresh(items, seen)[i].uuid) < FirstIndex(items, Fresh(items, seen)[j].uuid)
  {
    if items == [] {
    } else {
      var n := |items| - 1;
      FreshAreFirst(items[..n], seen);
      FreshMembers(items[..n], seen);
      UuidsAppend(items[..n], items[n]);
      assert items == items[..n] + [items[n]];
    }
  }

  lemma UuidsAppend<T>(items: seq<Item<T>>, x: Item<T>)
    ensures Uuids(items + [x]) == Uuids(items) + {x.uuid}
  {
    var all := items + [x];
    forall u ensures u in Uuids(all) <==> u in Uuids(items) + {x.uuid} {
      if u in Uuids(items) {
        var i :| 0 <= i < |items| && items[i].uuid == u;
        assert all[i].uuid == u;
      }
      if u == x.uuid {
        assert all[|items|].uuid == u;
      }
    }
  }

  lemma {:induction false} SeenMembers<T>(order: seq<Id>, items: ByEpisode<T>, u: Id)
    requires forall e | e in order :: e in items
    ensures u in Seen(order, items) <==> exists k :: 0 <= k < |order| && order[k] in items && u in Uuids(items[order[k]])
  {
    if order == [] {
    } else {
      var n := |order| - 1;
      assert order[n] in order;
      assert forall e | e in order[..n] :: e in order;
      SeenMembers(order[..n], items, u);
      if k :| 0 <= k < n && order[..n][k] in items && u in Uuids(items[order[..n][k]]) {
        assert order[k] == order[..n][k];
      }
      if k :| 0 <= k < |order| && order[k] in items && u in Uuids(items[order[k]]) {
        assert k < n ==> order[..n][k] == order[k];
      }
    }
  }

  /** Position `k` is where its episode is listed for the last time. */
  predicate LastListing(order: seq<Id>, k: int) {
    0 <= k < |order| && forall l | k < l < |order| :: order[l] != order[k]
  }

  lemma PrefixListed<T>(order: seq<Id>, items: ByEpisode<T>, k: nat)
    requires k <= |order| && forall e | e in order :: e in items
    ensures forall e | e in order[..k] :: e in items
  {
  }

  /** An episode's share is what its last listing added to everything mentioned before. */
  lemma {:induction false} ShareOfLastListing<T>(order: seq<Id>, items: ByEpisode<T>, k: nat)
    requires (forall e | e in order :: e in items) && LastListing(order, k)
    ensures order[k] in items && (forall e | e in order[..k] :: e in items)
    ensures order[k] in Shares(order, items)
    ensures Shares(order, items)[order[k]] == Fresh(items[order[k]], Seen(order[..k], items))
  {
    var n := |order| - 1;
    assert order[k] in order && order[n] in order;
    PrefixListed(order, items, k);
    PrefixListed(order, items, n);
    if k < n {
      assert order[..n][..k] == order[..k] && order[..n][k] == order[k];
      assert order[n] != order[k];
      ShareOfLastListing(order[..n], items, k);
    }
  }

  lemma SomeLastListing(order: seq<Id>, e: Id) returns (k: nat)
    requires e in order
    ensures LastListing(order, k) && order[k] == e
  {
    k := |order| - 1;
    while order[k] != e
      invariant k < |order| && forall l | k < l < |order| :: order[l] != e
      decreases k
    {
      assert k == 0 ==> forall l | 0 <= l < |order| :: order[l] != e;
      k := k - 1;
    }
  }

  lemma {:induction false} SharesKeys<T>(order: seq<Id>, items: ByEpisode<T>)
    requires forall e | e in order :: e in items
    ensures forall e :: e in Shares(order, items) <==> e in order
  {
    if order == [] {
    } else {
      var n := |order| - 1;
      assert order == order[..n] + [order[n]];
      assert forall e | e in order[..n] :: e in order;
      SharesKeys(order[..n], items);
    }
  }

  /** `u` ends up in the share of the episode listed at `k`. */
  ghost predicate SharedAt<T>(order: seq<Id>, items: ByEpisode<T>, k: int, u: Id)
    requires forall e | e in order :: e in items
  {
    LastListing(order, k) && order[k] in Shares(order, items) && u in Uuids(Shares(order, items)[order[k]])
  }

  /** `u` is mentioned at `k` and by no listing before it. */
  ghost predicate FirstMentionedAt<T>(order: seq<Id>, items: ByEpisode<T>, k: int, u: Id) {
    && 0 <= k < |order| && (forall e | e in order :: e in items)
    && order[k] in items && u in Uuids(items[order[k]])
    && (forall e | e in order[..k] :: e in items)
    && u !in Seen(order[..k], items)
  }

  lemma SharedWhereFirstMentioned<T>(order: seq<Id>, items: ByEpisode<T>, k: int, u: Id)
    requires (forall e | e in order :: e in items) && LastListing(order, k)
    ensures SharedAt(order, items, k, u) <==> FirstMentionedAt(order, items, k, u)
  {
    ShareOfLastListing(order, items, k);
    FreshMembers(items[order[k]], Seen(order[..k], items));
  }

  lemma {:induction false} SomeFirstMention<T>(order: seq<Id>, items: ByEpisode<T>, u: Id) returns (k: nat)
    requires (forall e | e in order :: e in items) && u in Seen(order, items)
    ensures FirstMentionedAt(order, items, k, u)
  {
    var n := |order| - 1;
    assert order[n] in order;
    assert forall e | e in order[..n] :: e in order;
    if u in Seen(order[..n], items) {
      k := SomeFirstMention(order[..n], items, u);
      assert order[..n][..k] == order[..k] && order[..n][k] == order[k];
    } else {
      k := n;
    }
  }

  lemma FirstMentionIsUnique<T>(order: seq<Id>, items: ByEpisode<T>, j: int, k: int, u: Id)
    requires FirstMentionedAt(order, items, j, u) && FirstMentionedAt(order, items, k, u)
    ensures j == k
  {
    if j < k {
      SeenMembers(order[..k], items, u);
    } else if k < j {
      SeenMembers(order[..j], items, u);
    }
  }

  /** Nothing mentioned is lost. */
  ghost predicate Covers<T>(order: seq<Id>, items: ByEpisode<T>)
    requires forall e | e in order :: e in items
  {
    forall u | u in Seen(order, items) :: exists k :: SharedAt(order, items, k, u)
  }

  /** An episode listed again later brings nothing new where it is listed first. */
  ghost predicate RepeatsBringNothing<T>(order: seq<Id>, items: ByEpisode<T>)
    requires forall e | e in order :: e in items
  {
    forall k, u | FirstMentionedAt(order, items, k, u) :: LastListing(order, k)
  }

  /**
   Sharing out loses nothing exactly if no repeated episode mentions something first; an item is never
   shared twice, and always with the episode that mentions it first. Distinct episodes are the usual case.
   */
  lemma SharesArePartition<T>(order: seq<Id>, items: ByEpisode<T>)
    requires forall e | e in order :: e in items
    ensures Covers(order, items) <==> RepeatsBringNothing(order, items)
    ensures forall j, k, u | SharedAt(order, items, j, u) && SharedAt(order, items, k, u) :: j == k
    ensures forall k, u | SharedAt(order, items, k, u) :: FirstMentionedAt(order, items, k, u)
    ensures (forall i, j | 0 <= i < j < |order| :: order[i] != order[j]) ==> Covers(order, items)
  {
    forall k, u | SharedAt(order, items, k, u) ensures FirstMentionedAt(order, items, k, u) {
      SharedWhereFirstMentioned(order, items, k, u);
    }
    forall j, k, u | SharedAt(order, items, j, u) && SharedAt(order, items, k, u) ensures j == k {
      FirstMentionIsUnique(order, items, j, k, u);
    }
    if RepeatsBringNothing(order, items) {
      forall u | u in Seen(order, items) ensures exists k :: SharedAt(order, items, k, u) {
        var k := SomeFirstMention(order, items, u);
        SharedWhereFirstMentioned(order, items, k, u);
      }
    }
    if Covers(order, items) {
      forall k, u | FirstMentionedAt(order, items, k, u) ensures LastListing(order, k) {
        SeenMembers(order, items, u);
        var j :| SharedAt(order, items, j, u);
        FirstMentionIsUnique(order, items, j, k, u);
      }
    }
  }

  /** The shares themselves repeat no uuid. */
  lemma ShareHasNoRepeats<T>(order: seq<Id>, items: ByEpisode<T>, e: Id)
    requires (forall f | f in order :: f in items) && e in order
    ensures e in Shares(order, items)
    ensures var share := Shares(order, items)[e]; forall i, j | 0 <= i < j < |share| :: share[i].uuid != share[j].uuid
  {
    var k := SomeLastListing(order, e);
    ShareOfLastListing(order, items, k);
    FreshMembers(items[e], Seen(order[..k], items));
  }

  // ---- The loops ----

  /** The loop over one episode's items. */
  method TakeUnseen<T>(items: seq<Item<T>>, seen: set<Id>) returns (share: seq<Item<T>>, seen': set<Id>)
    ensures share == Fresh(items, seen) && seen' == seen + Uuids(items)
  {
    share, seen' := [], seen;
    for i := 0 to |items|
      invariant share == Fresh(items[..i], seen) && seen' == seen + Uuids(items[..i])
    {
      assert items[..i + 1] == items[..i] + [items[i]];
      UuidsAppend(items[..i], items[i]);
      if items[i].uuid !in seen' {
        share := share + [items[i]];
        seen' := seen' + {items[i].uuid};
      }
    }
    assert items[..|items|] == items;
  }

  // ---- Nodes ----

  type UuidMap = map<Id, Id>

  function Target(uuidMap: UuidMap, u: Id): Id {
    if u in uuidMap then uuidMap[u] else u
  }

  /** What `nodes_by_uuid` holds once the resolved nodes have been entered. */
  function Enter<T>(known: map<Id, Item<T>>, resolved: seq<Item<T>>): (r: map<Id, Item<T>>)
    ensures forall u :: u in r <==> u in known || u in Uuids(resolved)
  {
    if resolved == [] then known
    else
      var n := |resolved| - 1;
      UuidsAppend(resolved[..n], resolved[n]);
      assert resolved == resolved[..n] + [resolved[n]];
      Enter(known, resolved[..n])[resolved[n].uuid := resolved[n]]
  }

  predicate LastWith<T>(items: seq<Item<T>>, k: int, u: Id) {
    0 <= k < |items| && items[k].uuid == u && u !in Uuids(items[k + 1..])
  }

  /** Of several nodes with one uuid the last stands for it; a uuid not entered keeps its node. */
  lemma {:induction false} EnterLastWins<T>(known: map<Id, Item<T>>, resolved: seq<Item<T>>, u: Id)
    ensures u !in Uuids(resolved) && u in known ==> Enter(known, resolved)[u] == known[u]
    ensures u in Uuids(resolved) ==> exists k :: LastWith(resolved, k, u) && Enter(known, resolved)[u] == resolved[k]
  {
    if resolved == [] {
    } else {
      var n := |resolved| - 1;
      UuidsAppend(resolved[..n], resolved[n]);
      assert resolved == resolved[..n] + [resolved[n]];
      EnterLastWins(known, resolved[..n], u);
      if resolved[n].uuid == u {
        assert resolved[n + 1..] == [] && LastWith(resolved, n, u);
      } else if u in Uuids(resolved) {
        var k :| LastWith(resolved[..n], k, u) && Enter(known, resolved[..n])[u] == resolved[..n][k];
        LastWithAppend(resolved[..n], k, u, resolved[n]);
        assert LastWith(resolved, k, u);
      }
    }
  }

  lemma LastWithAppend<T>(items: seq<Item<T>>, k: int, u: Id, x: Item<T>)
    requires LastWith(items, k, u) && x.uuid != u
    ensures LastWith(items + [x], k, u)
  {
    assert (items + [x])[k + 1..] == items[k + 1..] + [x];
    UuidsAppend(items[k + 1..], x);
  }

  lemma {:induction false} EnterAppend<T>(known: map<Id, Item<T>>, p: seq<Item<T>>, q: seq<Item<T>>)
    ensures Enter(known, p + q) == Enter(Enter(known, p), q)
    decreases |q|
  {
    if q == [] {
      assert p + q == p;
    } else {
      var n := |q| - 1;
      EnterAppend(known, p, q[..n]);
      assert (p + q)[..|p + q| - 1] == p + q[..n];
    }
  }

  /** Everything the episodes of `order` list, one after the other. */
  function Listed<T>(order: seq<Id>, items: ByEpisode<T>): seq<Item<T>>
    requires forall e | e in order :: e in items
  {
    if order == [] then []
    else
      assert order[|order| - 1] in order;
      assert forall e | e in order[..|order| - 1] :: e in order;
      Listed(order[..|order| - 1], items) + items[order[|order| - 1]]
  }

  /** Each node is filed under its own uuid. */
  predicate Keyed<T>(known: map<Id, Item<T>>) {
    forall u | u in known :: known[u].uuid == u
  }

  lemma {:induction false} EnterKeepsKeyed<T>(known: map<Id, Item<T>>, resolved: seq<Item<T>>)
    requires Keyed(known)
    ensures Keyed(Enter(known, resolved))
  {
    if resolved == [] {
    } else {
      EnterKeepsKeyed(known, resolved[..|resolved| - 1]);
    }
  }

  lemma {:induction false} ListedUuids<T>(order: seq<Id>, items: ByEpisode<T>, e: Id)
    requires (forall e | e in order :: e in items) && e in order
    ensures Uuids(items[e]) <= Uuids(Listed(order, items))
  {
    var n := |order| - 1;
    assert order[n] in order;
    assert forall e | e in order[..n] :: e in order;
    var before, last := Listed(order[..n], items), items[order[n]];
    assert forall i | 0 <= i < |before| :: (before + last)[i] == before[i];
    assert forall i | 0 <= i < |last| :: (before + last)[|before| + i] == last[i];
    if e != order[n] {
      ListedUuids(order[..n], items, e);
    }
  }

  /** The node that stands for its uuid. */
  function Canonical<T>(items: seq<Item<T>>, known: map<Id, Item<T>>): (r: seq<Item<T>>)
    ensures |r| == |items|
    ensures forall i | 0 <= i < |items| :: r[i] == if items[i].uuid in known then known[items[i].uuid] else items[i]
  {
    seq(|items|, i requires 0 <= i < |items| => if items[i].uuid in known then known[items[i].uuid] else items[i])
  }

  function CanonicalAll<T>(items: ByEpisode<T>, known: map<Id, Item<T>>): ByEpisode<T> {
    map e | e in items :: Canonical(items[e], known)
  }

  /** Looking nodes up changes no mention. */
  lemma {:induction false} CanonicalKeepsMentions<T>(order: seq<Id>, items: ByEpisode<T>, known: map<Id, Item<T>>)
    requires (forall e | e in order :: e in items) && Keyed(known)
    ensures forall e | e in items :: Uuids(CanonicalAll(items, known)[e]) == Uuids(items[e])
    ensures Seen(order, CanonicalAll(items, known)) == Seen(order, items)
  {
    forall e | e in items ensures Uuids(CanonicalAll(items, known)[e]) == Uuids(items[e]) {
      assert forall i | 0 <= i < |items[e]| :: CanonicalAll(items, known)[e][i].uuid == items[e][i].uuid;
    }
    if order != [] {
      assert order[|order| - 1] in order;
      assert forall e | e in order[..|order| - 1] :: e in order;
      CanonicalKeepsMentions(order[..|order| - 1], items, known);
    }
  }

  /** Looking nodes up changes nobody's share. */
  lemma CanonicalKeepsPlaces<T>(order: seq<Id>, items: ByEpisode<T>, known: map<Id, Item<T>>, k: int, u: Id)
    requires (forall e | e in order :: e in items) && Keyed(known)
    ensures SharedAt(order, CanonicalAll(items, known), k, u) <==> SharedAt(order, items, k, u)
  {
    if LastListing(order, k) {
      SharedWhereFirstMentioned(order, items, k, u);
      SharedWhereFirstMentioned(order, CanonicalAll(items, known), k, u);
      assert order[k] in order;
      assert forall e | e in order[..k] :: e in order;
      CanonicalKeepsMentions(order[..k], items, known);
    }
  }

  /** Every node that is shared out is the one filed under its uuid. */
  lemma SharedAreCanonical<T>(order: seq<Id>, items: ByEpisode<T>, known: map<Id, Item<T>>, e: Id)
    requires (forall f | f in order :: f in items) && Keyed(known) && e in order && Uuids(items[e]) <= known.Keys
    ensures e in Shares(order, CanonicalAll(items, known))
    ensures forall x | x in Shares(order, CanonicalAll(items, known))[e] :: x.uuid in known && x == known[x.uuid]
  {
    var canonical := CanonicalAll(items, known);
    var k := SomeLastListing(order, e);
    ShareOfLastListing(order, canonical, k);
    FreshAreFirst(canonical[e], Seen(order[..k], canonical));
    forall i | 0 <= i < |items[e]| ensures canonical[e][i] == known[items[e][i].uuid] {
      assert items[e][i].uuid in Uuids(items[e]);
    }
  }

  /** Entering nodes under their uuids, a later one replacing an earlier one. */
  method EnterAll<T>(known: map<Id, Item<T>>, nodes: seq<Item<T>>) returns (r: map<Id, Item<T>>)
    ensures r == Enter(known, nodes)
  {
    r := known;
    for i := 0 to |nodes|
      invariant r == Enter(known, nodes[..i])
    {
      assert nodes[..i + 1][..i] == nodes[..i];
      r := r[nodes[i].uuid := nodes[i]];
    }
    assert nodes[..|nodes|] == nodes;
  }

  /** `nodes_by_uuid` over all extracted nodes, `all` being the dictionary's key order. */
  method IndexNodes<T>(all: seq<Id>, items: ByEpisode<T>) returns (known: map<Id, Item<T>>)
    requires forall e | e in all :: e in items
    ensures known == Enter(map[], Listed(all, items)) && Keyed(known)
  {
    known := map[];
    EnterKeepsKeyed<T>(map[], Listed(all, items));
    for i := 0 to |all|
      invariant forall e | e in all[..i] :: e in items
      invariant known == Enter(map[], Listed(all[..i], items))
    {
      assert all[i] in all;
      assert all[..i + 1] == all[..i] + [all[i]];
      assert all[..i + 1][..i] == all[..i];
      EnterAppend(map[], Listed(all[..i], items), items[all[i]]);
      known := EnterAll(known, items[all[i]]);
    }
    assert all[..|all|] == all;
  }

  /** `[nodes_by_uuid[node.uuid] for node in nodes]`. */
  method LookUp<T>(nodes: seq<Item<T>>, known: map<Id, Item<T>>) returns (r: seq<Item<T>>)
    requires Uuids(nodes) <= known.Keys
    ensures r == Canonical(nodes, known)
  {
    r := [];
    for i := 0 to |nodes|
      invariant |r| == i && forall j | 0 <= j < i :: r[j] == Canonical(nodes, known)[j]
    {
      assert nodes[i].uuid in Uuids(nodes);
      r := r + [known[nodes[i].uuid]];
    }
  }

  /** The first loop of `_resolve_nodes_and_edges_bulk`: no lookup misses, and every node goes to its first episode. */
  method ShareNodes<T>(all: seq<Id>, order: seq<Id>, items: ByEpisode<T>)
    returns (known: map<Id, Item<T>>, shares: ByEpisode<T>)
    requires (forall e :: e in all <==> e in items) && forall e | e in order :: e in items
    ensures Keyed(known) && known == Enter(map[], Listed(all, items))
    ensures shares == Shares(order, CanonicalAll(items, known))
    ensures forall e, x | e in order && e in shares && x in shares[e] :: x.uuid in known && x == known[x.uuid]
  {
    known := IndexNodes(all, items);
    ghost var canonical := CanonicalAll(items, known);
    shares := map[];
    var seen: set<Id> := {};
    for i := 0 to |order|
      invariant forall e | e in order[..i] :: e in items
      invariant shares == Shares(order[..i], canonical) && seen == Seen(order[..i], canonical)
    {
      NextListing(order, canonical, i);
      PrefixListed(order, items, i + 1);
      ListedUuids(all, items, order[i]);
      var nodes := LookUp(items[order[i]], known);
      var share, seen' := TakeUnseen(nodes, seen);
      shares := shares[order[i] := share];
      seen := seen';
    }
    assert order[..|order|] == order;
    forall e | e in order ensures e in shares && forall x | x in shares[e] :: x.uuid in known && x == known[x.uuid] {
      ListedUuids(all, items, e);
      SharedAreCanonical(order, items, known, e);
    }
  }

  /** The loop that replaces each node by the one it was resolved to; `None` stands for a missing key. */
  method UpdateNodes<T>(nodes: seq<Item<T>>, uuidMap: UuidMap, nodesByUuid: map<Id, Item<T>>) returns (updated: Option<seq<Item<T>>>)
    ensures updated.Some? <==> forall i | 0 <= i < |nodes| :: Target(uuidMap, nodes[i].uuid) in nodesByUuid
    ensures updated.Some? ==> |updated.value| == |nodes|
    ensures updated.Some? ==> forall i | 0 <= i < |nodes| ::
      updated.value[i] == nodesByUuid[Target(uuidMap, nodes[i].uuid)]
  {
    var acc: seq<Item<T>> := [];
    for i := 0 to |nodes|
      invariant |acc| == i
      invariant forall j | 0 <= j < i :: Target(uuidMap, nodes[j].uuid) in nodesByUuid
      invariant forall j | 0 <= j < i :: acc[j] == nodesByUuid[Target(uuidMap, nodes[j].uuid)]
    {
      var t := Target(uuidMap, nodes[i].uuid);
      if t !in nodesByUuid {
        return None;
      }
      acc := acc + [nodesByUuid[t]];
    }
    return Some(acc);
  }

  /** If the resolver maps only to nodes it returns, no lookup of a shared node ever misses its key. */
  lemma NoLookupMisses<T>(all: seq<Id>, order: seq<Id>, items: ByEpisode<T>, known: map<Id, Item<T>>,
                          resolved: seq<Item<T>>, uuidMap: UuidMap, e: Id, i: nat)
    requires (forall f :: f in all <==> f in items) && (forall f | f in order :: f in items) && e in order
    requires known == Enter(map[], Listed(all, items)) && Keyed(known)
    requires forall u | u in uuidMap :: uuidMap[u] in Uuids(resolved)
    requires e in Shares(order, CanonicalAll(items, known)) && i < |Shares(order, CanonicalAll(items, known))[e]|
    ensures Target(uuidMap, Shares(order, CanonicalAll(items, known))[e][i].uuid) in Enter(known, resolved)
  {
    var u := Shares(order, CanonicalAll(items, known))[e][i].uuid;
    var k := SomeLastListing(order, e);
    assert SharedAt(order, CanonicalAll(items, known), k, u);
    CanonicalKeepsPlaces(order, items, known, k, u);
    SharedWhereFirstMentioned(order, items, k, u);
    ListedUuids(all, items, order[k]);
  }

  // ---- Edges ----

  /** The endpoints of an edge object; its uuid never changes. */
  class Edge {
    var source: Id
    var target: Id

    constructor (source: Id, target: Id)
      ensures this.source == source && this.target == target
    {
      this.source, this.target := source, target;
    }
  }

  /** An endpoint after `n` rewritings. */
  function Rewritten(uuidMap: UuidMap, n: nat, u: Id): Id {
    if n == 0 then u else Target(uuidMap, Rewritten(uuidMap, n - 1, u))
  }

  /** How often an edge object is listed. */
  function Times(edges: seq<Item<Edge>>, e: Edge): nat {
    if edges == [] then 0
    else Times(edges[..|edges| - 1], e) + (if edges[|edges| - 1].value == e then 1 else 0)
  }

  lemma TimesNext(edges: seq<Item<Edge>>, i: nat, e: Edge)
    requires i < |edges|
    ensures Times(edges[..i + 1], e) == Times(edges[..i], e) + (if edges[i].value == e then 1 else 0)
  {
    assert edges[..i + 1][..i] == edges[..i];
  }

  lemma {:induction false} TimesAppend(p: seq<Item<Edge>>, q: seq<Item<Edge>>, e: Edge)
    ensures Times(p + q, e) == Times(p, e) + Times(q, e)
    decreases |q|
  {
    if q == [] {
      assert p + q == p;
    } else {
      TimesAppend(p, q[..|q| - 1], e);
      assert (p + q)[..|p + q| - 1] == p + q[..|q| - 1];
    }
  }

  lemma {:induction false} TimesPositive(edges: seq<Item<Edge>>, e: Edge)
    ensures Times(edges, e) >= 1 <==> e in Objects(edges)
  {
    if edges == [] {
    } else {
      var n := |edges| - 1;
      TimesPositive(edges[..n], e);
      assert edges == edges[..n] + [edges[n]];
      assert Objects(edges) == Objects(edges[..n]) + {edges[n].value};
    }
  }

  lemma {:induction false} RewrittenAgain(uuidMap: UuidMap, m: nat, n: nat, u: Id)
    ensures Rewritten(uuidMap, n, Rewritten(uuidMap, m, u)) == Rewritten(uuidMap, m + n, u)
    decreases n
  {
    if n == 0 {
    } else {
      RewrittenAgain(uuidMap, m, n - 1, u);
    }
  }

  /** No uuid is mapped to one that is mapped on to a third. */
  predicate Settled(uuidMap: UuidMap) {
    forall u | u in uuidMap && uuidMap[u] in uuidMap :: uuidMap[uuidMap[u]] == uuidMap[u]
  }

  lemma {:induction false} RewrittenOnce(uuidMap: UuidMap, n: nat, u: Id)
    requires Settled(uuidMap) && n >= 1
    ensures Rewritten(uuidMap, n, u) == Target(uuidMap, u)
  {
    if n == 1 {
      assert Rewritten(uuidMap, 0, u) == u;
    } else {
      RewrittenOnce(uuidMap, n - 1, u);
    }
  }

  /** Rewriting an edge again for another episode is harmless exactly if the resolver's map is settled. */
  lemma RepeatedRewritingIsHarmlessIffSettled(uuidMap: UuidMap)
    ensures (forall n: nat, u | n >= 1 :: Rewritten(uuidMap, n, u) == Target(uuidMap, u)) <==> Settled(uuidMap)
  {
    if Settled(uuidMap) {
      forall n: nat, u | n >= 1 ensures Rewritten(uuidMap, n, u) == Target(uuidMap, u) {
        RewrittenOnce(uuidMap, n, u);
      }
    } else {
      var u :| u in uuidMap && uuidMap[u] in uuidMap && uuidMap[uuidMap[u]] != uuidMap[u];
      assert Rewritten(uuidMap, 0, u) == u;
      assert Rewritten(uuidMap, 1, u) == uuidMap[u];
      assert Rewritten(uuidMap, 2, u) != Target(uuidMap, u);
    }
  }

  /** It can matter: with a map that sends "a" to "b" and "b" to "c", listing an edge twice moves its end from "b" to "c". */
  lemma UnsettledMapMovesTwice()
    ensures var uuidMap := map["a" := "b", "b" := "c"];
      !Settled(uuidMap) && Rewritten(uuidMap, 1, "a") == "b" && Rewritten(uuidMap, 2, "a") == "c"
  {
    var uuidMap: UuidMap := map["a" := "b", "b" := "c"];
    assert "a" in uuidMap && uuidMap["a"] in uuidMap && uuidMap[uuidMap["a"]] != uuidMap["a"];
    assert Rewritten(uuidMap, 0, "a") == "a";
    assert Rewritten(uuidMap, 1, "a") == "b";
  }

  ghost function Objects(edges: seq<Item<Edge>>): set<Edge> {
    set i | 0 <= i < |edges| :: edges[i].value
  }

  /** Where every listed edge points once the loops are done, however often it is listed. */
  lemma ListedEdgesPointToTargets(uuidMap: UuidMap, listed: seq<Item<Edge>>, e: Edge, u: Id)
    requires Settled(uuidMap)
    ensures Rewritten(uuidMap, Times(listed, e), u) == if e in Objects(listed) then Target(uuidMap, u) else u
  {
    TimesPositive(listed, e);
    if e in Objects(listed) {
      RewrittenOnce(uuidMap, Times(listed, e), u);
    }
  }

  /** `resolve_edge_pointers`: rewrites the edge objects in place, once for each time they are listed. */
  method ResolveEdgePointers(edges: seq<Item<Edge>>, uuidMap: UuidMap)
    modifies Objects(edges)
    ensures forall e | e in Objects(edges) :: e.source == Rewritten(uuidMap, Times(edges, e), old(e.source))
    ensures forall e | e in Objects(edges) :: e.target == Rewritten(uuidMap, Times(edges, e), old(e.target))
  {
    ghost var all := Objects(edges);
    for i := 0 to |edges|
      invariant forall e | e in all :: e.source == Rewritten(uuidMap, Times(edges[..i], e), old(e.source))
      invariant forall e | e in all :: e.target == Rewritten(uuidMap, Times(edges[..i], e), old(e.target))
    {
      var edge := edges[i].value;
      assert edge in all;
      label before:
      edge.source := Target(uuidMap, edge.source);
      edge.target := Target(uuidMap, edge.target);
      forall e | e in all
        ensures e.source == Rewritten(uuidMap, Times(edges[..i + 1], e), old(e.source))
        ensures e.target == Rewritten(uuidMap, Times(edges[..i + 1], e), old(e.target))
      {
        TimesNext(edges, i, e);
        assert e != edge ==> e.source == old@before(e.source) && e.target == old@before(e.target);
      }
    }
    assert edges[..|edges|] == edges;
  }

  /** Two batches of rewritings add up. */
  lemma RewrittenTogether(uuidMap: UuidMap, p: seq<Item<Edge>>, q: seq<Item<Edge>>, e: Edge, u: Id, v: Id, w: Id)
    requires v == Rewritten(uuidMap, Times(p, e), u)
    requires if e in Objects(q) then w == Rewritten(uuidMap, Times(q, e), v) else w == v
    ensures w == Rewritten(uuidMap, Times(p + q, e), u)
  {
    TimesAppend(p, q, e);
    TimesPositive(q, e);
    RewrittenAgain(uuidMap, Times(p, e), Times(q, e), u);
  }

  /** Every edge in `all` has been rewritten once for each time it is in `listed`, starting from `sources` and `targets`. */
  ghost predicate RewrittenAsListed(all: set<Edge>, listed: seq<Item<Edge>>, uuidMap: UuidMap,
                                    sources: map<Edge, Id>, targets: map<Edge, Id>)
    reads all
  {
    forall e | e in all ::
      && e in sources && e.source == Rewritten(uuidMap, Times(listed, e), sources[e])
      && e in targets && e.target == Rewritten(uuidMap, Times(listed, e), targets[e])
  }

  /** Rewriting one more episode's edges. */
  method RewriteMore(ghost all: set<Edge>, ghost listed: seq<Item<Edge>>, edges: seq<Item<Edge>>, uuidMap: UuidMap,
                     ghost sources: map<Edge, Id>, ghost targets: map<Edge, Id>)
    requires Objects(edges) <= all && RewrittenAsListed(all, listed, uuidMap, sources, targets)
    modifies Objects(edges)
    ensures RewrittenAsListed(all, listed + edges, uuidMap, sources, targets)
  {
    ResolveEdgePointers(edges, uuidMap);
    forall e | e in all
      ensures e.source == Rewritten(uuidMap, Times(listed + edges, e), sources[e])
      ensures e.target == Rewritten(uuidMap, Times(listed + edges, e), targets[e])
    {
      RewrittenTogether(uuidMap, listed, edges, e, sources[e], old(e.source), e.source);
      RewrittenTogether(uuidMap, listed, edges, e, targets[e], old(e.target), e.target);
    }
  }

  /** The edge loop of `_resolve_nodes_and_edges_bulk`: rewrite each episode's edges, then take those not seen before. */
  method ShareEdges(order: seq<Id>, items: ByEpisode<Edge>, uuidMap: UuidMap) returns (shares: ByEpisode<Edge>)
    requires forall e | e in order :: e in items
    modifies Objects(Listed(order, items))
    ensures shares == Shares(order, items)
    ensures forall e | e in Objects(Listed(order, items)) ::
      e.source == Rewritten(uuidMap, Times(Listed(order, items), e), old(e.source))
    ensures forall e | e in Objects(Listed(order, items)) ::
      e.target == Rewritten(uuidMap, Times(Listed(order, items), e), old(e.target))
  {
    ghost var all := Objects(Listed(order, items));
    ghost var sources := map e: Edge | e in all :: e.source;
    ghost var targets := map e: Edge | e in all :: e.target;
    shares := map[];
    var seen: set<Id> := {};
    for i := 0 to |order|
      invariant forall e | e in order[..i] :: e in items
      invariant shares == Shares(order[..i], items) && seen == Seen(order[..i], items)
      invariant RewrittenAsListed(all, Listed(order[..i], items), uuidMap, sources, targets)
    {
      NextListing(order, items, i);
      ListedObjects(order, items, order[i]);
      var edges := items[order[i]];
      RewriteMore(all, Listed(order[..i], items), edges, uuidMap, sources, targets);
      var share, seen' := TakeUnseen(edges, seen);
      shares := shares[order[i] := share];
      seen := seen';
    }
    assert order[..|order|] == order;
  }

  /** What one more listing adds. */
  lemma NextListing<T>(order: seq<Id>, items: ByEpisode<T>, i: nat)
    requires i < |order| && forall e | e in order :: e in items
    ensures order[i] in order && order[i] in items
    ensures (forall e | e in order[..i] :: e in items) && (forall e | e in order[..i + 1] :: e in items)
    ensures Shares(order[..i + 1], items) == Shares(order[..i], items)[order[i] := Fresh(items[order[i]], Seen(order[..i], items))]
    ensures Seen(order[..i + 1], items) == Seen(order[..i], items) + Uuids(items[order[i]])
    ensures Listed(order[..i + 1], items) == Listed(order[..i], items) + items[order[i]]
  {
    PrefixListed(order, items, i);
    PrefixListed(order, items, i + 1);
    assert order[..i + 1][..i] == order[..i];
  }

  lemma {:induction false} ListedObjects(order: seq<Id>, items: ByEpisode<Edge>, e: Id)
    requires (forall x | x in order :: x in items) && e in order
    ensures Objects(items[e]) <= Objects(Listed(order, items))
  {
    var n := |order| - 1;
    assert order[n] in order;
    assert forall x | x in order[..n] :: x in order;
    var before, last := Listed(order[..n], items), items[order[n]];
    assert forall i | 0 <= i < |before| :: (before + last)[i] == before[i];
    assert forall i | 0 <= i < |last| :: (before + last)[|before| + i] == last[i];
    if e != order[n] {
      ListedObjects(order[..n], items, e);
    }
  }

  // ---- The merged map of the resolvers ----

  function MergeAll(maps: seq<UuidMap>): UuidMap {
    if maps == [] then map[] else MergeAll(maps[..|maps| - 1]) + maps[|maps| - 1]
  }

  /** `uuid_map.update` over the resolvers' results. */
  method MergeMaps(maps: seq<UuidMap>) returns (merged: UuidMap)
    ensures merged == MergeAll(maps)
  {
    merged := map[];
    for i := 0 to |maps|
      invariant merged == MergeAll(maps[..i])
    {
      assert maps[..i + 1][..i] == maps[..i];
      merged := merged + maps[i];
    }
    assert maps[..|maps|] == maps;
  }

  /** Where several resolvers answer for one uuid, the last answer counts. */
  lemma {:induction false} LastAnswerCounts(maps: seq<UuidMap>, u: Id)
    ensures u in MergeAll(maps) <==> exists i :: 0 <= i < |maps| && u in maps[i]
    ensures forall i | 0 <= i < |maps| && u in maps[i] && (forall j | i < j < |maps| :: u !in maps[j]) :: MergeAll(maps)[u] == maps[i][u]
  {
    if maps == [] {
    } else {
      var n := |maps| - 1;
      LastAnswerCounts(maps[..n], u);
      assert forall i | 0 <= i < n :: maps[..n][i] == maps[i];
    }
  }

  predicate DisjointKeys(maps: seq<UuidMap>) {
    forall i, j, u | 0 <= i < |maps| && 0 <= j < |maps| && u in maps[i] && u in maps[j] :: i == j
  }

  /** With disjoint keys no update overwrites another. */
  lemma MergedIs(maps: seq<UuidMap>, u: Id)
    requires DisjointKeys(maps)
    ensures u in MergeAll(maps) <==> exists i :: 0 <= i < |maps| && u in maps[i]
    ensures forall i | 0 <= i < |maps| && u in maps[i] :: MergeAll(maps)[u] == maps[i][u]
  {
    LastAnswerCounts(maps, u);
  }

  /** Every resolver that was asked about a target keeps it. */
  predicate TargetsKept(maps: seq<UuidMap>) {
    forall i, j, u | 0 <= i < |maps| && 0 <= j < |maps| && u in maps[i] && maps[i][u] in maps[j] :: maps[j][maps[i][u]] == maps[i][u]
  }

  /** The merged map is settled exactly if every resolver that was asked about a target keeps it. */
  lemma MergedIsSettledIff(maps: seq<UuidMap>)
    requires DisjointKeys(maps)
    ensures Settled(MergeAll(maps)) <==> TargetsKept(maps)
  {
    var merged := MergeAll(maps);
    if TargetsKept(maps) {
      forall u | u in merged && merged[u] in merged ensures merged[merged[u]] == merged[u] {
        MergedIs(maps, u);
        MergedIs(maps, merged[u]);
        var i :| 0 <= i < |maps| && u in maps[i];
        var j :| 0 <= j < |maps| && merged[u] in maps[j];
        assert maps[j][maps[i][u]] == maps[i][u];
      }
    }
    if Settled(merged) {
      forall i, j, u | 0 <= i < |maps| && 0 <= j < |maps| && u in maps[i] && maps[i][u] in maps[j]
        ensures maps[j][maps[i][u]] == maps[i][u]
      {
        MergedIs(maps, u);
        MergedIs(maps, maps[i][u]);
      }
    }
  }

  /** Resolvers answer for the nodes they were asked about; as shares are disjoint, so are the keys. */
  lemma SharesGiveDisjointKeys<T>(order: seq<Id>, items: ByEpisode<T>, maps: seq<UuidMap>)
    requires Distinct(order) && (forall e | e in order :: e in items) && |maps| == |order|
    requires forall k | 0 <= k < |order| && order[k] in Shares(order, items) :: maps[k].Keys <= Uuids(Shares(order, items)[order[k]])
    ensures DisjointKeys(maps)
  {
    SharesKeys(order, items);
    forall i, j, u | 0 <= i < |maps| && 0 <= j < |maps| && u in maps[i] && u in maps[j] ensures i == j {
      assert order[i] in order && order[j] in order;
      assert SharedAt(order, items, i, u) && SharedAt(order, items, j, u);
      SharedWhereFirstMentioned(order, items, i, u);
      SharedWhereFirstMentioned(order, items, j, u);
      FirstMentionIsUnique(order, items, i, j, u);
    }
  }
}
