/** The saga part of single and bulk ingestion as it updates the graph, step by step. */
module SagaIngestion {
  import opened Options
  import opened Collections
  import opened SagaChain

  predicate ByTime(es: Episodes, ids: seq<Id>) {
    && (forall x | x in ids :: x in es)
    && forall i, j | 0 <= i < j < |ids| :: es[ids[i]].validAt <= es[ids[j]].validAt
  }

  /** Insert `e` after everything that is not later. */
  function InsertByTime(es: Episodes, sorted: seq<Id>, e: Id): (r: seq<Id>)
    requires e in es && forall x | x in sorted :: x in es
    ensures forall x :: x in r <==> x in sorted || x == e
  {
    if sorted == [] then [e]
    else
      var n := |sorted| - 1;
      if es[sorted[n]].validAt <= es[e].validAt then sorted + [e]
      else
        assert sorted == sorted[..n] + [sorted[n]];
        InsertByTime(es, sorted[..n], e) + [sorted[n]]
  }

  lemma {:induction false} InsertKeepsOrder(es: Episodes, sorted: seq<Id>, e: Id)
    requires e in es && ByTime(es, sorted)
    ensures ByTime(es, InsertByTime(es, sorted, e))
  {
    if sorted == [] {
    } else {
      var n := |sorted| - 1;
      if es[sorted[n]].validAt > es[e].validAt {
        InsertKeepsOrder(es, sorted[..n], e);
        ByTimeAppend(es, InsertByTime(es, sorted[..n], e), sorted[n]);
      } else {
        ByTimeAppend(es, sorted, e);
      }
    }
  }

  lemma ByTimeAppend(es: Episodes, sorted: seq<Id>, e: Id)
    requires ByTime(es, sorted) && e in es && forall x | x in sorted :: es[x].validAt <= es[e].validAt
    ensures ByTime(es, sorted + [e])
  {
    assert forall i | 0 <= i < |sorted| :: sorted[i] in sorted;
  }

  lemma {:induction false} InsertKeepsMultiset(es: Episodes, sorted: seq<Id>, e: Id)
    requires e in es && forall x | x in sorted :: x in es
    ensures multiset(InsertByTime(es, sorted, e)) == multiset(sorted) + multiset{e}
  {
    if sorted == [] {
    } else {
      var n := |sorted| - 1;
      assert sorted == sorted[..n] + [sorted[n]];
      if es[sorted[n]].validAt > es[e].validAt {
        InsertKeepsMultiset(es, sorted[..n], e);
      }
    }
  }

  /** `sorted(episodes, key=lambda e: e.valid_at)`, a stable sort. */
  function SortByTime(es: Episodes, batch: seq<Id>): (r: seq<Id>)
    requires forall e | e in batch :: e in es
    ensures forall x :: x in r <==> x in batch
  {
    if batch == [] then []
    else
      var n := |batch| - 1;
      assert batch == batch[..n] + [batch[n]];
      InsertByTime(es, SortByTime(es, batch[..n]), batch[n])
  }

  lemma {:induction false} SortSorts(es: Episodes, batch: seq<Id>)
    requires forall e | e in batch :: e in es
    ensures ByTime(es, SortByTime(es, batch)) && multiset(SortByTime(es, batch)) == multiset(batch)
  {
    if batch == [] {
    } else {
      var n := |batch| - 1;
      assert batch == batch[..n] + [batch[n]];
      SortSorts(es, batch[..n]);
      InsertKeepsOrder(es, SortByTime(es, batch[..n]), batch[n]);
      InsertKeepsMultiset(es, SortByTime(es, batch[..n]), batch[n]);
    }
  }

  /** The episodes of one reference time, in order. */
  function AtTime(es: Episodes, ids: seq<Id>, t: int): seq<Id> {
    if ids == [] then []
    else
      var n := |ids| - 1;
      AtTime(es, ids[..n], t) + (if ids[n] in es && es[ids[n]].validAt == t then [ids[n]] else [])
  }

  lemma AtTimeAppend(es: Episodes, ids: seq<Id>, e: Id, t: int)
    requires e in es
    ensures AtTime(es, ids + [e], t) == AtTime(es, ids, t) + (if es[e].validAt == t then [e] else [])
  {
    assert (ids + [e])[..|ids|] == ids;
  }

  lemma {:induction false} InsertIsStable(es: Episodes, sorted: seq<Id>, e: Id, t: int)
    requires e in es && forall x | x in sorted :: x in es
    ensures AtTime(es, InsertByTime(es, sorted, e), t) == AtTime(es, sorted, t) + (if es[e].validAt == t then [e] else [])
  {
    if sorted == [] {
    } else {
      var head, last := sorted[..|sorted| - 1], sorted[|sorted| - 1];
      assert sorted == head + [last];
      if es[last].validAt <= es[e].validAt {
        AtTimeAppend(es, sorted, e, t);
      } else {
        InsertIsStable(es, head, e, t);
        AtTimeAppend(es, head, last, t);
        AtTimeAppend(es, InsertByTime(es, head, e), last, t);
      }
    }
  }

  /** Episodes of the same reference time keep their order. */
  lemma {:induction false} SortIsStable(es: Episodes, batch: seq<Id>, t: int)
    requires forall e | e in batch :: e in es
    ensures AtTime(es, SortByTime(es, batch), t) == AtTime(es, batch, t)
  {
    if batch == [] {
    } else {
      var n := |batch| - 1;
      assert batch == batch[..n] + [batch[n]];
      SortIsStable(es, batch[..n], t);
      SortSorts(es, batch[..n]);
      InsertIsStable(es, SortByTime(es, batch[..n]), batch[n], t);
    }
  }

  /** In time order, the same episodes, and no two of the same time swapped. */
  ghost predicate IsStableSort(es: Episodes, batch: seq<Id>, sorted: seq<Id>) {
    && ByTime(es, sorted) && multiset(sorted) == multiset(batch)
    && forall t :: AtTime(es, sorted, t) == AtTime(es, batch, t)
  }

  lemma SameMultisetMembers(p: seq<Id>, q: seq<Id>)
    requires multiset(p) == multiset(q)
    ensures forall x :: x in p <==> x in q
  {
    assert forall x :: x in p <==> x in multiset(p);
  }

  lemma SameMultisetDistinct(p: seq<Id>, q: seq<Id>)
    requires Distinct(p) && multiset(p) == multiset(q)
    ensures Distinct(q)
  {
    forall i, j | 0 <= i < j < |q| ensures q[i] != q[j] {
      if q[i] == q[j] {
        TwiceCountsTwo(q, i, j);
        AtMostOnce(p, q[i]);
      }
    }
  }

  lemma TwiceCountsTwo(q: seq<Id>, i: nat, j: nat)
    requires i < j < |q| && q[i] == q[j]
    ensures multiset(q)[q[i]] >= 2
  {
    assert q == q[..j] + q[j..];
    assert q[i] in q[..j] && q[j] in q[j..];
  }

  lemma {:induction false} AtMostOnce(p: seq<Id>, x: Id)
    requires Distinct(p)
    ensures multiset(p)[x] <= 1
  {
    if p == [] {
    } else {
      AtMostOnce(p[1..], x);
      assert p == [p[0]] + p[1..];
      assert p[0] == x ==> x !in p[1..];
    }
  }

  /** A sorted batch has the same episodes, each as often as before. */
  lemma SortedBatch(es: Episodes, batch: seq<Id>)
    requires forall e | e in batch :: e in es
    ensures IsStableSort(es, batch, SortByTime(es, batch)) && (Distinct(SortByTime(es, batch)) <==> Distinct(batch))
  {
    var sorted := SortByTime(es, batch);
    SortSorts(es, batch);
    forall t ensures AtTime(es, sorted, t) == AtTime(es, batch, t) {
      SortIsStable(es, batch, t);
    }
    if Distinct(batch) {
      SameMultisetDistinct(batch, sorted);
    }
    if Distinct(sorted) {
      SameMultisetDistinct(sorted, batch);
    }
  }

  class Saga {
    var episodes: Episodes               // every episode in the graph
    var hasEpisode: seq<Id>              // targets of the saga's HAS_EPISODE edges
    var nextEpisode: seq<(Id, Id)>       // NEXT_EPISODE edges
    var firstEpisodeUuid: Option<Id>
    var lastEpisodeUuid: Option<Id>

    function View(): Chain
      reads this
    {
      Chain(hasEpisode, nextEpisode, firstEpisodeUuid, lastEpisodeUuid)
    }

    ghost predicate Valid()
      reads this
    {
      forall e | e in hasEpisode :: e in episodes
    }

    constructor (episodes: Episodes)
      ensures Valid() && View() == NO_EPISODES && this.episodes == episodes
    {
      this.episodes := episodes;
      hasEpisode, nextEpisode, firstEpisodeUuid, lastEpisodeUuid := [], [], None, None;
    }

    /** `_saga_get_previous_episode_uuid`. */
    method PreviousEpisode(current: Id) returns (r: Option<Id>)
      requires Valid()
      ensures IsPrevious(episodes, hasEpisode, current, r)
      ensures r.None? <==> forall e | e in hasEpisode :: e == current
      ensures r.Some? ==> r.value in hasEpisode && r.value != current
      ensures r.Some? ==> forall e | e in hasEpisode && e != current ::
        || episodes[e].validAt < episodes[r.value].validAt
        || (episodes[e].validAt == episodes[r.value].validAt && episodes[e].createdAt <= episodes[r.value].createdAt)
    {
      var candidates := set e | e in hasEpisode && e != current;
      if candidates == {} {
        assert forall e | e in hasEpisode && e != current :: e in candidates;
        return None;
      }
      ghost var latest := SomeLatest(episodes, candidates);
      assert IsPrevious(episodes, hasEpisode, current, Some(latest)) by {
        assert forall e | e in hasEpisode && e != current :: e in candidates;
      }
      var p :| IsPrevious(episodes, hasEpisode, current, Some(p));
      return Some(p);
    }

    /**
     The saga association at the end of `_process_episode_data`. A supplied predecessor is taken as it
     is, and nothing keeps an episode from being linked again.
     */
    method ProcessEpisode(episode: Id, supplied: Option<Id>) returns (previous: Option<Id>)
      requires Valid() && episode in episodes
      modifies this
      ensures Valid() && episodes == old(episodes)
      ensures View() == Link(old(View()), previous, episode)
      ensures hasEpisode == old(hasEpisode) + [episode]
      ensures nextEpisode == old(nextEpisode) + if previous.Some? then [(previous.value, episode)] else []
      ensures firstEpisodeUuid == if old(firstEpisodeUuid).Some? then old(firstEpisodeUuid) else Some(episode)
      ensures lastEpisodeUuid == Some(episode)
      ensures if supplied.Some? then previous == supplied else IsPrevious(episodes, old(hasEpisode), episode, previous)
      ensures TreeShaped(old(View())) ==> (TreeShaped(View()) <==>
        episode !in old(hasEpisode) && (supplied.Some? ==> supplied.value in old(hasEpisode)))
    {
      previous := supplied;
      if previous.None? {
        previous := PreviousEpisode(episode);
      }
      LinkedLookup(View(), episodes, supplied, previous, episode);
      if previous.Some? {
        nextEpisode := nextEpisode + [(previous.value, episode)];
      }
      hasEpisode := hasEpisode + [episode];
      if firstEpisodeUuid.None? {
        firstEpisodeUuid := Some(episode);
      }
      lastEpisodeUuid := Some(episode);
    }

    /** The edge loop of `add_episode_bulk`. */
    method LinkBatch(previous: Option<Id>, sorted: seq<Id>)
      modifies this`hasEpisode, this`nextEpisode
      ensures hasEpisode == LinkAll(old(View()), previous, sorted).linked
      ensures nextEpisode == LinkAll(old(View()), previous, sorted).next
    {
      var predecessor := previous;
      for i := 0 to |sorted|
        invariant predecessor == Before(previous, sorted, i)
        invariant hasEpisode == LinkAll(old(View()), previous, sorted[..i]).linked
        invariant nextEpisode == LinkAll(old(View()), previous, sorted[..i]).next
      {
        assert sorted[..i + 1][..i] == sorted[..i] && Before(previous, sorted[..i + 1], i) == predecessor;
        if predecessor.Some? {
          nextEpisode := nextEpisode + [(predecessor.value, sorted[i])];
        }
        hasEpisode := hasEpisode + [sorted[i]];
        predecessor := Some(sorted[i]);
      }
      assert sorted[..|sorted|] == sorted;
    }

    /**
     The saga association at the end of `add_episode_bulk`. Nothing keeps a batch from repeating an
     episode or bringing one that is linked already.
     */
    method AddBulk(batch: seq<Id>) returns (previous: Option<Id>, sorted: seq<Id>)
      requires Valid() && forall e | e in batch :: e in episodes
      modifies this
      ensures Valid() && episodes == old(episodes)
      ensures IsStableSort(episodes, batch, sorted)
      ensures IsPrevious(episodes, old(hasEpisode), "", previous)
      ensures View() == LinkAll(old(View()), previous, sorted)
      ensures hasEpisode == old(hasEpisode) + sorted
      ensures nextEpisode == old(nextEpisode) + BatchEdges(previous, sorted)
      ensures firstEpisodeUuid == if old(firstEpisodeUuid).Some? || batch == [] then old(firstEpisodeUuid) else Some(sorted[0])
      ensures lastEpisodeUuid == if batch == [] then old(lastEpisodeUuid) else Some(sorted[|sorted| - 1])
      ensures TreeShaped(old(View())) && "" !in old(hasEpisode) ==>
        (TreeShaped(View()) <==> Distinct(batch) && forall e | e in batch :: e !in old(hasEpisode))
    {
      sorted := SortByTime(episodes, batch);
      previous := PreviousEpisode("");
      SortedBatchLinks(View(), episodes, previous, batch);
      LinkAllLinks(View(), previous, sorted);
      LinkAllAddsEdges(View(), previous, sorted);
      LinkBatch(previous, sorted);
      if sorted != [] {
        if firstEpisodeUuid.None? {
          firstEpisodeUuid := Some(sorted[0]);
        }
        lastEpisodeUuid := Some(sorted[|sorted| - 1]);
      }
    }
  }

  lemma OnlyItselfMeansNone(linked: seq<Id>, e: Id)
    requires e !in linked
    ensures (forall x | x in linked :: x == e) ==> linked == []
  {
    assert linked == [] || linked[0] in linked;
  }

  /** Looking the predecessor up keeps the tree if the episode is new; a supplied one must be linked, too. */
  lemma LinkedLookup(c: Chain, es: Episodes, supplied: Option<Id>, previous: Option<Id>, e: Id)
    requires if supplied.Some? then previous == supplied else IsPrevious(es, c.linked, e, previous)
    ensures TreeShaped(c) ==> (TreeShaped(Link(c, previous, e)) <==>
      e !in c.linked && (supplied.Some? ==> supplied.value in c.linked))
  {
    if TreeShaped(c) {
      LinkKeepsTreeIff(c, previous, e);
      if e !in c.linked {
        OnlyItselfMeansNone(c.linked, e);
      }
    }
  }

  lemma SortedBatchLinks(c: Chain, es: Episodes, previous: Option<Id>, batch: seq<Id>)
    requires IsPrevious(es, c.linked, "", previous)
    requires (forall e | e in c.linked :: e in es) && forall e | e in batch :: e in es
    ensures var sorted := SortByTime(es, batch); var r := LinkAll(c, previous, sorted);
      && IsStableSort(es, batch, sorted) && (forall e | e in r.linked :: e in es)
      && r.first == (if c.first.Some? || sorted == [] then c.first else Some(sorted[0]))
      && r.last == (if sorted == [] then c.last else Some(sorted[|sorted| - 1]))
    ensures TreeShaped(c) && "" !in c.linked ==>
      (TreeShaped(LinkAll(c, previous, SortByTime(es, batch))) <==> Distinct(batch) && forall e | e in batch :: e !in c.linked)
  {
    var sorted := SortByTime(es, batch);
    SortedBatch(es, batch);
    LinkAllLinks(c, previous, sorted);
    if TreeShaped(c) && "" !in c.linked {
      LinkAllKeepsTreeIff(c, previous, sorted);
      OnlyItselfMeansNone(c.linked, "");
      assert forall i | 0 <= i < |sorted| :: sorted[i] in batch;
    }
  }

  /** The batch that `AddBulk` links is in order if its episodes are later than all linked ones and of distinct times. */
  lemma LaterBatchIsInOrder(es: Episodes, c: Chain, batch: seq<Id>, sorted: seq<Id>, previous: Option<Id>)
    requires TreeShaped(c) && Chronological(es, c.linked) && "" !in c.linked
    requires (forall e | e in batch :: e in es) && IsStableSort(es, batch, sorted) && IsPrevious(es, c.linked, "", previous)
    requires Distinct(batch) && forall e, f | e in batch && f in batch && e != f :: es[e].validAt != es[f].validAt
    requires forall e, l | e in batch && l in c.linked :: es[l].validAt < es[e].validAt
    ensures InOrder(es, c, Batch(previous, sorted))
  {
    SameMultisetDistinct(batch, sorted);
    SameMultisetMembers(batch, sorted);
    OnlyItselfMeansNone(c.linked, "");
    assert forall i | 0 <= i < |sorted| :: sorted[i] in sorted;
    assert forall i | 0 <= i < |c.linked| :: c.linked[i] in c.linked;
    DistinctTimesAscend(es, sorted);
    ChronologicalAppend(es, c.linked, sorted);
  }

  lemma DistinctTimesAscend(es: Episodes, sorted: seq<Id>)
    requires ByTime(es, sorted) && Distinct(sorted)
    requires forall e, f | e in sorted && f in sorted && e != f :: es[e].validAt != es[f].validAt
    ensures Chronological(es, sorted)
  {
    forall i, j | 0 <= i < j < |sorted| ensures es[sorted[i]].validAt < es[sorted[j]].validAt {
      assert sorted[i] in sorted && sorted[j] in sorted;
    }
  }
}
