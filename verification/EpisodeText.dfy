/** Full-text documents of episodes: one version for every ordinary save, a higher one for deletion. */
module EpisodeText {
  import opened Options
  import opened VersionedStore

  const EPISODE_AOSS_WRITE_VERSION := 1_000_000_000_000_000
  const EPISODE_AOSS_TOMBSTONE_VERSION := EPISODE_AOSS_WRITE_VERSION + 1

  /** What `EpisodicNode.save` sends: a version, but no version type. */
  function Save<D>(uuid: Id, doc: D): Write<D> {
    Versioned(uuid, EPISODE_AOSS_WRITE_VERSION, None, doc)
  }

  function Saves<D>(uuids: seq<Id>, docs: seq<D>): seq<Write<D>>
    requires |uuids| == |docs|
  {
    seq(|uuids|, i requires 0 <= i < |uuids| => Save(uuids[i], docs[i]))
  }

  ghost predicate Deaf<D(!new)>(s: Store<D>, id: Id)
    requires id in s
  {
    forall uuids: seq<Id>, docs: seq<D> | |uuids| == |docs| ::
      id in DeliverAll(s, Saves(uuids, docs)) && DeliverAll(s, Saves(uuids, docs))[id] == s[id]
  }

  /**
   No run of ordinary saves, replayed or reordered, ever revives a deleted episode, whereas an
   episode at the ordinary version or below is always replaced by the next save.
   */
  lemma DeafIffTombstoned<D(!new)>(s: Store<D>, id: Id, other: D)
    requires id in s && s[id].doc != other
    ensures Deaf(s, id) <==> s[id].version >= 1_000_000_000_000_001
  {
    if s[id].version >= EPISODE_AOSS_TOMBSTONE_VERSION {
      forall uuids: seq<Id>, docs: seq<D> | |uuids| == |docs|
        ensures id in DeliverAll(s, Saves(uuids, docs)) && DeliverAll(s, Saves(uuids, docs))[id] == s[id]
      {
        EntrySurvives(s, Saves(uuids, docs), id);
      }
    } else {
      var one := Saves([id], [other]);
      assert one == [Save(id, other)] && one[..0] == [];
      assert DeliverAll(s, one) == Deliver(s, Save(id, other));
      assert |[id]| == |[other]|;
    }
  }
}
