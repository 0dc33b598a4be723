/**
 The part of an OpenSearch index that its callers rely on: one document per id, replaced only by a
 write whose version is high enough under the write's version type. Deliveries may be reordered
 and duplicated.
 */
module VersionedStore {
  import opened Options

  type Id = string

  datatype VersionType = External | ExternalGte

  datatype Stored<D> = Stored(version: nat, doc: D)

  type Store<D> = map<Id, Stored<D>>

  datatype Write<D> = Write(id: Id, version: nat, order: VersionType, doc: D)

  /** An index action as `save_to_aoss` builds it: a version without a version type means `external_gte`. */
  function Versioned<D>(id: Id, version: nat, order: Option<VersionType>, doc: D): Write<D> {
    Write(id, version, if order.Some? then order.value else ExternalGte, doc)
  }

  /** `external` demands a strictly higher version, `external_gte` one that is not lower. */
  predicate Accepts<D>(s: Store<D>, w: Write<D>) {
    w.id in s ==> if w.order.External? then w.version > s[w.id].version else w.version >= s[w.id].version
  }

  function Deliver<D>(s: Store<D>, w: Write<D>): Store<D> {
    if Accepts(s, w) then s[w.id := Stored(w.version, w.doc)] else s
  }

  function DeliverAll<D>(s: Store<D>, ws: seq<Write<D>>): Store<D> {
    if ws == [] then s else Deliver(DeliverAll(s, ws[..|ws| - 1]), ws[|ws| - 1])
  }

  /** No document disappears and no stored version goes down. */
  ghost predicate NeverLower<D>(s: Store<D>, r: Store<D>) {
    forall id | id in s :: id in r && s[id].version <= r[id].version
  }

  lemma {:induction false} DeliveriesNeverLower<D>(s: Store<D>, ws: seq<Write<D>>)
    ensures NeverLower(s, DeliverAll(s, ws))
  {
    if ws == [] {
    } else {
      DeliveriesNeverLower(s, ws[..|ws| - 1]);
    }
  }

  lemma {:induction false} DeliverAllAppend<D>(s: Store<D>, p: seq<Write<D>>, q: seq<Write<D>>)
    ensures DeliverAll(s, p + q) == DeliverAll(DeliverAll(s, p), q)
    decreases |q|
  {
    if q == [] {
      assert p + q == p;
    } else {
      DeliverAllAppend(s, p, q[..|q| - 1]);
      assert (p + q)[..|p + q| - 1] == p + q[..|q| - 1];
    }
  }

  /** `r` is what delivering `ws` on top of `s` leaves under `id` if only the highest version counts. */
  ghost predicate HighestWins<D>(s: Store<D>, ws: seq<Write<D>>, id: Id, r: Store<D>) {
    && (id in r <==> id in s || exists w :: w in ws && w.id == id)
    && (id in r ==>
          && (forall w | w in ws && w.id == id :: w.version <= r[id].version)
          && (id in s ==> s[id].version <= r[id].version)
          && ((id in s && r[id] == s[id])
              || exists w :: w in ws && w.id == id && r[id] == Stored(w.version, w.doc)
                          && (id in s && w.order.External? ==> s[id].version < w.version)))
  }

  /** Whatever the order, the document left is one with the highest version ever seen. */
  lemma {:induction false} HighestVersionWins<D>(s: Store<D>, ws: seq<Write<D>>, id: Id)
    ensures HighestWins(s, ws, id, DeliverAll(s, ws))
  {
    if ws == [] {
    } else {
      var before, last := ws[..|ws| - 1], ws[|ws| - 1];
      assert ws == before + [last];
      HighestVersionWins(s, before, id);
      var r := DeliverAll(s, before);
      assert forall w :: w in ws <==> w in before || w == last;
      if id in r && r[id] != DeliverAll(s, ws)[id] {
        assert last in ws && last.id == id;
      }
    }
  }

  // ---- Convergence ----

  ghost predicate Strict<D>(ws: seq<Write<D>>) {
    forall w | w in ws :: w.order.External?
  }

  /** The same writes, in any order and with any repetition. */
  ghost predicate SameWrites<D>(ws: seq<Write<D>>, vs: seq<Write<D>>) {
    (forall w | w in ws :: w in vs) && (forall w | w in vs :: w in ws)
  }

  ghost predicate OrderInsensitive<D(!new)>(s: Store<D>, ws: seq<Write<D>>) {
    forall vs | SameWrites(ws, vs) :: DeliverAll(s, vs) == DeliverAll(s, ws)
  }

  /** `w` carries the highest version for its id, above anything stored before. */
  ghost predicate Winning<D>(s: Store<D>, ws: seq<Write<D>>, w: Write<D>) {
    && w in ws
    && (w.id in s ==> s[w.id].version < w.version)
    && forall v | v in ws && v.id == w.id :: v.version <= w.version
  }

  /** Two writes that could both win for the same id agree on the document. */
  ghost predicate WinnersAgree<D(!new)>(s: Store<D>, ws: seq<Write<D>>) {
    forall v, w | Winning(s, ws, v) && Winning(s, ws, w) && v.id == w.id :: v.doc == w.doc
  }

  lemma WinnerIsStored<D(!new)>(s: Store<D>, ws: seq<Write<D>>, w: Write<D>)
    requires Strict(ws) && Winning(s, ws, w) && WinnersAgree(s, ws)
    ensures w.id in DeliverAll(s, ws) && DeliverAll(s, ws)[w.id] == Stored(w.version, w.doc)
  {
    HighestVersionWins(s, ws, w.id);
    var r := DeliverAll(s, ws)[w.id];
    var v :| v in ws && v.id == w.id && r == Stored(v.version, v.doc) && (w.id in s ==> s[w.id].version < v.version);
    assert Winning(s, ws, v);
  }

  lemma SomeWinner<D(!new)>(s: Store<D>, ws: seq<Write<D>>, id: Id) returns (w: Write<D>)
    requires Strict(ws) && id in DeliverAll(s, ws) && (id in s ==> DeliverAll(s, ws)[id] != s[id])
    ensures Winning(s, ws, w) && w.id == id
  {
    HighestVersionWins(s, ws, id);
    var r := DeliverAll(s, ws)[id];
    w :| w in ws && w.id == id && r == Stored(w.version, w.doc) && (id in s ==> s[id].version < w.version);
  }

  lemma ReorderedEntry<D(!new)>(s: Store<D>, ws: seq<Write<D>>, vs: seq<Write<D>>, id: Id)
    requires Strict(ws) && SameWrites(ws, vs) && WinnersAgree(s, ws)
    ensures id in DeliverAll(s, vs) <==> id in DeliverAll(s, ws)
    ensures id in DeliverAll(s, ws) ==> DeliverAll(s, vs)[id] == DeliverAll(s, ws)[id]
  {
    HighestVersionWins(s, ws, id);
    HighestVersionWins(s, vs, id);
    assert forall w :: Winning(s, vs, w) <==> Winning(s, ws, w);
    assert WinnersAgree(s, vs);
    if id in DeliverAll(s, ws) {
      if id in s ==> DeliverAll(s, ws)[id] != s[id] {
        var w := SomeWinner(s, ws, id);
        WinnerIsStored(s, ws, w);
        WinnerIsStored(s, vs, w);
      } else if DeliverAll(s, vs)[id] != s[id] {
        var w := SomeWinner(s, vs, id);
        WinnerIsStored(s, ws, w);
      }
    }
  }

  /**
   Convergence, exactly: strict writes leave the same index under every reordering and duplication
   if and only if the writes that could win for one id agree on its document.
   */
  lemma ConvergesIffWinnersAgree<D(!new)>(s: Store<D>, ws: seq<Write<D>>)
    requires Strict(ws)
    ensures OrderInsensitive(s, ws) <==> WinnersAgree(s, ws)
  {
    if WinnersAgree(s, ws) {
      forall vs | SameWrites(ws, vs) ensures DeliverAll(s, vs) == DeliverAll(s, ws) {
        forall id ensures id in DeliverAll(s, vs) <==> id in DeliverAll(s, ws)
          ensures id in DeliverAll(s, ws) ==> DeliverAll(s, vs)[id] == DeliverAll(s, ws)[id]
        {
          ReorderedEntry(s, ws, vs, id);
        }
      }
    } else {
      var v, w :| Winning(s, ws, v) && Winning(s, ws, w) && v.id == w.id && v.doc != w.doc;
      WinnerFirst(s, ws, v);
      WinnerFirst(s, ws, w);
      assert SameWrites(ws, [v] + ws) && SameWrites(ws, [w] + ws);
    }
  }

  /** A winning write that arrives first keeps its place. */
  lemma WinnerFirst<D>(s: Store<D>, ws: seq<Write<D>>, w: Write<D>)
    requires Strict(ws) && Winning(s, ws, w)
    ensures w.id in DeliverAll(s, [w] + ws) && DeliverAll(s, [w] + ws)[w.id] == Stored(w.version, w.doc)
  {
    DeliverAllAppend(s, [w], ws);
    assert DeliverAll(s, [w]) == Deliver(s, w) by { assert [w][..0] == []; }
    EntrySurvives(Deliver(s, w), ws, w.id);
  }

  /** One graph generation is committed with one content: the case the projection relies on. */
  lemma GenerationsConverge<D(!new)>(s: Store<D>, ws: seq<Write<D>>, vs: seq<Write<D>>)
    requires Strict(ws) && SameWrites(ws, vs)
    requires forall v, w | v in ws && w in ws && v.id == w.id && v.version == w.version :: v.doc == w.doc
    ensures DeliverAll(s, ws) == DeliverAll(s, vs)
    ensures forall id :: HighestWins(s, ws, id, DeliverAll(s, vs))
  {
    ConvergesIffWinnersAgree(s, ws);
    forall id ensures HighestWins(s, ws, id, DeliverAll(s, vs)) {
      HighestVersionWins(s, ws, id);
    }
  }

  // ---- Finality ----

  /** `w` cannot replace what is stored under `id`. */
  predicate Outranked<D>(s: Store<D>, id: Id, w: Write<D>)
    requires id in s
  {
    w.id == id ==> if w.order.External? then w.version <= s[id].version else w.version < s[id].version
  }

  /** A stored document survives any run of writes that it outranks. */
  lemma {:induction false} EntrySurvives<D>(s: Store<D>, ws: seq<Write<D>>, id: Id)
    requires id in s && forall w | w in ws :: Outranked(s, id, w)
    ensures id in DeliverAll(s, ws) && DeliverAll(s, ws)[id] == s[id]
  {
    if ws == [] {
    } else {
      EntrySurvives(s, ws[..|ws| - 1], id);
      assert ws[|ws| - 1] in ws;
    }
  }

  /**
   Finality, exactly: a document, a tombstone say, is still there after strict writes if and only if
   none of them carries a higher version; an equal version, as in a replayed backfill, changes nothing.
   */
  lemma FinalIffNothingNewer<D>(s: Store<D>, ws: seq<Write<D>>, id: Id)
    requires id in s && Strict(ws)
    ensures id in DeliverAll(s, ws)
    ensures DeliverAll(s, ws)[id] == s[id] <==> forall w | w in ws && w.id == id :: w.version <= s[id].version
  {
    if forall w | w in ws && w.id == id :: w.version <= s[id].version {
      EntrySurvives(s, ws, id);
    }
    HighestVersionWins(s, ws, id);
  }
}
