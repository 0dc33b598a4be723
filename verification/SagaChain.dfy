/** The HAS_EPISODE and NEXT_EPISODE edges of one saga, and how ingestion extends them. */
module SagaChain {
  import opened Options
  import opened Collections

  type Id = string

  /** The times a saga query orders episodes by. */
  datatype Episode = Episode(validAt: int, createdAt: int)

  type Episodes = map<Id, Episode>

  /** Linked episodes in the order of their HAS_EPISODE edges, the NEXT_EPISODE edges, and the node's two fields. */
  datatype Chain = Chain(linked: seq<Id>, next: seq<(Id, Id)>, first: Option<Id>, last: Option<Id>)

  const NO_EPISODES := Chain([], [], None, None)

  /** `ORDER BY e.valid_at DESC, e.created_at DESC`. */
  predicate NotAfter(a: Episode, b: Episode) {
    a.validAt < b.validAt || (a.validAt == b.validAt && a.createdAt <= b.createdAt)
  }

  /** An answer of `_saga_get_previous_episode_uuid`; ties in both times may be broken either way. */
  predicate IsPrevious(es: Episodes, linked: seq<Id>, exclude: Id, r: Option<Id>) {
    && (forall e | e in linked :: e in es)
    && match r {
         case None => forall e | e in linked :: e == exclude
         case Some(p) => p in linked && p != exclude && forall e | e in linked && e != exclude :: NotAfter(es[e], es[p])
       }
  }

  /** One episode joins the chain behind `previous`. */
  function Link(c: Chain, previous: Option<Id>, e: Id): Chain {
    Chain(
      c.linked + [e],
      if previous.Some? then c.next + [(previous.value, e)] else c.next,
      if c.first.None? then Some(e) else c.first,
      Some(e))
  }

  /** The predecessor of `batch[i]`. */
  function Before(previous: Option<Id>, batch: seq<Id>, i: nat): Option<Id>
    requires i <= |batch|
  {
    if i == 0 then previous else Some(batch[i - 1])
  }

  /** A sorted batch joins the chain, each episode behind the one before it. */
  function LinkAll(c: Chain, previous: Option<Id>, batch: seq<Id>): Chain {
    if batch == [] then c
    else
      var n := |batch| - 1;
      Link(LinkAll(c, previous, batch[..n]), Before(previous, batch, n), batch[n])
  }

  // ---- Shape ----

  /** The edge into each episode but the first: it comes from an episode linked earlier. */
  predicate Rooted(c: Chain) {
    && |c.next| == (if c.linked == [] then 0 else |c.linked| - 1)
    && (forall i | 0 <= i < |c.next| :: c.next[i].1 == c.linked[i + 1] && c.next[i].0 in c.linked[..i + 1])
  }

  predicate Fields(c: Chain) {
    if c.linked == [] then c.first.None? && c.last.None?
    else c.first == Some(c.linked[0]) && c.last == Some(c.linked[|c.linked| - 1])
  }

  predicate TreeShaped(c: Chain) {
    Distinct(c.linked) && Rooted(c) && Fields(c)
  }

  /** The chain is a single path: every edge leads from one linked episode to the next. */
  predicate IsPath(c: Chain) {
    TreeShaped(c) && EndToEnd(c.linked, c.next)
  }

  predicate EndToEnd(linked: seq<Id>, next: seq<(Id, Id)>) {
    |next| <= |linked| && forall i | 0 <= i < |next| :: next[i].0 == linked[i]
  }

  lemma EndToEndAppend(linked: seq<Id>, next: seq<(Id, Id)>, p: Id, e: Id)
    requires EndToEnd(linked, next) && |next| < |linked|
    ensures EndToEnd(linked + [e], next + [(p, e)]) <==> p == linked[|next|]
  {
    var linked', next' := linked + [e], next + [(p, e)];
    assert next'[|next|].0 == p && linked'[|next|] == linked[|next|];
    assert forall i | 0 <= i < |next| :: next'[i] == next[i] && linked'[i] == linked[i];
  }

  /** An episode that may join behind `previous`: new to the saga, its predecessor already in it. */
  predicate MayLink(c: Chain, previous: Option<Id>, e: Id) {
    && e !in c.linked
    && match previous {
         case None => c.linked == []
         case Some(p) => p in c.linked
       }
  }

  lemma LinkKeepsRooted(c: Chain, previous: Option<Id>, e: Id)
    requires Rooted(c) && MayLink(c, previous, e)
    ensures Rooted(Link(c, previous, e))
  {
    var c' := Link(c, previous, e);
    forall i | 0 <= i < |c'.next| ensures c'.next[i].1 == c'.linked[i + 1] && c'.next[i].0 in c'.linked[..i + 1] {
      if i < |c.next| {
        assert c'.next[i] == c.next[i];
        assert c'.linked[..i + 1] == c.linked[..i + 1];
      } else {
        assert c'.next[i] == (previous.value, e);
        assert c'.linked[..i + 1] == c.linked;
      }
    }
  }

  lemma LinkKeepsTree(c: Chain, previous: Option<Id>, e: Id)
    requires TreeShaped(c) && MayLink(c, previous, e)
    ensures TreeShaped(Link(c, previous, e))
  {
    LinkKeepsRooted(c, previous, e);
  }

  /** A path stays a path exactly if the new episode joins at its end. */
  lemma LinkKeepsPathIffAtEnd(c: Chain, previous: Option<Id>, e: Id)
    requires IsPath(c) && MayLink(c, previous, e)
    ensures IsPath(Link(c, previous, e)) <==> previous == c.last
  {
    LinkKeepsTree(c, previous, e);
    if c.linked != [] {
      EndToEndAppend(c.linked, c.next, previous.value, e);
    }
  }

  /** It can branch at once: "b" and then "c", both supplied with the predecessor "a". */
  lemma SuppliedPredecessorMayBranch()
    ensures var c := Link(Link(NO_EPISODES, None, "a"), Some("a"), "b");
      IsPath(c) && MayLink(c, Some("a"), "c") && TreeShaped(Link(c, Some("a"), "c")) && !IsPath(Link(c, Some("a"), "c"))
  {
    var one := Link(NO_EPISODES, None, "a");
    LinkKeepsPathIffAtEnd(NO_EPISODES, None, "a");
    LinkKeepsPathIffAtEnd(one, Some("a"), "b");
    var c := Link(one, Some("a"), "b");
    assert c.linked == ["a", "b"];
    LinkKeepsTree(c, Some("a"), "c");
    LinkKeepsPathIffAtEnd(c, Some("a"), "c");
  }

  /** A batch of new episodes that may join behind `previous`. */
  predicate MayLinkAll(c: Chain, previous: Option<Id>, batch: seq<Id>) {
    && Distinct(batch) && (forall i | 0 <= i < |batch| :: batch[i] !in c.linked)
    && (batch != [] ==> MayLink(c, previous, batch[0]))
  }

  lemma {:induction false} LinkAllLinks(c: Chain, previous: Option<Id>, batch: seq<Id>)
    ensures LinkAll(c, previous, batch).linked == c.linked + batch
    ensures LinkAll(c, previous, batch).first == if c.first.Some? || batch == [] then c.first else Some(batch[0])
    ensures LinkAll(c, previous, batch).last == if batch == [] then c.last else Some(batch[|batch| - 1])
  {
    if batch == [] {
      assert c.linked + batch == c.linked;
    } else {
      var n := |batch| - 1;
      LinkAllLinks(c, previous, batch[..n]);
      assert batch == batch[..n] + [batch[n]];
      assert c.linked + batch == c.linked + batch[..n] + [batch[n]];
    }
  }

  lemma LastMayLink(c: Chain, previous: Option<Id>, batch: seq<Id>)
    requires MayLinkAll(c, previous, batch) && batch != []
    ensures var n := |batch| - 1;
      MayLinkAll(c, previous, batch[..n]) && MayLink(LinkAll(c, previous, batch[..n]), Before(previous, batch, n), batch[n])
  {
    var n := |batch| - 1;
    LinkAllLinks(c, previous, batch[..n]);
    assert n > 0 ==> batch[n - 1] == batch[..n][n - 1];
    assert forall i | 0 <= i < n :: batch[..n][i] == batch[i];
  }

  lemma {:induction false} LinkAllKeepsTree(c: Chain, previous: Option<Id>, batch: seq<Id>)
    requires TreeShaped(c) && MayLinkAll(c, previous, batch)
    ensures TreeShaped(LinkAll(c, previous, batch))
  {
    if batch == [] {
    } else {
      var n := |batch| - 1;
      LastMayLink(c, previous, batch);
      LinkAllKeepsTree(c, previous, batch[..n]);
      LinkKeepsTree(LinkAll(c, previous, batch[..n]), Before(previous, batch, n), batch[n]);
    }
  }

  /** The edges that a batch adds. */
  function BatchEdges(previous: Option<Id>, batch: seq<Id>): seq<(Id, Id)> {
    if batch == [] then []
    else
      var n := |batch| - 1;
      var p := Before(previous, batch, n);
      BatchEdges(previous, batch[..n]) + (if p.Some? then [(p.value, batch[n])] else [])
  }

  /** One edge into each episode of the batch, from the one before it; the first has one if there is a predecessor. */
  lemma {:induction false} BatchEdgesAre(previous: Option<Id>, batch: seq<Id>)
    requires batch != []
    ensures |BatchEdges(previous, batch)| == |batch| - (if previous.Some? then 0 else 1)
    ensures previous.Some? ==> BatchEdges(previous, batch)[0] == (previous.value, batch[0])
    ensures forall i | 1 <= i < |batch| ::
      BatchEdges(previous, batch)[i - (if previous.Some? then 0 else 1)] == (batch[i - 1], batch[i])
  {
    var n := |batch| - 1;
    if n == 0 {
      assert BatchEdges(previous, batch[..0]) == [];
    } else {
      BatchEdgesAre(previous, batch[..n]);
      assert batch[..n][0] == batch[0];
      assert forall i | 0 <= i < n :: batch[..n][i] == batch[i];
    }
  }

  lemma {:induction false} LinkAllAddsEdges(c: Chain, previous: Option<Id>, batch: seq<Id>)
    ensures LinkAll(c, previous, batch).next == c.next + BatchEdges(previous, batch)
  {
    if batch == [] {
    } else {
      var n := |batch| - 1;
      LinkAllAddsEdges(c, previous, batch[..n]);
      assert n > 0 ==> batch[..n][n - 1] == batch[n - 1];
    }
  }

  lemma DistinctParts(p: seq<Id>, q: seq<Id>)
    requires Distinct(p + q)
    ensures Distinct(p) && Distinct(q) && forall i | 0 <= i < |q| :: q[i] !in p
  {
    var r := p + q;
    assert forall i | 0 <= i < |p| :: r[i] == p[i];
    assert forall i | 0 <= i < |q| :: r[|p| + i] == q[i];
  }

  lemma BatchJoinsLinked(c: Chain, previous: Option<Id>, batch: seq<Id>)
    requires TreeShaped(c) && Rooted(LinkAll(c, previous, batch)) && batch != []
    ensures match previous { case None => c.linked == [] case Some(p) => p in c.linked }
  {
    var r, n := LinkAll(c, previous, batch), |c.linked|;
    LinkAllLinks(c, previous, batch);
    LinkAllAddsEdges(c, previous, batch);
    BatchEdgesAre(previous, batch);
    if previous.Some? && n > 0 {
      assert r.next[n - 1] == (previous.value, batch[0]);
      assert r.linked[..n] == c.linked;
    }
  }

  /** A tree stays a tree exactly if the batch is new to the saga, repeats nothing, and its predecessor is in the saga. */
  lemma LinkAllKeepsTreeIff(c: Chain, previous: Option<Id>, batch: seq<Id>)
    requires TreeShaped(c)
    ensures TreeShaped(LinkAll(c, previous, batch)) <==> MayLinkAll(c, previous, batch)
  {
    if MayLinkAll(c, previous, batch) {
      LinkAllKeepsTree(c, previous, batch);
    }
    if TreeShaped(LinkAll(c, previous, batch)) {
      LinkAllLinks(c, previous, batch);
      DistinctParts(c.linked, batch);
      if batch != [] {
        BatchJoinsLinked(c, previous, batch);
      }
    }
  }

  lemma LinkIsBatchOfOne(c: Chain, previous: Option<Id>, e: Id)
    ensures LinkAll(c, previous, [e]) == Link(c, previous, e)
    ensures MayLinkAll(c, previous, [e]) <==> MayLink(c, previous, e)
  {
    assert [e][..0] == [];
    assert LinkAll(c, previous, []) == c;
  }

  /** A tree stays a tree exactly if the episode is new to the saga and its predecessor is in it. */
  lemma LinkKeepsTreeIff(c: Chain, previous: Option<Id>, e: Id)
    requires TreeShaped(c)
    ensures TreeShaped(Link(c, previous, e)) <==> MayLink(c, previous, e)
  {
    LinkIsBatchOfOne(c, previous, e);
    LinkAllKeepsTreeIff(c, previous, [e]);
  }

  /** A path stays a path exactly if the batch joins at its end. */
  lemma LinkAllKeepsPathIffAtEnd(c: Chain, previous: Option<Id>, batch: seq<Id>)
    requires IsPath(c) && MayLinkAll(c, previous, batch) && batch != []
    ensures IsPath(LinkAll(c, previous, batch)) <==> previous == c.last
  {
    if previous == c.last {
      LinkAllKeepsPath(c, previous, batch);
    } else {
      var r, n := LinkAll(c, previous, batch), |c.linked|;
      LinkAllLinks(c, previous, batch);
      LinkAllAddsEdges(c, previous, batch);
      BatchEdgesAre(previous, batch);
      assert r.next[n - 1] == (previous.value, batch[0]) && r.linked[n - 1] == c.linked[n - 1];
    }
  }

  lemma {:induction false} LinkAllKeepsPath(c: Chain, previous: Option<Id>, batch: seq<Id>)
    requires IsPath(c) && MayLinkAll(c, previous, batch) && previous == c.last
    ensures IsPath(LinkAll(c, previous, batch))
  {
    if batch == [] {
    } else {
      var n := |batch| - 1;
      LastMayLink(c, previous, batch);
      LinkAllKeepsPath(c, previous, batch[..n]);
      LastIsBefore(c, previous, batch, n);
      LinkKeepsPathIffAtEnd(LinkAll(c, previous, batch[..n]), Before(previous, batch, n), batch[n]);
    }
  }

  lemma LastIsBefore(c: Chain, previous: Option<Id>, batch: seq<Id>, n: nat)
    requires n <= |batch| && previous == c.last
    ensures LinkAll(c, previous, batch[..n]).last == Before(previous, batch, n)
  {
    LinkAllLinks(c, previous, batch[..n]);
    assert n > 0 ==> batch[..n][n - 1] == batch[n - 1];
  }

  // ---- What the shape means ----

  /** A walk along NEXT_EPISODE edges. */
  predicate Walk(c: Chain, w: seq<Id>) {
    |w| >= 1 && forall i | 0 <= i < |w| - 1 :: (w[i], w[i + 1]) in c.next
  }

  function Position(c: Chain, e: Id): (i: nat)
    requires e in c.linked
    ensures i < |c.linked| && c.linked[i] == e
  {
    PositionIn(c.linked, e)
  }

  function PositionIn(ids: seq<Id>, e: Id): (i: nat)
    requires e in ids
    ensures i < |ids| && ids[i] == e
  {
    if ids[0] == e then 0 else 1 + PositionIn(ids[1..], e)
  }

  lemma EdgeGoesForward(c: Chain, a: Id, b: Id)
    requires TreeShaped(c) && (a, b) in c.next
    ensures a in c.linked && b in c.linked && Position(c, a) < Position(c, b)
  {
    var i :| 0 <= i < |c.next| && c.next[i] == (a, b);
    var j :| 0 <= j < i + 1 && c.linked[j] == a;
    assert Position(c, a) == j && Position(c, b) == i + 1;
  }

  lemma {:induction false} WalkGoesForward(c: Chain, w: seq<Id>)
    requires TreeShaped(c) && Walk(c, w) && |w| >= 2
    ensures w[0] in c.linked && w[|w| - 1] in c.linked && Position(c, w[0]) < Position(c, w[|w| - 1])
  {
    EdgeGoesForward(c, w[|w| - 2], w[|w| - 1]);
    if |w| > 2 {
      WalkGoesForward(c, w[..|w| - 1]);
    }
  }

  /** Edges into `e`. */
  ghost function Incoming(c: Chain, e: Id): set<int> {
    set i | 0 <= i < |c.next| && c.next[i].1 == e
  }

  /** No walk returns to where it started, nobody has two predecessors, and only the first has none. */
  lemma TreeMeans(c: Chain)
    requires TreeShaped(c)
    ensures forall w | Walk(c, w) && |w| >= 2 :: w[0] != w[|w| - 1]
    ensures forall i | 0 <= i < |c.linked| :: Incoming(c, c.linked[i]) == if i == 0 then {} else {i - 1}
    ensures forall e | e !in c.linked :: Incoming(c, e) == {}
  {
    forall w | Walk(c, w) && |w| >= 2 ensures w[0] != w[|w| - 1] {
      WalkGoesForward(c, w);
    }
    forall e, i | i in Incoming(c, e) ensures i + 1 < |c.linked| && e == c.linked[i + 1] {
    }
  }

  // ---- Runs ----

  datatype Ingest =
    | Single(previous: Option<Id>, episode: Id)
    | Batch(previous: Option<Id>, episodes: seq<Id>)

  function Joining(op: Ingest): seq<Id> {
    match op
    case Single(_, e) => [e]
    case Batch(_, batch) => batch
  }

  function Apply(c: Chain, op: Ingest): Chain {
    match op
    case Single(previous, e) => Link(c, previous, e)
    case Batch(previous, batch) => LinkAll(c, previous, batch)
  }

  /** Episodes new to the saga; a predecessor, found or supplied, that is in it. */
  predicate Legal(c: Chain, op: Ingest) {
    match op
    case Single(previous, e) => MayLink(c, previous, e)
    case Batch(previous, batch) => MayLinkAll(c, previous, batch)
  }

  /** A tree before the run and after each of its calls. */
  predicate TreeThroughout(c: Chain, ops: seq<Ingest>)
    decreases |ops|
  {
    TreeShaped(c) && (ops == [] || TreeThroughout(Apply(c, ops[0]), ops[1..]))
  }

  predicate LegalRun(c: Chain, ops: seq<Ingest>)
    decreases |ops|
  {
    ops == [] || (Legal(c, ops[0]) && LegalRun(Apply(c, ops[0]), ops[1..]))
  }

  function Run(c: Chain, ops: seq<Ingest>): Chain
    decreases |ops|
  {
    if ops == [] then c else Run(Apply(c, ops[0]), ops[1..])
  }

  lemma ApplyKeepsTree(c: Chain, op: Ingest)
    requires TreeShaped(c) && Legal(c, op)
    ensures TreeShaped(Apply(c, op)) && Apply(c, op).linked == c.linked + Joining(op)
  {
    match op
    case Single(previous, e) => LinkKeepsTree(c, previous, e);
    case Batch(previous, batch) =>
      LinkAllKeepsTree(c, previous, batch);
      LinkAllLinks(c, previous, batch);
  }

  /**
   Over a run of single and bulk ingestions the saga stays a tree, with one HAS_EPISODE edge per
   episode, one incoming NEXT_EPISODE edge for all but the first, no cycle, and fields that name the
   first and the last episode linked, exactly if every call brings only episodes new to the saga
   behind a predecessor that is in it.
   */
  lemma {:induction false} RunsStayTreesIff(c: Chain, ops: seq<Ingest>)
    requires TreeShaped(c)
    ensures TreeThroughout(c, ops) <==> LegalRun(c, ops)
    decreases |ops|
  {
    if ops == [] {
    } else {
      match ops[0] {
        case Single(previous, e) => LinkKeepsTreeIff(c, previous, e);
        case Batch(previous, batch) => LinkAllKeepsTreeIff(c, previous, batch);
      }
      if Legal(c, ops[0]) {
        RunsStayTreesIff(Apply(c, ops[0]), ops[1..]);
      } else {
        assert !TreeThroughout(Apply(c, ops[0]), ops[1..]);
      }
    }
  }

  // ---- Time order ----

  predicate Chronological(es: Episodes, ids: seq<Id>) {
    && (forall e | e in ids :: e in es)
    && forall i, j | 0 <= i < j < |ids| :: es[ids[i]].validAt < es[ids[j]].validAt
  }

  /** Each joining episode is later than all before it, and the predecessor is the last one or was looked up. */
  predicate InOrder(es: Episodes, c: Chain, op: Ingest) {
    && Legal(c, op)
    && Chronological(es, c.linked + Joining(op))
    && (op.previous == c.last || IsPrevious(es, c.linked, if op.Single? then op.episode else "", op.previous))
  }

  predicate OrderedRun(es: Episodes, c: Chain, ops: seq<Ingest>)
    decreases |ops|
  {
    ops == [] || (InOrder(es, c, ops[0]) && OrderedRun(es, Apply(c, ops[0]), ops[1..]))
  }

  /** In a chronological saga the query finds the episode linked last. */
  lemma LatestIsLast(es: Episodes, c: Chain, exclude: Id, r: Option<Id>)
    requires Fields(c) && Chronological(es, c.linked) && exclude !in c.linked && IsPrevious(es, c.linked, exclude, r)
    ensures r == c.last
  {
    assert c.linked + [] == c.linked;
    ChronologicalPrefix(es, c.linked, []);
    LookUpFindsLast(es, c, exclude, r);
  }

  /**
   If every call brings only episodes later than all linked ones, the chain is one path in time order
   that ends at `last_episode_uuid`.
   */
  lemma {:induction false} OrderedRunsArePaths(es: Episodes, c: Chain, ops: seq<Ingest>)
    requires IsPath(c) && Chronological(es, c.linked) && "" !in es && OrderedRun(es, c, ops)
    ensures IsPath(Run(c, ops)) && Chronological(es, Run(c, ops).linked)
    decreases |ops|
  {
    if ops == [] {
    } else {
      var op := ops[0];
      if op.previous != c.last {
        LatestIsLast(es, c, if op.Single? then op.episode else "", op.previous);
      }
      ApplyKeepsTree(c, op);
      match op {
        case Single(previous, e) => LinkKeepsPathIffAtEnd(c, previous, e);
        case Batch(previous, batch) => LinkAllKeepsPath(c, previous, batch);
      }
      OrderedRunsArePaths(es, Apply(c, op), ops[1..]);
    }
  }

  // ---- Predecessors that are looked up ----

  /** The last episode linked is strictly later than every other one, which a caller can read off the saga. */
  predicate LastIsLatest(es: Episodes, linked: seq<Id>) {
    forall i | 0 <= i < |linked| - 1 ::
      linked[i] in es && linked[|linked| - 1] in es && !NotAfter(es[linked[|linked| - 1]], es[linked[i]])
  }

  lemma {:induction false} SomeLatest(es: Episodes, candidates: set<Id>) returns (p: Id)
    requires candidates != {} && forall e | e in candidates :: e in es
    ensures p in candidates && forall e | e in candidates :: NotAfter(es[e], es[p])
    decreases |candidates|
  {
    var x :| x in candidates;
    var rest := candidates - {x};
    p := x;
    if rest != {} {
      var q := SomeLatest(es, rest);
      if NotAfter(es[x], es[q]) {
        p := q;
      }
    }
    forall e | e in candidates ensures NotAfter(es[e], es[p]) {
      assert e == x || e in rest;
    }
  }

  /** If the last episode is the latest the query finds it. */
  lemma LookUpFindsLast(es: Episodes, c: Chain, exclude: Id, r: Option<Id>)
    requires Fields(c) && exclude !in c.linked && IsPrevious(es, c.linked, exclude, r) && LastIsLatest(es, c.linked)
    ensures r == c.last
  {
    if c.linked != [] {
      var n := |c.linked| - 1;
      assert c.linked[n] in c.linked;
      var p :| 0 <= p <= n && c.linked[p] == r.value;
      assert NotAfter(es[c.linked[n]], es[c.linked[p]]);
    }
  }

  /** If it is not, the query may answer with another one. */
  lemma LookUpMayMissLast(es: Episodes, c: Chain, exclude: Id) returns (r: Option<Id>)
    requires TreeShaped(c) && exclude !in c.linked && (forall e | e in c.linked :: e in es) && !LastIsLatest(es, c.linked)
    ensures IsPrevious(es, c.linked, exclude, r) && r != c.last
  {
    var n := |c.linked| - 1;
    var i :| 0 <= i < n && NotAfter(es[c.linked[n]], es[c.linked[i]]);
    var others := set j | 0 <= j < n :: c.linked[j];
    assert c.linked[i] in others;
    var p := SomeLatest(es, others);
    forall e | e in c.linked ensures NotAfter(es[e], es[p]) {
      assert e in others || e == c.linked[n];
      assert NotAfter(es[c.linked[i]], es[p]);
    }
    r := Some(p);
  }

  /** A call that leaves the predecessor to the query: one episode, or a batch in its sorted order. */
  datatype Call = OneEpisode(episode: Id) | ManyEpisodes(sorted: seq<Id>)

  function Brings(call: Call): seq<Id> {
    match call
    case OneEpisode(e) => [e]
    case ManyEpisodes(sorted) => sorted
  }

  /** The uuid that the predecessor query excludes. */
  function Excluded(call: Call): Id {
    match call
    case OneEpisode(e) => e
    case ManyEpisodes(_) => ""
  }

  function Perform(c: Chain, call: Call, previous: Option<Id>): Chain {
    match call
    case OneEpisode(e) => Link(c, previous, e)
    case ManyEpisodes(sorted) => LinkAll(c, previous, sorted)
  }

  function BringsAll(calls: seq<Call>): seq<Id> {
    if calls == [] then [] else Brings(calls[0]) + BringsAll(calls[1..])
  }

  /** A path before the calls and after each of them, whichever way the query breaks ties. */
  ghost predicate PathThroughout(es: Episodes, c: Chain, calls: seq<Call>)
    decreases |calls|
  {
    && IsPath(c)
    && (calls == [] || forall p | IsPrevious(es, c.linked, Excluded(calls[0]), p) ::
          PathThroughout(es, Perform(c, calls[0], p), calls[1..]))
  }

  /** Whenever a call brings something, the episode linked last before it is the latest. */
  predicate LastAlwaysLatest(es: Episodes, linked: seq<Id>, calls: seq<Call>)
    decreases |calls|
  {
    calls == [] ||
    ((Brings(calls[0]) != [] ==> LastIsLatest(es, linked)) && LastAlwaysLatest(es, linked + Brings(calls[0]), calls[1..]))
  }

  /** The calls bring known episodes, each of them once and none that is linked already. */
  predicate AllNew(es: Episodes, linked: seq<Id>, calls: seq<Call>) {
    Distinct(linked + BringsAll(calls)) && (forall e | e in linked + BringsAll(calls) :: e in es) && "" !in es
  }

  lemma NextNew(es: Episodes, linked: seq<Id>, calls: seq<Call>)
    requires AllNew(es, linked, calls) && calls != []
    ensures forall e | e in linked :: e in es
    ensures Excluded(calls[0]) !in linked
    ensures Distinct(Brings(calls[0])) && forall i | 0 <= i < |Brings(calls[0])| :: Brings(calls[0])[i] !in linked
    ensures AllNew(es, linked + Brings(calls[0]), calls[1..])
  {
    var brought, rest := Brings(calls[0]), BringsAll(calls[1..]);
    assert linked + BringsAll(calls) == linked + brought + rest;
    DistinctParts(linked + brought, rest);
    DistinctParts(linked, brought);
    assert forall e | e in linked :: e in linked + BringsAll(calls);
    if calls[0].OneEpisode? {
      assert brought[0] == calls[0].episode;
    }
  }

  lemma PerformLinks(c: Chain, call: Call, p: Option<Id>)
    ensures Perform(c, call, p).linked == c.linked + Brings(call)
  {
    if call.ManyEpisodes? {
      LinkAllLinks(c, p, call.sorted);
    }
  }

  /** What the query answers may be linked behind. */
  lemma LookedUpMayLink(es: Episodes, c: Chain, calls: seq<Call>, p: Option<Id>)
    requires AllNew(es, c.linked, calls) && calls != [] && IsPrevious(es, c.linked, Excluded(calls[0]), p)
    ensures MayLinkAll(c, p, Brings(calls[0]))
  {
    NextNew(es, c.linked, calls);
    assert c.linked == [] || c.linked[0] in c.linked;
  }

  lemma PerformKeepsPathIff(c: Chain, call: Call, p: Option<Id>)
    requires IsPath(c) && MayLinkAll(c, p, Brings(call))
    ensures IsPath(Perform(c, call, p)) <==> (Brings(call) != [] ==> p == c.last)
  {
    match call
    case OneEpisode(e) =>
      assert Brings(call)[0] == e;
      LinkKeepsPathIffAtEnd(c, p, e);
    case ManyEpisodes(sorted) =>
      if sorted != [] {
        LinkAllKeepsPathIffAtEnd(c, p, sorted);
      }
  }

  /**
   Where the predecessor is looked up, the chain stays one path, however ties are broken, exactly if
   before each call that brings something the episode linked last is strictly later, by reference and
   then creation time, than every other one linked.
   */
  lemma {:induction false} LookedUpRunsStayPathsIff(es: Episodes, c: Chain, calls: seq<Call>)
    requires IsPath(c) && AllNew(es, c.linked, calls)
    ensures PathThroughout(es, c, calls) <==> LastAlwaysLatest(es, c.linked, calls)
    decreases |calls|
  {
    if calls == [] {
    } else {
      var brought := Brings(calls[0]);
      NextNew(es, c.linked, calls);
      if brought != [] && !LastIsLatest(es, c.linked) {
        var p := LookUpMayMissLast(es, c, Excluded(calls[0]));
        LookedUpMayLink(es, c, calls, p);
        PerformKeepsPathIff(c, calls[0], p);
        assert !PathThroughout(es, Perform(c, calls[0], p), calls[1..]);
      } else {
        forall p | IsPrevious(es, c.linked, Excluded(calls[0]), p)
          ensures PathThroughout(es, Perform(c, calls[0], p), calls[1..])
             <==> LastAlwaysLatest(es, c.linked + brought, calls[1..])
        {
          LookedUpMayLink(es, c, calls, p);
          if brought != [] {
            LookUpFindsLast(es, c, Excluded(calls[0]), p);
          }
          PerformLinks(c, calls[0], p);
          PerformKeepsPathIff(c, calls[0], p);
          LookedUpRunsStayPathsIff(es, Perform(c, calls[0], p), calls[1..]);
        }
        var p := SomePrevious(es, c, Excluded(calls[0]));
      }
    }
  }

  lemma SomePrevious(es: Episodes, c: Chain, exclude: Id) returns (p: Option<Id>)
    requires exclude !in c.linked && forall e | e in c.linked :: e in es
    ensures IsPrevious(es, c.linked, exclude, p)
  {
    if c.linked == [] {
      p := None;
    } else {
      var candidates := set e | e in c.linked;
      assert c.linked[0] in candidates;
      var q := SomeLatest(es, candidates);
      assert forall e | e in c.linked :: e in candidates;
      p := Some(q);
    }
  }

  /** Each call brings only episodes later than all linked before, in time order. */
  predicate EachCallLater(es: Episodes, linked: seq<Id>, calls: seq<Call>)
    decreases |calls|
  {
    Chronological(es, linked) && (calls == [] || EachCallLater(es, linked + Brings(calls[0]), calls[1..]))
  }

  lemma ChronologicalAppend(es: Episodes, p: seq<Id>, q: seq<Id>)
    requires Chronological(es, p) && Chronological(es, q)
    requires forall i, j | 0 <= i < |p| && 0 <= j < |q| :: p[i] in es && q[j] in es && es[p[i]].validAt < es[q[j]].validAt
    ensures Chronological(es, p + q)
  {
  }

  lemma ChronologicalPrefix(es: Episodes, p: seq<Id>, q: seq<Id>)
    requires Chronological(es, p + q)
    ensures Chronological(es, p) && LastIsLatest(es, p)
  {
    var r := p + q;
    assert forall e | e in p :: e in r;
    assert forall i | 0 <= i < |p| :: r[i] == p[i];
  }

  lemma {:induction false} EachCallLaterIff(es: Episodes, linked: seq<Id>, calls: seq<Call>)
    ensures EachCallLater(es, linked, calls) <==> Chronological(es, linked + BringsAll(calls))
    decreases |calls|
  {
    if calls == [] {
      assert linked + [] == linked;
    } else {
      var rest := linked + Brings(calls[0]);
      assert linked + BringsAll(calls) == rest + BringsAll(calls[1..]);
      EachCallLaterIff(es, rest, calls[1..]);
      if Chronological(es, linked + BringsAll(calls)) {
        ChronologicalPrefix(es, linked, BringsAll(calls));
      }
    }
  }

  lemma {:induction false} LaterCallsFindLast(es: Episodes, linked: seq<Id>, calls: seq<Call>)
    requires EachCallLater(es, linked, calls)
    ensures LastAlwaysLatest(es, linked, calls)
    decreases |calls|
  {
    if calls == [] {
    } else {
      assert linked + [] == linked;
      ChronologicalPrefix(es, linked, []);
      LaterCallsFindLast(es, linked + Brings(calls[0]), calls[1..]);
    }
  }

  /** The chain stays one path in time order exactly if every call brings only later episodes, in time order. */
  lemma TimeOrderedPathIff(es: Episodes, c: Chain, calls: seq<Call>)
    requires IsPath(c) && AllNew(es, c.linked, calls)
    ensures PathThroughout(es, c, calls) && Chronological(es, c.linked + BringsAll(calls)) <==> EachCallLater(es, c.linked, calls)
  {
    EachCallLaterIff(es, c.linked, calls);
    LookedUpRunsStayPathsIff(es, c, calls);
    if EachCallLater(es, c.linked, calls) {
      LaterCallsFindLast(es, c.linked, calls);
    }
  }

  /** An out-of-order episode still joins at the end; it is the next call that branches off. */
  lemma OutOfOrderBranchesAtTheNextCall()
    ensures var es: Episodes := map["a" := Episode(1, 1), "b" := Episode(5, 2), "c" := Episode(3, 3), "d" := Episode(9, 4)];
      var two := Link(Link(NO_EPISODES, None, "a"), Some("a"), "b");
      var three := Link(two, Some("b"), "c");
      && IsPrevious(es, two.linked, "c", Some("b")) && IsPath(three)
      && IsPrevious(es, three.linked, "d", Some("b")) && !IsPath(Link(three, Some("b"), "d"))
  {
    var one := Link(NO_EPISODES, None, "a");
    var two := Link(one, Some("a"), "b");
    var three := Link(two, Some("b"), "c");
    LinkKeepsPathIffAtEnd(NO_EPISODES, None, "a");
    LinkKeepsPathIffAtEnd(one, Some("a"), "b");
    assert two.linked == ["a", "b"];
    LinkKeepsPathIffAtEnd(two, Some("b"), "c");
    assert three.linked == ["a", "b", "c"];
    LinkKeepsPathIffAtEnd(three, Some("b"), "d");
  }
}
