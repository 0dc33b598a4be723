/**
 The two watermarks of incremental saga summaries, over runs of ingestion and summarizing. Ingestion
 links episodes and saves the saga node its caller passed, watermarks included.
 */
module SagaSummary {
  import opened Options
  import opened Collections

  type Id = string

  /** A linked episode: its reference time, its creation time, and whether any content was stored. */
  datatype Episode = Episode(validAt: Option<int>, createdAt: int, hasContent: bool)

  const MAX_EPISODES := 200

  datatype Saga = Saga(
    links: seq<Id>,                       // targets of the saga's HAS_EPISODE edges, which may repeat
    episodes: map<Id, Episode>,           // the linked episodes
    lastSummarizedAt: Option<int>,        // wall clock
    lastEpisodeValidAt: Option<int>,      // reference time
    summarized: set<Id>,                  // episodes some summary has covered
    clock: int)

  /** What the next summary looks for. */
  function Unseen(s: Saga): set<Id> {
    set e | e in s.episodes && (s.lastSummarizedAt.Some? ==> s.episodes[e].createdAt > s.lastSummarizedAt.value)
  }

  /** Linked episodes that no summary has covered. */
  function Pending(s: Saga): set<Id> {
    s.episodes.Keys - s.summarized
  }

  /** `ORDER BY e.valid_at, e.created_at`, up to ties; a missing reference time sorts last. */
  predicate NotLater(a: Episode, b: Episode) {
    if a.validAt == b.validAt then a.createdAt <= b.createdAt
    else b.validAt.None? || (a.validAt.Some? && a.validAt.value < b.validAt.value)
  }

  /** In the order of the query, which is reversed for a first summary, `e` may come before `f`. */
  predicate MayPrecede(s: Saga, e: Id, f: Id)
    requires e in s.episodes && f in s.episodes
  {
    if s.lastSummarizedAt.Some? then NotLater(s.episodes[e], s.episodes[f]) else NotLater(s.episodes[f], s.episodes[e])
  }

  /** The rows the query matches: one for each link to an unseen episode, so two if it is linked twice. */
  function UnseenRows(s: Saga): set<nat> {
    set k: nat | k < |s.links| && s.links[k] in Unseen(s)
  }

  /** None of the rows in `rest` has to come before one in `rows`. */
  predicate Leads(s: Saga, rows: set<nat>, rest: set<nat>)
    requires rows <= UnseenRows(s) && rest <= UnseenRows(s)
  {
    forall k, l | k in rows && l in rest :: MayPrecede(s, s.links[k], s.links[l])
  }

  /** An answer of the episode query: the first `MAX_EPISODES` rows. */
  predicate IsFetch(s: Saga, rows: set<nat>) {
    && rows <= UnseenRows(s)
    && |rows| == (if |UnseenRows(s)| < MAX_EPISODES then |UnseenRows(s)| else MAX_EPISODES)
    && Leads(s, rows, UnseenRows(s) - rows)
  }

  /** The episodes that some rows show. */
  function Shown(s: Saga, rows: set<nat>): set<Id> {
    set k | k in rows && k < |s.links| :: s.links[k]
  }

  function WithContent(s: Saga, fetched: set<Id>): set<Id> {
    set e | e in fetched && e in s.episodes && s.episodes[e].hasContent
  }

  /** What a summary of these rows covers. */
  function Covered(s: Saga, rows: set<nat>): set<Id> {
    WithContent(s, Shown(s, rows))
  }

  function Ids(ids: seq<Id>): set<Id> {
    set e | e in ids
  }

  /** The episodes in `ids` that carry a reference time. */
  function Dated(s: Saga, ids: set<Id>): set<Id> {
    set e | e in ids && e in s.episodes && s.episodes[e].validAt.Some?
  }

  /** `w` is the latest reference time of the episodes in `ids`. */
  ghost predicate IsMax(s: Saga, ids: set<Id>, w: int) {
    && (exists e :: e in Dated(s, ids) && s.episodes[e].validAt.value == w)
    && (forall e | e in Dated(s, ids) :: s.episodes[e].validAt.value <= w)
  }

  /**
   `Ingest` links some episodes, new ones, ones that already exist in the graph with their old times,
   or ones that are linked already, and saves the node it was passed, whose two watermarks may differ
   from the stored ones. `Summarize` reads the given rows.
   */
  datatype Step =
    | Ingest(joins: seq<Id>, joining: map<Id, Episode>, filter: Option<int>, reference: Option<int>, now: int)
    | Summarize(rows: set<nat>, newest: int, now: int)

  /** An episode that is linked again keeps its times. */
  predicate SameTimes(a: Episode, b: Episode) {
    a.validAt == b.validAt && a.createdAt == b.createdAt
  }

  ghost predicate Enabled(s: Saga, step: Step) {
    && step.now >= s.clock
    && match step {
         case Ingest(joins, joining, _, _, now) =>
           && joining.Keys == Ids(joins)
           && forall e | e in joining :: joining[e].createdAt <= now && (e in s.episodes ==> SameTimes(joining[e], s.episodes[e]))
         case Summarize(rows, newest, _) =>
           IsFetch(s, rows) && (Dated(s, Covered(s, rows)) != {} ==> IsMax(s, Covered(s, rows), newest))
       }
  }

  function Apply(s: Saga, step: Step): Saga {
    match step
    case Ingest(joins, joining, filter, reference, now) =>
      if joins == [] then s.(clock := now)
      else
        s.(links := s.links + joins, episodes := s.episodes + joining, lastSummarizedAt := filter, lastEpisodeValidAt := reference, clock := now)
    case Summarize(rows, newest, now) =>
      var covered := Covered(s, rows);
      if covered == {} then s.(clock := now)
      else
        s.(lastSummarizedAt := Some(now),
           lastEpisodeValidAt :=
             if Dated(s, covered) != {} && (s.lastEpisodeValidAt.None? || newest > s.lastEpisodeValidAt.value) then Some(newest)
             else s.lastEpisodeValidAt,
           summarized := s.summarized + covered,
           clock := now)
  }

  function Start(now: int): Saga {
    Saga([], map[], None, None, {}, now)
  }

  ghost predicate Executable(s: Saga, steps: seq<Step>)
    decreases |steps|
  {
    steps == [] || (Enabled(s, steps[0]) && Executable(Apply(s, steps[0]), steps[1..]))
  }

  function Run(s: Saga, steps: seq<Step>): Saga
    decreases |steps|
  {
    if steps == [] then s else Run(Apply(s, steps[0]), steps[1..])
  }

  /** The saga after the first `i` steps. */
  function At(s: Saga, steps: seq<Step>, i: nat): Saga
    requires i <= |steps|
  {
    Run(s, steps[..i])
  }

  ghost predicate Inv(s: Saga) {
    && s.episodes.Keys == Ids(s.links) && s.summarized <= s.episodes.Keys
    && (forall e | e in s.episodes :: s.episodes[e].createdAt <= s.clock)
  }

  lemma StepKeeps(s: Saga, step: Step)
    requires Inv(s) && Enabled(s, step)
    ensures Inv(Apply(s, step))
    ensures forall e | e in s.episodes :: e in Apply(s, step).episodes && SameTimes(Apply(s, step).episodes[e], s.episodes[e])
  {
  }

  /** Step `i` of a run leads from its state before to its state after. */
  lemma {:induction false} StepOfRun(s: Saga, steps: seq<Step>, i: nat)
    requires Inv(s) && Executable(s, steps) && i < |steps|
    ensures Inv(At(s, steps, i)) && Enabled(At(s, steps, i), steps[i])
    ensures At(s, steps, i + 1) == Apply(At(s, steps, i), steps[i]) && Inv(At(s, steps, i + 1))
    decreases |steps|
  {
    var t := Apply(s, steps[0]);
    StepKeeps(s, steps[0]);
    assert steps[..i + 1][1..] == steps[1..][..i];
    if i == 0 {
      assert At(s, steps, 0) == s && At(t, steps[1..], 0) == t;
    } else {
      StepOfRun(t, steps[1..], i - 1);
      assert steps[..i][1..] == steps[1..][..i - 1];
      assert At(s, steps, i) == At(t, steps[1..], i - 1);
      assert At(s, steps, i + 1) == At(t, steps[1..], i);
    }
  }

  // ---- The reference-time watermark ----

  /** `a` is not before `b`; nothing is before a missing time. */
  predicate AtLeast(a: Option<int>, b: Option<int>) {
    b.Some? ==> a.Some? && a.value >= b.value
  }

  predicate Saves(step: Step) {
    step.Ingest? && step.joins != []
  }

  /** No ingestion writes back an older reference-time watermark than the one stored at that moment. */
  predicate NoLowerReference(s: Saga, steps: seq<Step>) {
    forall i | 0 <= i < |steps| && Saves(steps[i]) :: AtLeast(steps[i].reference, At(s, steps, i).lastEpisodeValidAt)
  }

  lemma {:induction false} ReferenceRises(s: Saga, steps: seq<Step>, i: nat, j: nat)
    requires Inv(s) && Executable(s, steps) && NoLowerReference(s, steps) && i <= j <= |steps|
    ensures AtLeast(At(s, steps, j).lastEpisodeValidAt, At(s, steps, i).lastEpisodeValidAt)
    decreases j
  {
    if i < j {
      ReferenceRises(s, steps, i, j - 1);
      StepOfRun(s, steps, j - 1);
    }
  }

  /** The reference-time watermark never goes back in a run exactly if no ingestion writes back an older one. */
  lemma WatermarkNeverDecreasesIff(s: Saga, steps: seq<Step>)
    requires Inv(s) && Executable(s, steps)
    ensures (forall i, j | 0 <= i <= j <= |steps| :: AtLeast(At(s, steps, j).lastEpisodeValidAt, At(s, steps, i).lastEpisodeValidAt))
       <==> NoLowerReference(s, steps)
  {
    if NoLowerReference(s, steps) {
      forall i, j | 0 <= i <= j <= |steps|
        ensures AtLeast(At(s, steps, j).lastEpisodeValidAt, At(s, steps, i).lastEpisodeValidAt)
      {
        ReferenceRises(s, steps, i, j);
      }
    } else {
      var i :| 0 <= i < |steps| && Saves(steps[i]) && !AtLeast(steps[i].reference, At(s, steps, i).lastEpisodeValidAt);
      StepOfRun(s, steps, i);
      assert !AtLeast(At(s, steps, i + 1).lastEpisodeValidAt, At(s, steps, i).lastEpisodeValidAt);
    }
  }

  /** The watermark is the latest reference time that any summary has covered. */
  ghost predicate Exact(s: Saga) {
    if s.lastEpisodeValidAt.None? then Dated(s, s.summarized) == {} else IsMax(s, s.summarized, s.lastEpisodeValidAt.value)
  }

  lemma MaxOfUnion(s: Saga, a: set<Id>, b: set<Id>, v: int, w: int)
    requires IsMax(s, a, v) && IsMax(s, b, w)
    ensures IsMax(s, a + b, if w > v then w else v)
  {
    var e :| e in Dated(s, a) && s.episodes[e].validAt.value == v;
    var f :| f in Dated(s, b) && s.episodes[f].validAt.value == w;
    assert e in Dated(s, a + b) && f in Dated(s, a + b);
  }

  lemma MaxWithUndated(s: Saga, a: set<Id>, b: set<Id>, v: int)
    requires Dated(s, b) == {}
    ensures IsMax(s, a + b, v) <==> IsMax(s, a, v)
  {
    assert forall e :: e in b ==> e !in Dated(s, b);
    assert Dated(s, a + b) == Dated(s, a);
  }

  lemma MaxSurvives(s: Saga, t: Saga, ids: set<Id>, w: int)
    requires ids <= s.episodes.Keys
    requires forall e | e in s.episodes :: e in t.episodes && SameTimes(t.episodes[e], s.episodes[e])
    ensures Dated(t, ids) == Dated(s, ids) && (IsMax(t, ids, w) <==> IsMax(s, ids, w))
  {
    assert Dated(t, ids) == Dated(s, ids);
    if e :| e in Dated(s, ids) && s.episodes[e].validAt.value == w {
      assert t.episodes[e].validAt.value == w;
    }
    if e :| e in Dated(t, ids) && t.episodes[e].validAt.value == w {
      assert s.episodes[e].validAt.value == w;
    }
  }

  lemma SummaryKeepsExact(s: Saga, step: Step)
    requires Inv(s) && Enabled(s, step) && Exact(s) && step.Summarize?
    ensures Exact(Apply(s, step))
  {
    var t, covered := Apply(s, step), Covered(s, step.rows);
    if covered != {} {
      MaxSurvives(s, t, s.summarized + covered, if t.lastEpisodeValidAt.Some? then t.lastEpisodeValidAt.value else 0);
      if Dated(s, covered) == {} {
        assert Dated(s, s.summarized + covered) == Dated(s, s.summarized) + Dated(s, covered);
        if s.lastEpisodeValidAt.Some? {
          MaxWithUndated(s, s.summarized, covered, s.lastEpisodeValidAt.value);
        }
      } else if s.lastEpisodeValidAt.Some? {
        MaxOfUnion(s, s.summarized, covered, s.lastEpisodeValidAt.value, step.newest);
      } else {
        assert covered + s.summarized == s.summarized + covered;
        MaxWithUndated(s, covered, s.summarized, step.newest);
      }
    }
  }

  lemma IngestKeepsExactIff(s: Saga, step: Step)
    requires Inv(s) && Enabled(s, step) && Exact(s) && step.Ingest?
    ensures Exact(Apply(s, step)) <==> (Saves(step) ==> step.reference == s.lastEpisodeValidAt)
  {
    if Saves(step) {
      var t := Apply(s, step);
      forall w ensures Dated(t, s.summarized) == Dated(s, s.summarized) && (IsMax(t, s.summarized, w) <==> IsMax(s, s.summarized, w)) {
        MaxSurvives(s, t, s.summarized, w);
      }
      if Exact(t) && step.reference.Some? && s.lastEpisodeValidAt.Some? {
        assert step.reference.value == s.lastEpisodeValidAt.value;
      }
    }
  }

  /** Every ingestion writes back the reference-time watermark that is stored at that moment. */
  predicate KeepsReference(s: Saga, steps: seq<Step>) {
    forall i | 0 <= i < |steps| && Saves(steps[i]) :: steps[i].reference == At(s, steps, i).lastEpisodeValidAt
  }

  lemma {:induction false} ExactAt(s: Saga, steps: seq<Step>, i: nat)
    requires Inv(s) && Executable(s, steps) && Exact(s) && KeepsReference(s, steps) && i <= |steps|
    ensures Exact(At(s, steps, i))
    decreases i
  {
    if i == 0 {
      assert At(s, steps, 0) == s;
    } else {
      ExactAt(s, steps, i - 1);
      StepOfRun(s, steps, i - 1);
      StepKeepsExact(At(s, steps, i - 1), steps[i - 1]);
    }
  }

  lemma StepKeepsExact(s: Saga, step: Step)
    requires Inv(s) && Enabled(s, step) && Exact(s) && (Saves(step) ==> step.reference == s.lastEpisodeValidAt)
    ensures Exact(Apply(s, step))
  {
    if step.Ingest? {
      IngestKeepsExactIff(s, step);
    } else {
      SummaryKeepsExact(s, step);
    }
  }

  /**
   Throughout a run the reference-time watermark is the maximum over every episode ever summarized
   exactly if every ingestion writes back the stored one.
   */
  lemma WatermarkIsMaximumIff(s: Saga, steps: seq<Step>)
    requires Inv(s) && Executable(s, steps) && Exact(s)
    ensures (forall i | 0 <= i <= |steps| :: Exact(At(s, steps, i))) <==> KeepsReference(s, steps)
  {
    if KeepsReference(s, steps) {
      forall i | 0 <= i <= |steps| ensures Exact(At(s, steps, i)) {
        ExactAt(s, steps, i);
      }
    } else {
      var i :| 0 <= i < |steps| && Saves(steps[i]) && steps[i].reference != At(s, steps, i).lastEpisodeValidAt;
      StepOfRun(s, steps, i);
      if Exact(At(s, steps, i)) {
        IngestKeepsExactIff(At(s, steps, i), steps[i]);
        assert !Exact(At(s, steps, i + 1));
      }
    }
  }

  // ---- Coverage ----

  /** The next summary's query reaches every pending episode. */
  ghost predicate NothingLost(s: Saga) {
    Pending(s) <= Unseen(s)
  }

  ghost predicate AllCovered(s: Saga) {
    Pending(s) == {}
  }

  predicate AfterFilter(e: Episode, filter: Option<int>) {
    filter.Some? ==> e.createdAt > filter.value
  }

  /** What a caller can check before linking: every episode not yet summarized was created after the filter watermark to be saved. */
  predicate LinksInTime(s: Saga, step: Step)
    requires step.Ingest?
  {
    Saves(step) ==>
      && (forall e | e in Pending(s) :: AfterFilter(s.episodes[e], step.filter))
      && (forall e | e in step.joining && e !in s.summarized :: AfterFilter(step.joining[e], step.filter))
  }

  /** The rows of other unseen episodes that may come before `e`. */
  function RowsAhead(s: Saga, e: Id): set<nat>
    requires e in s.episodes
  {
    set k | k in UnseenRows(s) && s.links[k] != e && MayPrecede(s, s.links[k], e)
  }

  /**
   What a caller can check before summarizing: every episode not yet summarized is unseen, has
   content, and has fewer than `MAX_EPISODES` rows of others ahead of it.
   */
  predicate FitsOneSummary(s: Saga) {
    forall e | e in Pending(s) :: e in Unseen(s) && s.episodes[e].hasContent && |RowsAhead(s, e)| < MAX_EPISODES
  }

  lemma RowOf(s: Saga, e: Id) returns (k: nat)
    requires Inv(s) && e in Unseen(s)
    ensures k in UnseenRows(s) && s.links[k] == e
  {
    assert e in Ids(s.links);
    k :| k < |s.links| && s.links[k] == e;
  }

  lemma MayPrecedeThrough(s: Saga, e: Id, f: Id, g: Id)
    requires e in s.episodes && f in s.episodes && g in s.episodes
    ensures MayPrecede(s, e, f) && MayPrecede(s, f, g) ==> MayPrecede(s, e, g)
    ensures MayPrecede(s, e, f) || MayPrecede(s, f, e)
  {
  }

  /** Of any rows one comes first. */
  lemma {:induction false} FirstRow(s: Saga, rows: set<nat>) returns (first: nat)
    requires rows != {} && rows <= UnseenRows(s)
    ensures first in rows && forall k | k in rows :: MayPrecede(s, s.links[first], s.links[k])
    decreases |rows|
  {
    var k :| k in rows;
    var others := rows - {k};
    if others == {} {
      first := k;
      assert rows == {k};
      MayPrecedeThrough(s, s.links[k], s.links[k], s.links[k]);
    } else {
      var l := FirstRow(s, others);
      first := if MayPrecede(s, s.links[k], s.links[l]) then k else l;
      forall m | m in rows ensures MayPrecede(s, s.links[first], s.links[m]) {
        MayPrecedeThrough(s, s.links[k], s.links[l], s.links[m]);
        MayPrecedeThrough(s, s.links[k], s.links[k], s.links[m]);
        assert m == k || m in others;
      }
    }
  }

  /** The first `n` of some rows. */
  lemma {:induction false} FirstRows(s: Saga, rows: set<nat>, n: nat) returns (first: set<nat>)
    requires rows <= UnseenRows(s) && n <= |rows|
    ensures first <= rows && |first| == n && Leads(s, first, rows - first)
    decreases n
  {
    if n == 0 {
      first := {};
    } else {
      var k := FirstRow(s, rows);
      var others := FirstRows(s, rows - {k}, n - 1);
      first := others + {k};
      assert rows - first == rows - {k} - others;
    }
  }

  lemma SomeFetch(s: Saga) returns (rows: set<nat>)
    ensures IsFetch(s, rows)
  {
    var all := UnseenRows(s);
    rows := FirstRows(s, all, if |all| < MAX_EPISODES then |all| else MAX_EPISODES);
  }

  /** What the query matches, in the episodes' own fields. */
  predicate Matches(s: Saga, k: nat) {
    && k < |s.links| && s.links[k] in s.episodes
    && (s.lastSummarizedAt.Some? ==> s.episodes[s.links[k]].createdAt > s.lastSummarizedAt.value)
  }

  /**
   An answer has only rows that match, and leaves one out only if it has 200 that come first: the oldest
   for an incremental summary, those without a reference time last, and the latest for a first one.
   */
  lemma FetchIs(s: Saga, rows: set<nat>, k: nat, l: nat)
    requires IsFetch(s, rows)
    ensures |rows| <= 200 && (k in rows ==> Matches(s, k)) && (Matches(s, l) && l !in rows ==> |rows| == 200)
    ensures k in rows && Matches(s, l) && l !in rows ==>
      if s.lastSummarizedAt.Some? then Ascends(s.episodes[s.links[k]], s.episodes[s.links[l]])
      else Ascends(s.episodes[s.links[l]], s.episodes[s.links[k]])
  {
    if Matches(s, l) && l !in rows {
      assert l in UnseenRows(s);
      SubsetSize(rows + {l}, UnseenRows(s));
      if k in rows {
        assert MayPrecede(s, s.links[k], s.links[l]);
      }
    }
  }

  /** `a` has no later reference time than `b`, a missing one counting as latest, nor a later creation time where those are equal. */
  predicate Ascends(a: Episode, b: Episode) {
    && (a.validAt.None? ==> b.validAt.None?)
    && (a.validAt.Some? && b.validAt.Some? ==> a.validAt.value <= b.validAt.value)
    && (a.validAt == b.validAt ==> a.createdAt <= b.createdAt)
  }

  /** With enough rows of others ahead, some answer leaves `e` out. */
  lemma FetchWithout(s: Saga, e: Id) returns (rows: set<nat>)
    requires Inv(s) && e in Unseen(s) && |RowsAhead(s, e)| >= MAX_EPISODES
    ensures IsFetch(s, rows) && e !in Shown(s, rows)
  {
    var ahead := RowsAhead(s, e);
    rows := FirstRows(s, ahead, MAX_EPISODES);
    SubsetSize(ahead, UnseenRows(s));
    forall k, l | k in rows && l in UnseenRows(s) - rows ensures MayPrecede(s, s.links[k], s.links[l]) {
      if l !in ahead {
        MayPrecedeThrough(s, s.links[k], e, s.links[l]);
        MayPrecedeThrough(s, e, s.links[l], e);
      }
    }
  }

  /** An unseen episode is shown by every answer of the query exactly if fewer than `MAX_EPISODES` rows of others may come before it. */
  lemma AlwaysShownIff(s: Saga, e: Id)
    requires Inv(s) && e in Unseen(s)
    ensures (forall rows | IsFetch(s, rows) :: e in Shown(s, rows)) <==> |RowsAhead(s, e)| < MAX_EPISODES
  {
    if |RowsAhead(s, e)| < MAX_EPISODES {
      forall rows | IsFetch(s, rows) ensures e in Shown(s, rows) {
        if e !in Shown(s, rows) {
          FetchedAhead(s, e, rows);
        }
      }
    } else {
      var rows := FetchWithout(s, e);
    }
  }

  /** An answer that does not show `e` is full of rows ahead of it. */
  lemma FetchedAhead(s: Saga, e: Id, rows: set<nat>)
    requires Inv(s) && e in Unseen(s) && IsFetch(s, rows) && e !in Shown(s, rows)
    ensures |RowsAhead(s, e)| >= MAX_EPISODES
  {
    var k := RowOf(s, e);
    assert k !in rows;
    SubsetSize(rows, UnseenRows(s));
    forall l | l in rows ensures l in RowsAhead(s, e) {
      assert s.links[l] in Shown(s, rows);
    }
    SubsetSize(rows, RowsAhead(s, e));
  }

  /** If all rows fit into one query, every unseen episode is reached. */
  lemma FewRowsFit(s: Saga, e: Id)
    requires Inv(s) && e in Unseen(s) && |UnseenRows(s)| <= MAX_EPISODES
    ensures |RowsAhead(s, e)| < MAX_EPISODES
  {
    var k := RowOf(s, e);
    SubsetSize(RowsAhead(s, e), UnseenRows(s));
  }

  lemma SummaryShrinksPending(s: Saga, rows: set<nat>, newest: int, now: int)
    ensures Pending(Apply(s, Summarize(rows, newest, now))) == Pending(s) - Covered(s, rows)
  {
  }

  /** Every answer of the query can be summarized. */
  lemma {:induction false} SomeMax(s: Saga, ids: set<Id>) returns (w: int)
    ensures Dated(s, ids) != {} ==> IsMax(s, ids, w)
    decreases |Dated(s, ids)|
  {
    var dated := Dated(s, ids);
    if dated == {} {
      w := 0;
    } else {
      var e :| e in dated;
      var others := dated - {e};
      assert Dated(s, others) == others;
      assert dated == others + {e};
      w := SomeMax(s, others);
      var v := s.episodes[e].validAt.value;
      if others == {} || v > w {
        w := v;
        assert e in Dated(s, ids) && s.episodes[e].validAt.value == w;
      } else {
        var f :| f in Dated(s, others) && s.episodes[f].validAt.value == w;
        assert f in Dated(s, ids);
      }
      forall f | f in Dated(s, ids) ensures s.episodes[f].validAt.value <= w {
        assert f == e || f in Dated(s, others);
      }
    }
  }

  lemma SummaryOf(s: Saga, rows: set<nat>) returns (step: Step)
    requires IsFetch(s, rows)
    ensures step.Summarize? && step.rows == rows && Enabled(s, step)
  {
    var newest := SomeMax(s, Covered(s, rows));
    step := Summarize(rows, newest, s.clock);
  }

  /** Whatever the query answers, the summary leaves no linked episode out. */
  ghost predicate SummaryCoversAll(s: Saga) {
    forall step: Step | step.Summarize? && Enabled(s, step) :: AllCovered(Apply(s, step))
  }

  /**
   A summary leaves no linked episode out, backfilled ones included and however the query breaks ties,
   exactly if every pending episode is unseen, has content and has fewer than `MAX_EPISODES` rows of
   others ahead of it.
   */
  lemma SummaryCoversAllIff(s: Saga)
    requires Inv(s)
    ensures SummaryCoversAll(s) <==> FitsOneSummary(s)
  {
    if FitsOneSummary(s) {
      forall step: Step | step.Summarize? && Enabled(s, step) ensures AllCovered(Apply(s, step)) {
        SummaryShrinksPending(s, step.rows, step.newest, step.now);
        forall e | e in Pending(s) ensures e in Covered(s, step.rows) {
          AlwaysShownIff(s, e);
        }
      }
    }
    if SummaryCoversAll(s) {
      forall rows | IsFetch(s, rows) ensures Pending(s) <= Covered(s, rows) {
        var step := SummaryOf(s, rows);
        SummaryShrinksPending(s, rows, step.newest, step.now);
        assert forall e | e in Pending(s) :: e in Covered(s, rows) || e in Pending(Apply(s, step));
      }
      var some := SomeFetch(s);
      forall e | e in Pending(s) ensures e in Unseen(s) && s.episodes[e].hasContent && |RowsAhead(s, e)| < MAX_EPISODES {
        assert e in Covered(s, some);
        AlwaysShownIff(s, e);
      }
    }
  }

  /** Row `k` shows an episode with content. */
  predicate ShowsContent(s: Saga, k: nat) {
    k < |s.links| && s.links[k] in s.episodes && s.episodes[s.links[k]].hasContent
  }

  lemma CoveredByRow(s: Saga, rows: set<nat>)
    ensures forall k | k in rows && ShowsContent(s, k) :: s.links[k] in Covered(s, rows)
    ensures forall e | e in Covered(s, rows) :: exists k :: k in rows && ShowsContent(s, k) && s.links[k] == e
  {
    forall k | k in rows && ShowsContent(s, k) ensures s.links[k] in Covered(s, rows) {
      assert s.links[k] in Shown(s, rows);
    }
  }

  /**
   What a summary does, row by row. Without any content it changes nothing. With some, the filter becomes
   the wall clock, and the reference-time watermark moves forward to the latest time among the rows with
   content, if that is later.
   */
  lemma SummaryMeans(s: Saga, step: Step)
    requires Enabled(s, step) && step.Summarize?
    ensures (forall k | k in step.rows :: !ShowsContent(s, k)) ==> Apply(s, step) == s.(clock := step.now)
    ensures (exists k :: k in step.rows && ShowsContent(s, k)) ==>
      && Apply(s, step).lastSummarizedAt == Some(step.now)
      && MovesForward(s, step.rows, Apply(s, step).lastEpisodeValidAt)
  {
    CoveredByRow(s, step.rows);
    if k :| k in step.rows && ShowsContent(s, k) {
      assert s.links[k] in Covered(s, step.rows);
      WatermarkMovesForward(s, step);
    }
  }

  /** The latest of the stored watermark and the reference times of the rows with content. */
  ghost predicate MovesForward(s: Saga, rows: set<nat>, mark: Option<int>) {
    && AtLeast(mark, s.lastEpisodeValidAt)
    && (forall k | k in rows && ShowsContent(s, k) :: AtLeast(mark, s.episodes[s.links[k]].validAt))
    && (mark == s.lastEpisodeValidAt || exists k :: k in rows && ShowsContent(s, k) && s.episodes[s.links[k]].validAt == mark)
  }

  lemma WatermarkMovesForward(s: Saga, step: Step)
    requires Enabled(s, step) && step.Summarize? && Covered(s, step.rows) != {}
    ensures MovesForward(s, step.rows, Apply(s, step).lastEpisodeValidAt)
  {
    var covered, mark := Covered(s, step.rows), Apply(s, step).lastEpisodeValidAt;
    CoveredByRow(s, step.rows);
    forall k | k in step.rows && ShowsContent(s, k) ensures AtLeast(mark, s.episodes[s.links[k]].validAt) {
      assert s.episodes[s.links[k]].validAt.Some? ==> s.links[k] in Dated(s, covered);
    }
    if mark != s.lastEpisodeValidAt {
      var e :| e in Dated(s, covered) && s.episodes[e].validAt.value == step.newest;
    }
  }

  /** There is no middle: a summary that reads some content loses nothing exactly if it leaves nothing out. */
  lemma SummaryLosesNothingIff(s: Saga, step: Step)
    requires Inv(s) && NothingLost(s) && Enabled(s, step) && step.Summarize?
    ensures NothingLost(Apply(s, step)) <==> Covered(s, step.rows) == {} || AllCovered(Apply(s, step))
  {
    var t := Apply(s, step);
    if Covered(s, step.rows) != {} {
      assert Unseen(t) == {};
    }
  }

  lemma IngestLosesNothingIff(s: Saga, step: Step)
    requires Inv(s) && NothingLost(s) && Enabled(s, step) && step.Ingest?
    ensures NothingLost(Apply(s, step)) <==> LinksInTime(s, step)
  {
    var t := Apply(s, step);
    if Saves(step) {
      if NothingLost(t) {
        forall e | e in Pending(s) ensures AfterFilter(s.episodes[e], step.filter) {
          assert e in Pending(t);
        }
        forall e | e in step.joining && e !in s.summarized ensures AfterFilter(step.joining[e], step.filter) {
          assert e in Pending(t);
        }
      }
    }
  }

  /** Each ingestion links in time, and each summary finds a fitting saga. */
  predicate WellTimed(s: Saga, steps: seq<Step>) {
    forall i | 0 <= i < |steps| ::
      if steps[i].Ingest? then LinksInTime(At(s, steps, i), steps[i]) else FitsOneSummary(At(s, steps, i))
  }

  /** Nothing is lost at any moment, and no summary can leave anything out. */
  ghost predicate CoversThroughout(s: Saga, steps: seq<Step>) {
    && (forall i | 0 <= i <= |steps| :: NothingLost(At(s, steps, i)))
    && (forall i | 0 <= i < |steps| && steps[i].Summarize? :: SummaryCoversAll(At(s, steps, i)))
  }

  lemma StepCoversIff(s: Saga, step: Step)
    requires Inv(s) && NothingLost(s) && Enabled(s, step)
    ensures NothingLost(Apply(s, step)) && (step.Summarize? ==> SummaryCoversAll(s))
       <==> if step.Ingest? then LinksInTime(s, step) else FitsOneSummary(s)
  {
    if step.Ingest? {
      IngestLosesNothingIff(s, step);
    } else {
      SummaryCoversAllIff(s);
      SummaryLosesNothingIff(s, step);
    }
  }

  lemma {:induction false} WellTimedLosesNothing(s: Saga, steps: seq<Step>, i: nat)
    requires Inv(s) && Executable(s, steps) && NothingLost(s) && WellTimed(s, steps) && i <= |steps|
    ensures NothingLost(At(s, steps, i))
    decreases i
  {
    if i == 0 {
      assert At(s, steps, 0) == s;
    } else {
      WellTimedLosesNothing(s, steps, i - 1);
      StepOfRun(s, steps, i - 1);
      StepCoversIff(At(s, steps, i - 1), steps[i - 1]);
    }
  }

  /**
   Over a whole run, whatever watermarks ingestion saves, no linked episode is ever lost and no summary
   can leave one out exactly if every ingestion links in time and every summary finds each pending
   episode with content and fewer than `MAX_EPISODES` rows of others ahead of it.
   */
  lemma EverySummaryCoversAllIff(s: Saga, steps: seq<Step>)
    requires Inv(s) && Executable(s, steps) && NothingLost(s)
    ensures CoversThroughout(s, steps) <==> WellTimed(s, steps)
  {
    if WellTimed(s, steps) {
      forall i | 0 <= i <= |steps| ensures NothingLost(At(s, steps, i)) {
        WellTimedLosesNothing(s, steps, i);
      }
      forall i | 0 <= i < |steps| && steps[i].Summarize? ensures SummaryCoversAll(At(s, steps, i)) {
        StepOfRun(s, steps, i);
        SummaryCoversAllIff(At(s, steps, i));
      }
    }
    if CoversThroughout(s, steps) {
      forall i | 0 <= i < |steps|
        ensures if steps[i].Ingest? then LinksInTime(At(s, steps, i), steps[i]) else FitsOneSummary(At(s, steps, i))
      {
        StepOfRun(s, steps, i);
        StepCoversIff(At(s, steps, i), steps[i]);
        assert NothingLost(At(s, steps, i + 1));
      }
    }
  }

  /** An episode no summary has covered and no query will return. */
  predicate Lost(s: Saga, e: Id) {
    e in Pending(s) && e !in Unseen(s)
  }

  lemma StepKeepsLostIff(s: Saga, step: Step, e: Id)
    requires Inv(s) && Enabled(s, step) && Lost(s, e)
    ensures Lost(Apply(s, step), e) <==> (Saves(step) ==> step.filter.Some? && step.filter.value >= s.episodes[e].createdAt)
  {
  }

  /** Every filter watermark written back lies at or after `createdAt`. */
  predicate FilterStays(steps: seq<Step>, createdAt: int) {
    forall i | 0 <= i < |steps| && Saves(steps[i]) :: steps[i].filter.Some? && steps[i].filter.value >= createdAt
  }

  lemma {:induction false} LostAt(s: Saga, steps: seq<Step>, e: Id, i: nat)
    requires Inv(s) && Executable(s, steps) && Lost(s, e) && i <= |steps|
    requires FilterStays(steps, s.episodes[e].createdAt)
    ensures Lost(At(s, steps, i), e) && At(s, steps, i).episodes[e].createdAt == s.episodes[e].createdAt
    decreases i
  {
    if i == 0 {
      assert At(s, steps, 0) == s;
    } else {
      LostAt(s, steps, e, i - 1);
      StepOfRun(s, steps, i - 1);
      StepKeeps(At(s, steps, i - 1), steps[i - 1]);
      StepKeepsLostIff(At(s, steps, i - 1), steps[i - 1], e);
    }
  }

  lemma {:induction false} TimesStay(s: Saga, steps: seq<Step>, e: Id, i: nat)
    requires Inv(s) && Executable(s, steps) && e in s.episodes && i <= |steps|
    ensures e in At(s, steps, i).episodes && SameTimes(At(s, steps, i).episodes[e], s.episodes[e])
    decreases i
  {
    if i == 0 {
      assert At(s, steps, 0) == s;
    } else {
      TimesStay(s, steps, e, i - 1);
      StepOfRun(s, steps, i - 1);
      StepKeeps(At(s, steps, i - 1), steps[i - 1]);
    }
  }

  /**
   An episode that a summary passed over, or that was linked too late, stays unsummarized and out of
   reach throughout a run exactly if no ingestion resets the filter watermark to before its creation.
   */
  lemma LostForeverIff(s: Saga, steps: seq<Step>, e: Id)
    requires Inv(s) && Executable(s, steps) && Lost(s, e)
    ensures (forall i | 0 <= i <= |steps| :: Lost(At(s, steps, i), e)) <==> FilterStays(steps, s.episodes[e].createdAt)
  {
    if FilterStays(steps, s.episodes[e].createdAt) {
      forall i | 0 <= i <= |steps| ensures Lost(At(s, steps, i), e) {
        LostAt(s, steps, e, i);
      }
    } else {
      var i :| 0 <= i < |steps| && Saves(steps[i]) && !(steps[i].filter.Some? && steps[i].filter.value >= s.episodes[e].createdAt);
      StepOfRun(s, steps, i);
      TimesStay(s, steps, e, i);
      if Lost(At(s, steps, i), e) {
        StepKeepsLostIff(At(s, steps, i), steps[i], e);
        assert !Lost(At(s, steps, i + 1), e);
      }
    }
  }

  // ---- Concrete runs in which the conditions fail ----

  function One(e: Id, validAt: int, createdAt: int, hasContent: bool): map<Id, Episode> {
    map[e := Episode(Some(validAt), createdAt, hasContent)]
  }

  /** "a" has been ingested at time 1 and summarized at time 3. */
  function SummarizedOnce(): Saga {
    Saga(["a"], One("a", 5, 1, true), Some(3), Some(5), {"a"}, 3)
  }

  function IngestedOnce(): Saga {
    Saga(["a"], One("a", 5, 1, true), None, None, {}, 1)
  }

  lemma IngestedOnceIsReached()
    ensures var step := Ingest(["a"], One("a", 5, 1, true), None, None, 1);
      Enabled(Start(0), step) && Apply(Start(0), step) == IngestedOnce()
  {
    assert [] + ["a"] == ["a"] && map[] + One("a", 5, 1, true) == One("a", 5, 1, true);
  }

  lemma SummarizedOnceIsReached()
    ensures Enabled(IngestedOnce(), Summarize({0}, 5, 3)) && Apply(IngestedOnce(), Summarize({0}, 5, 3)) == SummarizedOnce()
  {
    var s := IngestedOnce();
    assert Unseen(s) == {"a"} && UnseenRows(s) == {0};
    assert UnseenRows(s) - {0} == {};
    assert s.links[0] in Shown(s, {0});
    assert Covered(s, {0}) == {"a"};
    assert "a" in Dated(s, {"a"}) && s.episodes["a"].validAt.value == 5;
  }

  /** An episode created at time 2 and linked by its uuid only after that summary is lost, though it has content. */
  lemma ExistingEpisodeIsMissed()
    ensures var step := Ingest(["b"], One("b", 7, 2, true), Some(3), Some(5), 4);
      Enabled(SummarizedOnce(), step) && !LinksInTime(SummarizedOnce(), step) && Lost(Apply(SummarizedOnce(), step), "b")
  {
    var joining := One("b", 7, 2, true);
    assert "b" in joining && Ids(["b"]) == {"b"};
    assert "b" !in SummarizedOnce().summarized && !AfterFilter(joining["b"], Some(3));
  }

  /** A saga node fetched before that summary takes the watermark back when it is saved. */
  lemma StaleNodeLowersWatermark()
    ensures var step := Ingest(["b"], One("b", 7, 4, true), None, None, 4);
      && Enabled(SummarizedOnce(), step)
      && !AtLeast(Apply(SummarizedOnce(), step).lastEpisodeValidAt, SummarizedOnce().lastEpisodeValidAt)
      && "a" in Unseen(Apply(SummarizedOnce(), step))
  {
    assert "b" in One("b", 7, 4, true) && Ids(["b"]) == {"b"};
  }

  /** Then "b" and "c" are linked at time 4, "c" without content. */
  function OneEmpty(): Saga {
    Saga(["a", "b", "c"], map["a" := Episode(Some(5), 1, true), "b" := Episode(Some(7), 4, true), "c" := Episode(Some(6), 4, false)],
         Some(3), Some(5), {"a"}, 4)
  }

  lemma OneEmptyIsReached()
    ensures var step := Ingest(["b", "c"], One("b", 7, 4, true) + One("c", 6, 4, false), Some(3), Some(5), 4);
      Enabled(SummarizedOnce(), step) && Apply(SummarizedOnce(), step) == OneEmpty()
  {
    assert Ids(["b", "c"]) == {"b", "c"};
    assert ["a"] + ["b", "c"] == ["a", "b", "c"];
  }

  /** A summary of the two new episodes passes the empty one over. */
  lemma EmptyEpisodeIsPassedOver()
    ensures Enabled(OneEmpty(), Summarize({1, 2}, 7, 5)) && Lost(Apply(OneEmpty(), Summarize({1, 2}, 7, 5)), "c")
  {
    var s := OneEmpty();
    assert Unseen(s) == {"b", "c"} && UnseenRows(s) == {1, 2};
    assert UnseenRows(s) - {1, 2} == {};
    assert s.links[1] in Shown(s, {1, 2});
    assert Covered(s, {1, 2}) == {"b"};
    assert "b" in Dated(s, {"b"}) && s.episodes["b"].validAt.value == 7;
  }

  /** Linking an episode once more with the stored watermarks. */
  function Relink(s: Saga, x: Id): Step
    requires x in s.episodes
  {
    Ingest([x], map[x := s.episodes[x]], s.lastSummarizedAt, s.lastEpisodeValidAt, s.clock)
  }

  lemma RelinkIs(s: Saga, x: Id)
    requires Inv(s) && x in s.episodes
    ensures Enabled(s, Relink(s, x)) && Apply(s, Relink(s, x)) == s.(links := s.links + [x])
    ensures NothingLost(s) ==> LinksInTime(s, Relink(s, x))
  {
    assert s.episodes + map[x := s.episodes[x]] == s.episodes;
  }

  /** A second link takes up a row ahead of every episode that may come after it. */
  lemma RelinkTakesARow(s: Saga, x: Id, e: Id)
    requires Inv(s) && x in Unseen(s) && e in s.episodes && x != e && MayPrecede(s, x, e)
    ensures |RowsAhead(Apply(s, Relink(s, x)), e)| == |RowsAhead(s, e)| + 1
  {
    RelinkIs(s, x);
    var t := s.(links := s.links + [x]);
    assert Unseen(t) == Unseen(s);
    forall k ensures k in RowsAhead(t, e) <==> k in RowsAhead(s, e) || k == |s.links| {
      assert 0 <= k < |s.links| ==> t.links[k] == s.links[k];
    }
    assert RowsAhead(t, e) == RowsAhead(s, e) + {|s.links|};
  }

  /** Of a saga at the limit, linking an unseen episode again, in time as it is, lets a summary lose another one. */
  lemma LinkingTwiceCutsOneOff(s: Saga, x: Id, e: Id)
    requires Inv(s) && NothingLost(s) && x in Unseen(s) && e in Pending(s) && x != e && MayPrecede(s, x, e)
    requires |RowsAhead(s, e)| == MAX_EPISODES - 1
    ensures Enabled(s, Relink(s, x)) && LinksInTime(s, Relink(s, x))
    ensures !FitsOneSummary(Apply(s, Relink(s, x))) && !SummaryCoversAll(Apply(s, Relink(s, x)))
  {
    RelinkIs(s, x);
    RelinkTakesARow(s, x, e);
    StepKeeps(s, Relink(s, x));
    assert e in Pending(Apply(s, Relink(s, x)));
    SummaryCoversAllIff(Apply(s, Relink(s, x)));
  }

  /** Episode number `k`, told apart by the length of its name. */
  function Name(k: nat): (name: Id)
    ensures |name| == k
  {
    seq(k, _ => 'x')
  }

  function Names(n: nat): (names: seq<Id>)
    ensures |names| == n && forall k | 0 <= k < n :: names[k] == Name(k)
  {
    seq(n, (k: nat) => Name(k))
  }

  /** `n` new episodes in time order. */
  function First(n: nat): Step {
    Ingest(Names(n), map e | e in Ids(Names(n)) :: Episode(Some(|e|), 1, true), None, None, 1)
  }

  function Range(lo: nat, hi: nat): (r: set<nat>)
    requires lo <= hi
    ensures |r| == hi - lo && forall k :: k in r <==> lo <= k < hi
    decreases hi
  {
    if lo == hi then {} else Range(lo, hi - 1) + {hi - 1}
  }

  /** `n` episodes in time order, none of them summarized yet. */
  ghost predicate InTimeOrder(s: Saga, n: nat) {
    && Inv(s) && |s.links| == n && s.summarized == {} && s.lastSummarizedAt.None?
    && forall k | 0 <= k < n :: s.links[k] in s.episodes && s.episodes[s.links[k]] == Episode(Some(k), 1, true)
  }

  lemma FirstIsInTimeOrder(n: nat)
    requires n >= 1
    ensures Enabled(Start(0), First(n)) && InTimeOrder(Apply(Start(0), First(n)), n)
  {
    var s := Apply(Start(0), First(n));
    StepKeeps(Start(0), First(n));
    assert s.links == Names(n);
    forall k | 0 <= k < n ensures s.links[k] in s.episodes && s.episodes[s.links[k]] == Episode(Some(k), 1, true) {
      assert Names(n)[k] in Ids(Names(n));
    }
  }

  lemma InTimeOrderFits(s: Saga, n: nat)
    requires InTimeOrder(s, n) && n <= MAX_EPISODES
    ensures NothingLost(s) && FitsOneSummary(s)
  {
    SubsetSize(UnseenRows(s), Range(0, n));
    forall e | e in Pending(s) ensures e in Unseen(s) && s.episodes[e].hasContent && |RowsAhead(s, e)| < MAX_EPISODES {
      var k :| 0 <= k < n && s.links[k] == e;
      FewRowsFit(s, e);
    }
  }

  lemma AheadInTimeOrder(s: Saga, n: nat)
    requires InTimeOrder(s, n) && n >= 2
    ensures s.links[n - 1] in Unseen(s) && s.links[0] in Pending(s) && s.links[n - 1] != s.links[0]
    ensures MayPrecede(s, s.links[n - 1], s.links[0]) && |RowsAhead(s, s.links[0])| == n - 1
  {
    forall k ensures k in RowsAhead(s, s.links[0]) <==> k in Range(1, n) {
      assert 0 <= k < n ==> s.episodes[s.links[k]] == Episode(Some(k), 1, true);
    }
    assert RowsAhead(s, s.links[0]) == Range(1, n);
  }

  /** The first `MAX_EPISODES` episodes of a saga fit one summary, until any one of them, the latest say, is linked again. */
  lemma FirstEpisodesReachTheLimit(n: nat)
    requires n == 200
    ensures Enabled(Start(0), First(n))
    ensures var s := Apply(Start(0), First(n));
      && Inv(s) && |s.links| == n && FitsOneSummary(s) && s.links[n - 1] in s.episodes
      && Enabled(s, Relink(s, s.links[n - 1])) && LinksInTime(s, Relink(s, s.links[n - 1]))
      && !SummaryCoversAll(Apply(s, Relink(s, s.links[n - 1])))
  {
    var s := Apply(Start(0), First(n));
    FirstIsInTimeOrder(n);
    InTimeOrderFits(s, n);
    AheadInTimeOrder(s, n);
    LinkingTwiceCutsOneOff(s, s.links[n - 1], s.links[0]);
  }

  /** `n` more episodes in time order, after the first summary. */
  function More(n: nat): Step {
    Ingest(Names(n), map e | e in Ids(Names(n)) :: Episode(Some(|e|), 4, true), Some(3), Some(5), 4)
  }

  lemma MoreAreInTimeOrder(n: nat)
    requires n >= 1
    ensures Enabled(SummarizedOnce(), More(n))
    ensures MoreInTimeOrder(Apply(SummarizedOnce(), More(n)), n)
  {
    var s := Apply(SummarizedOnce(), More(n));
    assert forall k | 0 <= k < n :: Names(n)[k] in Ids(Names(n));
    assert "a" !in Ids(Names(n)) by {
      assert forall k: nat | k == 1 :: Name(k)[0] == 'x';
      assert forall k | 0 <= k < n :: |Names(n)[k]| == k;
    }
    assert Inv(SummarizedOnce()) by {
      assert Ids(["a"]) == {"a"};
    }
    StepKeeps(SummarizedOnce(), More(n));
    assert s.links == ["a"] + Names(n);
    forall k | 1 <= k <= n
      ensures s.links[k] == Name(k - 1) && s.links[k] != "a"
      ensures s.links[k] in s.episodes && s.episodes[s.links[k]] == Episode(Some(k - 1), 4, true)
    {
      assert s.links[k] == Names(n)[k - 1];
    }
    assert s.links[0] == "a" && s.episodes["a"] == Episode(Some(5), 1, true);
    assert UnseenRows(s) == Range(1, n + 1);
  }

  /** Of 201 episodes that follow a summary the next one always takes the oldest 200, and the latest is lost. */
  lemma LaterEpisodesReachTheLimit(n: nat, step: Step)
    requires n == 201 && step.Summarize?
    ensures Enabled(SummarizedOnce(), More(n))
    ensures var s := Apply(SummarizedOnce(), More(n));
      Enabled(s, step) ==> step.rows == Range(1, n) && Name(n - 1) == s.links[n] && Lost(Apply(s, step), Name(n - 1))
  {
    MoreAreInTimeOrder(n);
    var s := Apply(SummarizedOnce(), More(n));
    if Enabled(s, step) {
      LatestIsCutOff(s, step.rows, n);
      CutOffIsLost(s, step, n);
    }
  }

  /** `n` unseen episodes with content in time order behind a summarized one. */
  ghost predicate MoreInTimeOrder(s: Saga, n: nat) {
    && Inv(s) && |s.links| == n + 1 && s.lastSummarizedAt == Some(3) && s.summarized == {"a"}
    && UnseenRows(s) == Range(1, n + 1)
    && forall k | 1 <= k <= n ::
         && s.links[k] == Name(k - 1) && s.links[k] != "a"
         && s.links[k] in s.episodes && s.episodes[s.links[k]] == Episode(Some(k - 1), 4, true)
  }

  lemma AscendsByRow(s: Saga, n: nat, k: nat, l: nat)
    requires MoreInTimeOrder(s, n) && 1 <= k <= n && 1 <= l <= n
    ensures Matches(s, k) && Matches(s, l)
    ensures Ascends(s.episodes[s.links[k]], s.episodes[s.links[l]]) <==> k <= l
  {
    assert s.episodes[s.links[k]] == Episode(Some(k - 1), 4, true);
    assert s.episodes[s.links[l]] == Episode(Some(l - 1), 4, true);
  }

  lemma LatestIsCutOff(s: Saga, rows: set<nat>, n: nat)
    requires MoreInTimeOrder(s, n) && IsFetch(s, rows) && n == MAX_EPISODES + 1
    ensures rows == Range(1, n)
  {
    var matching := Range(1, n + 1);
    assert rows <= matching && |rows| == n - 1;
    assert n !in rows by {
      if n in rows {
        var l := SomeOther(rows, matching);
        FetchIs(s, rows, n, l);
        AscendsByRow(s, n, n, l);
      }
    }
    assert rows <= Range(1, n);
    SubsetSize(rows, Range(1, n));
  }

  lemma CutOffIsLost(s: Saga, step: Step, n: nat)
    requires MoreInTimeOrder(s, n) && n >= 2 && step.Summarize? && step.now >= s.clock && step.rows == Range(1, n)
    ensures Lost(Apply(s, step), s.links[n])
  {
    assert s.links[1] in Shown(s, step.rows);
    assert s.links[1] in Covered(s, step.rows);
    assert s.links[n] !in Shown(s, step.rows) by {
      assert forall k | k in step.rows :: |s.links[k]| == k - 1;
      assert |s.links[n]| == n - 1;
    }
    LeftOutIsLost(s, step, s.links[n]);
  }

  /** A summary that reads some content passes over whatever it does not cover. */
  lemma LeftOutIsLost(s: Saga, step: Step, e: Id)
    requires Inv(s) && step.Summarize? && step.now >= s.clock && Covered(s, step.rows) != {}
    requires e in Pending(s) && e !in Covered(s, step.rows)
    ensures Lost(Apply(s, step), e)
  {
  }

  lemma SomeOther(small: set<nat>, large: set<nat>) returns (l: nat)
    requires |small| < |large|
    ensures l in large && l !in small
  {
    if large <= small {
      SubsetSize(large, small);
    }
    l :| l in large && l !in small;
  }

  // ---- The saga node ----

  /** The saga node as ingestion and `summarize_saga` update it. */
  class SagaNode {
    var links: seq<Id>
    var episodes: map<Id, Episode>
    var lastSummarizedAt: Option<int>
    var lastEpisodeValidAt: Option<int>
    ghost var summarized: set<Id>
    ghost var clock: int

    ghost function View(): Saga
      reads this
    {
      Saga(links, episodes, lastSummarizedAt, lastEpisodeValidAt, summarized, clock)
    }

    constructor (now: int)
      ensures View() == Start(now)
    {
      links, episodes, lastSummarizedAt, lastEpisodeValidAt := [], map[], None, None;
      summarized, clock := {}, now;
    }

    /** Linking episodes, then saving the node that was passed with its two watermarks. */
    method Associate(joins: seq<Id>, joining: map<Id, Episode>, filter: Option<int>, reference: Option<int>, now: int)
      modifies this
      ensures View() == Apply(old(View()), Step.Ingest(joins, joining, filter, reference, now))
      ensures links == old(links) + joins && clock == now && summarized == old(summarized)
      ensures joins != [] ==> episodes == old(episodes) + joining && lastSummarizedAt == filter && lastEpisodeValidAt == reference
      ensures joins == [] ==> episodes == old(episodes)
      ensures joins == [] ==> lastSummarizedAt == old(lastSummarizedAt) && lastEpisodeValidAt == old(lastEpisodeValidAt)
    {
      if joins != [] {
        links, episodes := links + joins, episodes + joining;
        lastSummarizedAt, lastEpisodeValidAt := filter, reference;
      }
      clock := now;
    }

    /** How many of the fetched rows have content, and the reference times of those that carry one. */
    method EpisodesData(fetched: seq<nat>) returns (contents: nat, validAts: seq<int>)
      requires forall i | 0 <= i < |fetched| :: fetched[i] < |links| && links[fetched[i]] in episodes
      ensures contents == 0 <==> Covered(View(), Rows(fetched)) == {}
      ensures IsReferenceTimes(View(), Covered(View(), Rows(fetched)), validAts) && (validAts != [] ==> contents > 0)
    {
      contents, validAts := 0, [];
      for i := 0 to |fetched|
        invariant Covered(View(), Rows(fetched[..i])) == {} <==> contents == 0
        invariant IsReferenceTimes(View(), Covered(View(), Rows(fetched[..i])), validAts)
        invariant validAts != [] ==> contents > 0
      {
        NextFetched(View(), fetched, i, validAts);
        var e := episodes[links[fetched[i]]];
        if e.hasContent {
          contents := contents + 1;
          if e.validAt.Some? {
            validAts := validAts + [e.validAt.value];
          }
        }
      }
      assert fetched[..|fetched|] == fetched;
    }

    /** `summarize_saga` on the rows its query returned, at wall-clock time `now`. */
    method Summarize(fetched: seq<nat>, now: int) returns (newest: int)
      requires IsFetch(View(), Rows(fetched)) && now >= clock
      modifies this
      ensures Enabled(old(View()), Step.Summarize(Rows(fetched), newest, now))
      ensures View() == Apply(old(View()), Step.Summarize(Rows(fetched), newest, now))
    {
      assert forall i | 0 <= i < |fetched| :: fetched[i] in Rows(fetched);
      var contents, validAts := EpisodesData(fetched);
      newest := if validAts != [] then Max(validAts) else 0;
      ghost var s, covered := View(), Covered(View(), Rows(fetched));
      SummaryIs(s, Rows(fetched), contents, validAts, newest, now);
      if contents > 0 {
        summarized := summarized + covered;
        lastSummarizedAt := Some(now);
        var newer := validAts != [] && (lastEpisodeValidAt.None? || newest > lastEpisodeValidAt.value);
        if newer {
          lastEpisodeValidAt := Some(newest);
        }
      }
      clock := now;
    }
  }

  function Rows(fetched: seq<nat>): set<nat> {
    set k | k in fetched
  }

  lemma NextFetched(s: Saga, fetched: seq<nat>, i: nat, validAts: seq<int>)
    requires i < |fetched| && fetched[i] < |s.links| && s.links[fetched[i]] in s.episodes
    requires IsReferenceTimes(s, Covered(s, Rows(fetched[..i])), validAts)
    ensures var e := s.episodes[s.links[fetched[i]]]; var covered := Covered(s, Rows(fetched[..i + 1]));
      if e.hasContent then
        covered != {} && IsReferenceTimes(s, covered, if e.validAt.Some? then validAts + [e.validAt.value] else validAts)
      else
        covered == Covered(s, Rows(fetched[..i]))
  {
    var before, after, id := Rows(fetched[..i]), Rows(fetched[..i + 1]), s.links[fetched[i]];
    assert fetched[..i + 1] == fetched[..i] + [fetched[i]];
    assert after == before + {fetched[i]};
    forall e ensures e in Shown(s, after) <==> e in Shown(s, before) || e == id {
      assert fetched[i] in after;
    }
    if s.episodes[id].hasContent {
      assert Covered(s, after) == Covered(s, before) + {id};
      ReferenceTimesGrow(s, Covered(s, before), validAts, id);
    } else {
      assert Covered(s, after) == Covered(s, before);
    }
  }

  /** `validAts` holds exactly the reference times of the dated episodes in `ids`. */
  ghost predicate IsReferenceTimes(s: Saga, ids: set<Id>, validAts: seq<int>) {
    && (forall e | e in Dated(s, ids) :: s.episodes[e].validAt.value in validAts)
    && (forall v | v in validAts :: exists e :: e in Dated(s, ids) && s.episodes[e].validAt.value == v)
  }

  lemma ReferenceTimesGrow(s: Saga, ids: set<Id>, validAts: seq<int>, e: Id)
    requires IsReferenceTimes(s, ids, validAts) && e in s.episodes
    ensures IsReferenceTimes(s, ids + {e},
      if s.episodes[e].validAt.Some? then validAts + [s.episodes[e].validAt.value] else validAts)
  {
    forall v | v in validAts ensures exists f :: f in Dated(s, ids + {e}) && s.episodes[f].validAt.value == v {
      var f :| f in Dated(s, ids) && s.episodes[f].validAt.value == v;
      assert f in Dated(s, ids + {e});
    }
    if s.episodes[e].validAt.Some? {
      assert e in Dated(s, ids + {e});
    }
  }

  lemma ReferenceTimesMax(s: Saga, ids: set<Id>, validAts: seq<int>, newest: int)
    requires IsReferenceTimes(s, ids, validAts)
    requires validAts != [] ==> newest in validAts && forall v | v in validAts :: v <= newest
    ensures Dated(s, ids) == {} <==> validAts == []
    ensures validAts != [] ==> IsMax(s, ids, newest)
  {
    if validAts != [] {
      assert validAts[0] in validAts;
    }
  }

  /** The step that a summary of these rows takes, in terms of what was collected from them. */
  lemma SummaryIs(s: Saga, rows: set<nat>, contents: nat, validAts: seq<int>, newest: int, now: int)
    requires IsFetch(s, rows) && now >= s.clock && (contents == 0 <==> Covered(s, rows) == {})
    requires IsReferenceTimes(s, Covered(s, rows), validAts) && (validAts != [] ==> contents > 0)
    requires validAts != [] ==> newest in validAts && forall v | v in validAts :: v <= newest
    ensures Enabled(s, Step.Summarize(rows, newest, now))
    ensures Apply(s, Step.Summarize(rows, newest, now)) ==
      if contents == 0 then s.(clock := now)
      else
        var newer := validAts != [] && (s.lastEpisodeValidAt.None? || newest > s.lastEpisodeValidAt.value);
        s.(lastSummarizedAt := Some(now), lastEpisodeValidAt := if newer then Some(newest) else s.lastEpisodeValidAt,
           summarized := s.summarized + Covered(s, rows), clock := now)
  {
    ReferenceTimesMax(s, Covered(s, rows), validAts, newest);
  }

  function Max(vs: seq<int>): (m: int)
    requires vs != []
    ensures m in vs && forall v | v in vs :: v <= m
  {
    if |vs| == 1 then vs[0]
    else
      var n := |vs| - 1;
      assert vs == vs[..n] + [vs[n]];
      var m := Max(vs[..n]);
      if vs[n] > m then vs[n] else m
  }
}
