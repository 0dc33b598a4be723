/** Vector documents, their versions, and what `helpers.bulk` does with a list of index actions. */
module VectorWrites {
  import opened Options
  import opened VersionedStore

  const VECTOR_AOSS_WRITE_VERSION := 2_000_000_000_000_000
  const VECTOR_AOSS_VERSION_CEILING := 3_000_000_000_000_000

  /** `None` or absent, a list of numbers, or any other value. */
  datatype Embedding = Missing | Vector(values: seq<real>) | NotAList

  /** The mapped fields of a vector document; `tombstone` is `projection_deleted is True`. */
  datatype Body = Body(uuid: Id, groupId: Option<string>, embedding: Embedding, tombstone: bool)

  function Tombstone(id: Id): Body {
    Body(id, None, Missing, true)
  }

  /** `vector_aoss_external_version`; `None` stands for its `ValueError`. */
  function ExternalVersion(generation: int): (v: Option<nat>)
    ensures v.Some? <==> 0 <= generation < 1_000_000_000_000_000
    ensures v.Some? ==> 2_000_000_000_000_000 <= v.value < 3_000_000_000_000_000
    ensures v.Some? ==> v.value - 2_000_000_000_000_000 == generation
  {
    if generation < 0 then None
    else if VECTOR_AOSS_WRITE_VERSION + generation >= VECTOR_AOSS_VERSION_CEILING then None
    else Some(VECTOR_AOSS_WRITE_VERSION + generation)
  }

  // ---- Bulk errors ----

  const VERSION_CONFLICT := "version_conflict_engine_exception"

  datatype Cause = NoCause | Text(text: string) | Typed(kind: string, causedBy: Option<string>)

  /** An entry of the error list: not a dictionary at all, or the detail of one failed operation. */
  datatype BulkError = Garbage | Detail(id: Id, status: int, cause: Cause)

  predicate Contains(text: string, part: string)
    requires part != ""
  {
    |part| <= |text| && (part <= text || Contains(text[1..], part))
  }

  predicate OccursAt(text: string, part: string, i: int) {
    0 <= i <= |text| - |part| && text[i..i + |part|] == part
  }

  /** Containment is what `in` means for strings. */
  lemma {:induction false} ContainsIffOccurs(text: string, part: string)
    requires part != ""
    ensures Contains(text, part) <==> exists i :: OccursAt(text, part, i)
  {
    if |part| <= |text| {
      assert part <= text <==> OccursAt(text, part, 0);
      if !(part <= text) {
        ContainsIffOccurs(text[1..], part);
        forall i | OccursAt(text, part, i) ensures OccursAt(text[1..], part, i - 1) {
          assert text[1..][i - 1..i - 1 + |part|] == text[i..i + |part|];
        }
        forall i | OccursAt(text[1..], part, i) ensures OccursAt(text, part, i + 1) {
          assert text[1..][i..i + |part|] == text[i + 1..i + 1 + |part|];
        }
      }
    }
  }

  /** `_is_bulk_version_conflict` for the ids of the versioned actions. */
  predicate IsVersionConflict(e: BulkError, versionedIds: set<Id>) {
    ReportsConflict(e) && e.id in versionedIds
  }

  predicate ReportsConflict(e: BulkError) {
    && e.Detail? && e.status == 409
    && match e.cause {
         case NoCause => false
         case Text(text) => Contains(text, VERSION_CONFLICT)
         case Typed(kind, causedBy) => kind == VERSION_CONFLICT || causedBy == Some(VERSION_CONFLICT)
       }
  }

  /** A conflict is told from the status and, in the error's text, type or cause, from the engine's name for it. */
  lemma ConflictIsReportedIff(e: BulkError)
    ensures ReportsConflict(e) <==>
      && e.Detail? && e.status == 409
      && match e.cause {
           case NoCause => false
           case Text(text) => exists i :: OccursAt(text, "version_conflict_engine_exception", i)
           case Typed(kind, causedBy) =>
             || kind == "version_conflict_engine_exception"
             || causedBy == Some("version_conflict_engine_exception")
         }
  {
    if e.Detail? && e.cause.Text? {
      ContainsIffOccurs(e.cause.text, VERSION_CONFLICT);
    }
  }

  function Conflict(id: Id): BulkError {
    Detail(id, 409, Typed(VERSION_CONFLICT, None))
  }

  // ---- Transport ----

  /** What the network makes of one action. */
  datatype Fate =
    | Answered               // delivered, and its answer arrived
    | Resent                 // delivered, its answer lost, delivered again, and answered
    | Lost(error: BulkError) // never delivered, reported as failed
    | Unsure(error: BulkError) // delivered, but reported as failed

  /** Other writers get in before each action; then the action meets its fate. */
  datatype Turn = Turn(foreign: seq<Write<Body>>, fate: Fate)

  predicate Confirmed(t: Turn) {
    t.fate.Answered? || t.fate.Resent?
  }

  /** A failure is never dressed up as a version conflict on one of the batch's own ids. */
  predicate HonestTurn(t: Turn, ids: set<Id>) {
    !Confirmed(t) ==> !(t.fate.error.Detail? && t.fate.error.id in ids && ReportsConflict(t.fate.error))
  }

  function Answer(s: Store<Body>, w: Write<Body>): (nat, seq<BulkError>) {
    if Accepts(s, w) then (1, []) else (0, [Conflict(w.id)])
  }

  datatype BulkResult = BulkResult(store: Store<Body>, success: nat, errors: seq<BulkError>)

  function BulkTurn(s: Store<Body>, w: Write<Body>, t: Turn): BulkResult {
    var s := DeliverAll(s, t.foreign);
    match t.fate
    case Answered => var (n, errors) := Answer(s, w); BulkResult(Deliver(s, w), n, errors)
    case Resent => var (n, errors) := Answer(Deliver(s, w), w); BulkResult(Deliver(Deliver(s, w), w), n, errors)
    case Lost(error) => BulkResult(s, 0, [error])
    case Unsure(error) => BulkResult(Deliver(s, w), 0, [error])
  }

  /** `helpers.bulk(..., raise_on_error=False)`: every action once, failures collected. */
  function Bulk(s: Store<Body>, ws: seq<Write<Body>>, turns: seq<Turn>): BulkResult
    requires |ws| == |turns|
  {
    if ws == [] then BulkResult(s, 0, [])
    else
      var n := |ws| - 1;
      var before := Bulk(s, ws[..n], turns[..n]);
      var last := BulkTurn(before.store, ws[n], turns[n]);
      BulkResult(last.store, before.success + last.success, before.errors + last.errors)
  }

  function Conflicts(errors: seq<BulkError>, ids: set<Id>): nat {
    if errors == [] then 0
    else Conflicts(errors[..|errors| - 1], ids) + if IsVersionConflict(errors[|errors| - 1], ids) then 1 else 0
  }

  function ConfirmedCount(turns: seq<Turn>): (n: nat)
    ensures n <= |turns|
    ensures n == |turns| <==> forall t | t in turns :: Confirmed(t)
  {
    if turns == [] then 0
    else
      assert turns == turns[..|turns| - 1] + [turns[|turns| - 1]];
      ConfirmedCount(turns[..|turns| - 1]) + if Confirmed(turns[|turns| - 1]) then 1 else 0
  }

  lemma {:induction false} ConflictsAppend(p: seq<BulkError>, q: seq<BulkError>, ids: set<Id>)
    ensures Conflicts(p + q, ids) == Conflicts(p, ids) + Conflicts(q, ids)
    decreases |q|
  {
    if q == [] {
      assert p + q == p;
    } else {
      ConflictsAppend(p, q[..|q| - 1], ids);
      assert (p + q)[..|p + q| - 1] == p + q[..|q| - 1];
    }
  }

  lemma {:induction false} ConflictsAtMost(errors: seq<BulkError>, ids: set<Id>)
    ensures Conflicts(errors, ids) <= |errors|
    ensures Conflicts(errors, ids) == |errors| <==> forall e | e in errors :: IsVersionConflict(e, ids)
  {
    if errors == [] {
    } else {
      assert errors == errors[..|errors| - 1] + [errors[|errors| - 1]];
      ConflictsAtMost(errors[..|errors| - 1], ids);
    }
  }

  predicate Honest(turns: seq<Turn>, ids: set<Id>) {
    forall t | t in turns :: HonestTurn(t, ids)
  }

  lemma TurnCounts(s: Store<Body>, w: Write<Body>, t: Turn, ids: set<Id>)
    requires HonestTurn(t, ids) && w.id in ids
    ensures var r := BulkTurn(s, w, t);
      && r.success + Conflicts(r.errors, ids) == (if Confirmed(t) then 1 else 0)
      && r.success + |r.errors| == 1
  {
    var errors := BulkTurn(s, w, t).errors;
    assert |errors| == 1 ==> errors[..0] == [];
  }

  /**
   Successes plus version conflicts count the actions the index really answered for, and every other
   action shows up as a failure.
   */
  lemma {:induction false} BulkCountsConfirmed(s: Store<Body>, ws: seq<Write<Body>>, turns: seq<Turn>, ids: set<Id>)
    requires |ws| == |turns| && Honest(turns, ids) && forall i | 0 <= i < |ws| :: ws[i].id in ids
    ensures var r := Bulk(s, ws, turns);
      && r.success + Conflicts(r.errors, ids) == ConfirmedCount(turns)
      && r.success + |r.errors| == |ws|
  {
    if ws == [] {
    } else {
      var n := |ws| - 1;
      var before := Bulk(s, ws[..n], turns[..n]);
      BulkCountsConfirmed(s, ws[..n], turns[..n], ids);
      assert turns[n] in turns;
      TurnCounts(before.store, ws[n], turns[n], ids);
      ConflictsAppend(before.errors, BulkTurn(before.store, ws[n], turns[n]).errors, ids);
    }
  }

  lemma TurnIsDurable(s: Store<Body>, w: Write<Body>, t: Turn)
    ensures NeverLower(s, BulkTurn(s, w, t).store)
    ensures Confirmed(t) ==> w.id in BulkTurn(s, w, t).store && BulkTurn(s, w, t).store[w.id].version >= w.version
  {
    DeliveriesNeverLower(s, t.foreign);
  }

  /** A bulk request never lowers a version, and every action it answered for is stored at its version or above. */
  lemma {:induction false} BulkIsDurable(s: Store<Body>, ws: seq<Write<Body>>, turns: seq<Turn>)
    requires |ws| == |turns|
    ensures NeverLower(s, Bulk(s, ws, turns).store)
    ensures forall i | 0 <= i < |ws| && Confirmed(turns[i]) ::
      ws[i].id in Bulk(s, ws, turns).store && Bulk(s, ws, turns).store[ws[i].id].version >= ws[i].version
  {
    if ws == [] {
    } else {
      var n := |ws| - 1;
      var before, after := Bulk(s, ws[..n], turns[..n]).store, Bulk(s, ws, turns).store;
      BulkIsDurable(s, ws[..n], turns[..n]);
      TurnIsDurable(before, ws[n], turns[n]);
      forall i | 0 <= i < |ws| && Confirmed(turns[i]) ensures ws[i].id in after && after[ws[i].id].version >= ws[i].version {
        if i < n {
          assert ws[i] == ws[..n][i] && turns[i] == turns[..n][i];
        }
      }
    }
  }

  ghost predicate Foreign(turns: seq<Turn>, id: Id) {
    exists t, w :: t in turns && w in t.foreign && w.id == id
  }

  lemma {:induction false} OtherDeliveries<D>(s: Store<D>, ws: seq<Write<D>>, id: Id)
    requires forall w | w in ws :: w.id != id
    ensures id in DeliverAll(s, ws) <==> id in s
    ensures id in s ==> DeliverAll(s, ws)[id] == s[id]
  {
    if ws == [] {
    } else {
      OtherDeliveries(s, ws[..|ws| - 1], id);
      assert ws[|ws| - 1] in ws;
    }
  }

  ghost predicate SameEntry<D>(r: Store<D>, d: Store<D>, id: Id) {
    (id in r <==> id in d) && (id in r ==> r[id] == d[id])
  }

  lemma TurnEntry(s: Store<Body>, d: Store<Body>, w: Write<Body>, t: Turn, id: Id)
    requires SameEntry(s, d, id) && (forall v | v in t.foreign :: v.id != id) && (w.id == id ==> Confirmed(t))
    ensures SameEntry(BulkTurn(s, w, t).store, Deliver(d, w), id)
  {
    OtherDeliveries(s, t.foreign, id);
  }

  /** Where no other writer interferes, a fully answered bulk request leaves what one clean delivery would. */
  lemma {:induction false} BulkEntry(s: Store<Body>, ws: seq<Write<Body>>, turns: seq<Turn>, id: Id)
    requires |ws| == |turns| && !Foreign(turns, id)
    requires forall i | 0 <= i < |ws| && ws[i].id == id :: Confirmed(turns[i])
    ensures SameEntry(Bulk(s, ws, turns).store, DeliverAll(s, ws), id)
  {
    if ws == [] {
    } else {
      var n := |ws| - 1;
      assert forall t | t in turns[..n] :: t in turns;
      assert !Foreign(turns[..n], id);
      BulkEntry(s, ws[..n], turns[..n], id);
      assert turns[n] in turns;
      TurnEntry(Bulk(s, ws[..n], turns[..n]).store, DeliverAll(s, ws[..n]), ws[n], turns[n], id);
    }
  }
}
