/** The page contract of a search sorted by the `uuid` keyword and continued with `search_after`. */
module SearchPages {
  import opened Options
  import opened Collections
  import opened VersionedStore

  /** Lexicographic order of keyword values. */
  predicate Before(a: Id, b: Id) {
    b != "" && (a == "" || a[0] < b[0] || (a[0] == b[0] && Before(a[1..], b[1..])))
  }

  /** From position `k` on, where `a` and `b` part, `a` has ended or has the smaller character. */
  predicate PartsAt(a: Id, b: Id, k: int) {
    0 <= k <= |a| && k < |b| && a[..k] == b[..k] && (k == |a| || a[k] < b[k])
  }

  /** Values ascend character by character, a prefix coming first. */
  lemma {:induction false} BeforeIsLexicographic(a: Id, b: Id)
    ensures Before(a, b) <==> exists k :: PartsAt(a, b, k)
  {
    if a == "" || b == "" || a[0] != b[0] {
      assert Before(a, b) ==> PartsAt(a, b, 0);
      forall k | PartsAt(a, b, k) ensures Before(a, b) {
      }
    } else {
      BeforeIsLexicographic(a[1..], b[1..]);
      forall k | PartsAt(a[1..], b[1..], k) ensures PartsAt(a, b, k + 1) {
        assert a[..k + 1] == [a[0]] + a[1..][..k] && b[..k + 1] == [b[0]] + b[1..][..k];
      }
      forall k | PartsAt(a, b, k) ensures PartsAt(a[1..], b[1..], k - 1) {
        assert a[1..][..k - 1] == a[..k][1..] && b[1..][..k - 1] == b[..k][1..];
      }
    }
  }

  lemma {:induction false} BeforeIsIrreflexive(a: Id)
    ensures !Before(a, a)
  {
    if a == "" {
    } else {
      BeforeIsIrreflexive(a[1..]);
    }
  }

  lemma {:induction false} BeforeIsTotal(a: Id, b: Id)
    ensures Before(a, b) || Before(b, a) || a == b
    ensures !(Before(a, b) && Before(b, a))
    decreases |a|
  {
    if a != "" && b != "" {
      BeforeIsTotal(a[1..], b[1..]);
      assert a == [a[0]] + a[1..] && b == [b[0]] + b[1..];
    }
  }

  lemma {:induction false} BeforeIsTransitive(a: Id, b: Id, c: Id)
    requires Before(a, b) && Before(b, c)
    ensures Before(a, c)
  {
    if a != "" && a[0] == b[0] == c[0] {
      BeforeIsTransitive(a[1..], b[1..], c[1..]);
    }
  }

  /** The sort value of each document that a search can return. */
  type Keys = map<Id, string>

  /** The documents that sort after the cursor. */
  function Beyond(keys: Keys, cursor: Option<string>): Keys {
    map id | id in keys && (cursor.Some? ==> Before(cursor.value, keys[id])) :: keys[id]
  }

  predicate AllIn(rest: Keys, hits: seq<Id>) {
    forall i | 0 <= i < |hits| :: hits[i] in rest
  }

  predicate Ascending(rest: Keys, hits: seq<Id>)
    requires AllIn(rest, hits)
  {
    forall i, j | 0 <= i < j < |hits| :: !Before(rest[hits[j]], rest[hits[i]])
  }

  /** Nothing outside `hits` sorts before any of them. */
  predicate Leading(rest: Keys, hits: seq<Id>)
    requires AllIn(rest, hits)
  {
    forall id, i | id in rest && id !in hits && 0 <= i < |hits| :: !Before(rest[id], rest[hits[i]])
  }

  /** The first `size` documents of `rest` by sort value; where sort values are equal any order will do. */
  predicate IsPage(rest: Keys, size: nat, hits: seq<Id>) {
    && Distinct(hits) && AllIn(rest, hits) && Ascending(rest, hits) && Leading(rest, hits)
    && |hits| == (if |rest| < size then |rest| else size)
  }

  lemma NotBeforeChain(a: string, b: string, c: string)
    requires !Before(b, a) && !Before(c, b)
    ensures !Before(c, a)
  {
    BeforeIsTotal(a, b);
    BeforeIsTotal(b, c);
    BeforeIsTotal(a, c);
    if Before(a, b) && Before(b, c) {
      BeforeIsTransitive(a, b, c);
    }
  }

  lemma {:induction false} LeastExists(rest: Keys) returns (least: Id)
    requires rest != map[]
    ensures least in rest && forall id | id in rest :: !Before(rest[id], rest[least])
    decreases |rest|
  {
    var x :| x in rest;
    var others := rest - {x};
    assert rest.Keys == others.Keys + {x};
    BeforeIsIrreflexive(rest[x]);
    least := x;
    if others != map[] {
      var y := LeastExists(others);
      BeforeIsTotal(rest[x], rest[y]);
      if Before(rest[y], rest[x]) {
        least := y;
      } else {
        forall id | id in others ensures !Before(rest[id], rest[x]) {
          NotBeforeChain(rest[x], rest[y], rest[id]);
        }
      }
    }
    forall id | id in rest ensures !Before(rest[id], rest[least]) {
      assert id == x || id in others;
    }
  }

  lemma {:induction false} PageExists(rest: Keys, size: nat) returns (hits: seq<Id>)
    ensures IsPage(rest, size, hits)
    decreases size
  {
    if rest == map[] || size == 0 {
      hits := [];
    } else {
      var least := LeastExists(rest);
      var others := rest - {least};
      assert rest.Keys == others.Keys + {least};
      var tail := PageExists(others, size - 1);
      hits := [least] + tail;
      assert AllIn(rest, hits) && Distinct(hits) by { ConsDistinct(rest, least, tail); }
      ConsAscending(rest, least, tail);
      ConsLeading(rest, least, tail);
    }
  }

  lemma ConsDistinct(rest: Keys, least: Id, tail: seq<Id>)
    requires least in rest && AllIn(rest - {least}, tail) && Distinct(tail)
    ensures AllIn(rest, [least] + tail) && Distinct([least] + tail)
  {
    var hits := [least] + tail;
    forall i | 1 <= i < |hits| ensures hits[i] in rest && hits[i] != least {
      assert hits[i] == tail[i - 1];
    }
    forall i, j | 0 <= i < j < |hits| ensures hits[i] != hits[j] {
      if i > 0 {
        assert hits[i] == tail[i - 1] && hits[j] == tail[j - 1];
      }
    }
  }

  lemma ConsAscending(rest: Keys, least: Id, tail: seq<Id>)
    requires AllIn(rest - {least}, tail) && Ascending(rest - {least}, tail) && AllIn(rest, [least] + tail)
    requires least in rest && forall id | id in rest :: !Before(rest[id], rest[least])
    ensures Ascending(rest, [least] + tail)
  {
    var hits := [least] + tail;
    forall i, j | 0 <= i < j < |hits| ensures !Before(rest[hits[j]], rest[hits[i]]) {
      assert hits[j] == tail[j - 1];
      if i > 0 {
        assert hits[i] == tail[i - 1];
      }
    }
  }

  lemma ConsLeading(rest: Keys, least: Id, tail: seq<Id>)
    requires AllIn(rest - {least}, tail) && Leading(rest - {least}, tail) && AllIn(rest, [least] + tail)
    requires least in rest && forall id | id in rest :: !Before(rest[id], rest[least])
    ensures Leading(rest, [least] + tail)
  {
    var hits := [least] + tail;
    forall id, i | id in rest && id !in hits && 0 <= i < |hits| ensures !Before(rest[id], rest[hits[i]]) {
      assert hits[0] == least && id !in tail;
      if i > 0 {
        assert hits[i] == tail[i - 1];
        assert id in rest - {least};
      }
    }
  }

  /** No two documents share a sort value. */
  predicate DistinctKeys(keys: Keys) {
    forall a, b | a in keys && b in keys && keys[a] == keys[b] :: a == b
  }

  /** Continuing after the last hit never shows a hit of this page or of an earlier one again. */
  lemma PageStaysBehind(keys: Keys, cursor: Option<string>, size: nat, hits: seq<Id>)
    requires IsPage(Beyond(keys, cursor), size, hits) && hits != []
    ensures hits[|hits| - 1] in keys
    ensures var next := Some(keys[hits[|hits| - 1]]);
      && (forall id | id in Beyond(keys, next) :: id in Beyond(keys, cursor) && id !in hits)
      && (cursor.Some? ==> Before(cursor.value, next.value))
  {
    var n := |hits| - 1;
    var rest, last := Beyond(keys, cursor), keys[hits[n]];
    assert hits[n] in rest;
    forall i | 0 <= i <= n ensures !Before(last, keys[hits[i]]) {
      BeforeIsIrreflexive(last);
      assert i < n ==> !Before(rest[hits[n]], rest[hits[i]]);
    }
    forall id | id in Beyond(keys, Some(last)) ensures id in rest && id !in hits {
      if cursor.Some? {
        BeforeIsTransitive(cursor.value, last, keys[id]);
      }
    }
  }

  /** Where sort values are distinct, continuing after the last hit skips exactly the hits of the page. */
  lemma PageAdvances(keys: Keys, cursor: Option<string>, size: nat, hits: seq<Id>)
    requires IsPage(Beyond(keys, cursor), size, hits) && hits != [] && DistinctKeys(keys)
    ensures hits[|hits| - 1] in keys
    ensures forall id | id in keys ::
      id in Beyond(keys, cursor) && id !in hits <==> id in Beyond(keys, Some(keys[hits[|hits| - 1]]))
  {
    var n := |hits| - 1;
    var rest, last := Beyond(keys, cursor), keys[hits[n]];
    PageStaysBehind(keys, cursor, size, hits);
    forall id | id in rest && id !in hits ensures id in Beyond(keys, Some(last)) {
      assert !Before(rest[id], rest[hits[n]]);
      BeforeIsTotal(keys[id], last);
      assert hits[n] in hits;
    }
  }

  /** A page that is not full is the last one. */
  lemma ShortPageIsLast(rest: Keys, size: nat, hits: seq<Id>)
    requires IsPage(rest, size, hits) && |hits| < size
    ensures forall id :: id in hits <==> id in rest
  {
    var found := set h | h in hits;
    SizeOfDistinct(hits);
    assert found <= rest.Keys;
    assert rest.Keys == found + (rest.Keys - found);
  }

  lemma {:induction false} SizeOfDistinct(ids: seq<Id>)
    requires Distinct(ids)
    ensures |set id | id in ids| == |ids|
  {
    if ids == [] {
      assert (set id | id in ids) == {};
    } else {
      var n := |ids| - 1;
      SizeOfDistinct(ids[..n]);
      assert ids == ids[..n] + [ids[n]];
      assert (set id | id in ids) == (set id | id in ids[..n]) + {ids[n]};
    }
  }

  // ---- Paging to the end ----

  /** The pages of a search repeated after each full page behind its last hit. */
  predicate IsPaging(keys: Keys, size: nat, cursor: Option<string>, pages: seq<seq<Id>>)
    requires size >= 1
    decreases |pages|
  {
    && pages != []
    && IsPage(Beyond(keys, cursor), size, pages[0])
    && if |pages[0]| < size then |pages| == 1
       else
         assert pages[0][|pages[0]| - 1] in Beyond(keys, cursor);
         IsPaging(keys, size, Some(keys[pages[0][|pages[0]| - 1]]), pages[1..])
  }

  predicate Shows(pages: seq<seq<Id>>, id: Id) {
    exists i :: 0 <= i < |pages| && id in pages[i]
  }

  lemma {:induction false} PagingShowsAll(keys: Keys, size: nat, cursor: Option<string>, pages: seq<seq<Id>>, id: Id)
    requires size >= 1 && IsPaging(keys, size, cursor, pages) && DistinctKeys(keys) && id in Beyond(keys, cursor)
    ensures Shows(pages, id)
    decreases |pages|
  {
    if |pages[0]| < size {
      ShortPageIsLast(Beyond(keys, cursor), size, pages[0]);
      assert id in pages[0];
    } else if id in pages[0] {
    } else {
      assert pages[0][|pages[0]| - 1] in Beyond(keys, cursor);
      PageAdvances(keys, cursor, size, pages[0]);
      PagingShowsAll(keys, size, Some(keys[pages[0][|pages[0]| - 1]]), pages[1..], id);
      var i :| 0 <= i < |pages[1..]| && id in pages[1..][i];
      assert id in pages[i + 1];
    }
  }

  /** A first document that is not `b`. */
  lemma LeastOther(rest: Keys, a: Id, b: Id) returns (x: Id)
    requires rest != map[] && a != b && (b in rest ==> a in rest && rest[a] == rest[b])
    ensures x in rest && x != b && forall id | id in rest :: !Before(rest[id], rest[x])
  {
    var others := rest - {b};
    assert others != map[] by {
      if b in rest {
        assert a in others;
      } else {
        assert others == rest;
      }
    }
    x := LeastExists(others);
    forall id | id in rest ensures !Before(rest[id], rest[x]) {
      assert if id == b then a in others && rest[a] == rest[b] else id in others;
    }
  }

  /** With `a` and `b` under one sort value, single-document pages may show `a` and pass `b` over. */
  lemma {:induction false} PagingMaySkip(keys: Keys, cursor: Option<string>, a: Id, b: Id) returns (pages: seq<seq<Id>>)
    requires a in keys && b in keys && a != b && keys[a] == keys[b]
    ensures IsPaging(keys, 1, cursor, pages) && !Shows(pages, b)
    decreases |Beyond(keys, cursor)|
  {
    var rest := Beyond(keys, cursor);
    if rest == map[] {
      pages := [[]];
    } else {
      var x := LeastOther(rest, a, b);
      var next := Some(keys[x]);
      OnePage(keys, cursor, x);
      var tail := PagingMaySkip(keys, next, a, b);
      pages := [[x]] + tail;
      assert pages[1..] == tail;
      ShownNowOrLater(pages, b);
    }
  }

  /** A page of one. */
  lemma OnePage(keys: Keys, cursor: Option<string>, x: Id)
    requires x in Beyond(keys, cursor) && forall id | id in Beyond(keys, cursor) :: !Before(keys[id], keys[x])
    ensures IsPage(Beyond(keys, cursor), 1, [x])
    ensures |Beyond(keys, Some(keys[x]))| < |Beyond(keys, cursor)|
  {
    var rest := Beyond(keys, cursor);
    assert rest.Keys == {x} + (rest.Keys - {x});
    PageStaysBehind(keys, cursor, 1, [x]);
    assert x in [x];
    SmallerMap(Beyond(keys, Some(keys[x])), rest, x);
  }

  lemma SmallerMap(small: Keys, large: Keys, x: Id)
    requires small.Keys <= large.Keys && x in large && x !in small
    ensures |small| < |large|
  {
    assert large.Keys == small.Keys + (large.Keys - small.Keys);
    assert x in large.Keys - small.Keys;
  }

  ghost predicate PagingIsComplete(keys: Keys) {
    forall size: nat, pages, id | size >= 1 && IsPaging(keys, size, None, pages) && id in keys :: Shows(pages, id)
  }

  /** Paging with `search_after` shows every document, whatever the page size and the order of ties, exactly if sort values are distinct. */
  lemma PagingIsCompleteIff(keys: Keys)
    ensures PagingIsComplete(keys) <==> DistinctKeys(keys)
  {
    if DistinctKeys(keys) {
      forall size: nat, pages, id | size >= 1 && IsPaging(keys, size, None, pages) && id in keys ensures Shows(pages, id) {
        PagingShowsAll(keys, size, None, pages, id);
      }
    } else {
      var a, b :| a in keys && b in keys && keys[a] == keys[b] && a != b;
      var pages := PagingMaySkip(keys, None, a, b);
      assert IsPaging(keys, 1, None, pages) && b in keys && !Shows(pages, b);
    }
  }

  // ---- Paging by a fixed size ----

  /** The number of documents on `j` full pages. */
  function Boundary(size: nat, j: nat): nat {
    if j == 0 then 0 else Boundary(size, j - 1) + size
  }

  lemma {:induction false} BoundariesRise(size: nat, i: nat, j: nat)
    requires i <= j
    ensures Boundary(size, i) <= Boundary(size, j) && (i < j ==> Boundary(size, i) + size <= Boundary(size, j))
  {
    if i == j {
    } else {
      BoundariesRise(size, i, j - 1);
    }
  }

  function Below(keys: Keys, v: string): set<Id> {
    set id | id in keys && Before(keys[id], v)
  }

  function UpTo(keys: Keys, v: string): set<Id> {
    set id | id in keys && !Before(v, keys[id])
  }

  /** The documents with sort value `v` lie on both sides of the end of the `j`-th page. */
  predicate Straddles(keys: Keys, size: nat, v: string, j: nat) {
    |Below(keys, v)| < Boundary(size, j) < |UpTo(keys, v)|
  }

  /** What lies at or before the cursor. */
  function Behind(keys: Keys, cursor: Option<string>): set<Id> {
    if cursor.None? then {} else UpTo(keys, cursor.value)
  }

  predicate ShowsAll(pages: seq<seq<Id>>, ids: set<Id>) {
    forall id | id in ids :: Shows(pages, id)
  }

  lemma BehindOrBeyond(keys: Keys, cursor: Option<string>)
    ensures Behind(keys, cursor) !! Beyond(keys, cursor).Keys && Behind(keys, cursor) + Beyond(keys, cursor).Keys == keys.Keys
    ensures |Behind(keys, cursor)| + |Beyond(keys, cursor)| == |keys|
  {
    assert Behind(keys, cursor) + Beyond(keys, cursor).Keys == keys.Keys;
  }

  /** A page lies behind the cursor it leads to, and nothing below that cursor lies beyond it or outside the page. */
  lemma PageReaches(keys: Keys, cursor: Option<string>, size: nat, hits: seq<Id>)
    requires IsPage(Beyond(keys, cursor), size, hits) && hits != []
    ensures hits[|hits| - 1] in keys
    ensures var next := keys[hits[|hits| - 1]];
      && (forall h | h in hits :: h in UpTo(keys, next) && h !in Behind(keys, cursor))
      && (forall id | id in Behind(keys, cursor) :: id in UpTo(keys, next))
      && (forall id | id in Below(keys, next) :: (id in Behind(keys, cursor) || id in hits) && id != hits[|hits| - 1])
  {
    var rest, last := Beyond(keys, cursor), keys[hits[|hits| - 1]];
    PageStaysBehind(keys, cursor, size, hits);
    BeforeIsIrreflexive(last);
    assert forall h | h in hits :: h in rest;
    forall id | id in rest && id !in hits ensures !Before(keys[id], last) {
      assert !Before(rest[id], rest[hits[|hits| - 1]]);
    }
    forall id | id in keys && Before(last, keys[id]) ensures id in rest && id !in hits {
      assert id in Beyond(keys, Some(last));
    }
  }

  /** The cursor after a full page skips nothing. */
  ghost predicate SkipsNothing(keys: Keys, cursor: Option<string>, hits: seq<Id>)
    requires hits != [] && hits[|hits| - 1] in keys
  {
    forall id | id in Beyond(keys, cursor) && id !in hits :: id in Beyond(keys, Some(keys[hits[|hits| - 1]]))
  }

  lemma UnstraddledFillsUp(keys: Keys, size: nat, cursor: Option<string>, hits: seq<Id>, j: nat)
    requires IsPage(Beyond(keys, cursor), size, hits) && |hits| == size >= 1
    requires |Behind(keys, cursor)| == Boundary(size, j) && forall v, i :: !Straddles(keys, size, v, i)
    ensures hits[|hits| - 1] in keys
    ensures UpTo(keys, keys[hits[|hits| - 1]]) == Behind(keys, cursor) + set h | h in hits
  {
    PageReaches(keys, cursor, size, hits);
    var last, found := hits[|hits| - 1], set h | h in hits;
    var seen := Behind(keys, cursor) + found;
    SizeOfDistinct(hits);
    assert |seen| == Boundary(size, j + 1);
    assert last in hits;
    SubsetSize(Below(keys, keys[last]), seen - {last});
    SubsetSize(seen, UpTo(keys, keys[last]));
    assert !Straddles(keys, size, keys[last], j + 1);
  }

  lemma UnstraddledSkipsNothing(keys: Keys, size: nat, cursor: Option<string>, hits: seq<Id>, j: nat)
    requires IsPage(Beyond(keys, cursor), size, hits) && |hits| == size >= 1
    requires |Behind(keys, cursor)| == Boundary(size, j) && forall v, i :: !Straddles(keys, size, v, i)
    ensures hits[|hits| - 1] in keys && SkipsNothing(keys, cursor, hits)
  {
    UnstraddledFillsUp(keys, size, cursor, hits, j);
    forall id | id in Beyond(keys, cursor) && id !in hits ensures id !in UpTo(keys, keys[hits[|hits| - 1]]) {
      assert id !in Behind(keys, cursor);
    }
  }

  lemma NextBoundary(keys: Keys, size: nat, cursor: Option<string>, hits: seq<Id>, j: nat)
    requires IsPage(Beyond(keys, cursor), size, hits) && |hits| == size >= 1 && hits[|hits| - 1] in keys
    requires |Behind(keys, cursor)| == Boundary(size, j) && SkipsNothing(keys, cursor, hits)
    ensures |Behind(keys, Some(keys[hits[|hits| - 1]]))| == Boundary(size, j + 1)
  {
    PageReaches(keys, cursor, size, hits);
    var next, found := Some(keys[hits[|hits| - 1]]), set h | h in hits;
    SizeOfDistinct(hits);
    forall id | id in Behind(keys, next) ensures id in Behind(keys, cursor) + found {
      assert id in Beyond(keys, cursor) && id !in hits ==> id in Beyond(keys, next);
    }
    assert Behind(keys, next) == Behind(keys, cursor) + found;
  }

  lemma ShortRestMeetsNoBoundary(keys: Keys, size: nat, cursor: Option<string>, j: nat, v: string, i: nat)
    requires |Beyond(keys, cursor)| < size && |Behind(keys, cursor)| == Boundary(size, j) && j < i
    ensures !Straddles(keys, size, v, i)
  {
    BehindOrBeyond(keys, cursor);
    SubsetSize(UpTo(keys, v), keys.Keys);
    BoundariesRise(size, j, i);
  }

  /** If no group of equal sort values straddles a page end, every paging shows everything. */
  lemma {:induction false} UnstraddledShowsAll(keys: Keys, size: nat, cursor: Option<string>, pages: seq<seq<Id>>, j: nat, id: Id)
    requires size >= 1 && IsPaging(keys, size, cursor, pages) && |Behind(keys, cursor)| == Boundary(size, j)
    requires forall v, i :: !Straddles(keys, size, v, i)
    requires id in Beyond(keys, cursor)
    ensures Shows(pages, id)
    decreases |pages|
  {
    ShownNowOrLater(pages, id);
    if |pages[0]| < size {
      ShortPageIsLast(Beyond(keys, cursor), size, pages[0]);
    } else {
      NextPaging(keys, size, cursor, pages);
      UnstraddledSkipsNothing(keys, size, cursor, pages[0], j);
      NextBoundary(keys, size, cursor, pages[0], j);
      if id !in pages[0] {
        UnstraddledShowsAll(keys, size, Some(keys[pages[0][size - 1]]), pages[1..], j + 1, id);
      }
    }
  }

  /** Pages show only what lies beyond the cursor. */
  lemma {:induction false} PagesLieBeyond(keys: Keys, size: nat, cursor: Option<string>, pages: seq<seq<Id>>, id: Id)
    requires size >= 1 && IsPaging(keys, size, cursor, pages) && Shows(pages, id)
    ensures id in Beyond(keys, cursor)
    decreases |pages|
  {
    var i :| 0 <= i < |pages| && id in pages[i];
    if i > 0 {
      assert id in pages[1..][i - 1];
      PagesLieBeyond(keys, size, Some(keys[pages[0][|pages[0]| - 1]]), pages[1..], id);
      PageStaysBehind(keys, cursor, size, pages[0]);
    }
  }

  /** After a full page the paging goes on behind its last hit. */
  lemma NextPaging(keys: Keys, size: nat, cursor: Option<string>, pages: seq<seq<Id>>)
    requires size >= 1 && IsPaging(keys, size, cursor, pages) && |pages[0]| >= size
    ensures IsPage(Beyond(keys, cursor), size, pages[0]) && |pages[0]| == size && pages[0][size - 1] in keys
    ensures IsPaging(keys, size, Some(keys[pages[0][size - 1]]), pages[1..])
  {
    assert pages[0][|pages[0]| - 1] in Beyond(keys, cursor);
  }

  lemma ShownNowOrLater(pages: seq<seq<Id>>, id: Id)
    requires pages != []
    ensures Shows(pages, id) <==> id in pages[0] || Shows(pages[1..], id)
  {
    if k :| 0 < k < |pages| && id in pages[k] {
      assert id in pages[1..][k - 1];
    }
    if k :| 0 <= k < |pages[1..]| && id in pages[1..][k] {
      assert id in pages[k + 1];
    }
  }

  /** If this page and the later ones show everything, the page skips nothing. */
  lemma ShowsAllSkipsNothing(keys: Keys, size: nat, cursor: Option<string>, hits: seq<Id>, later: seq<seq<Id>>)
    requires size >= 1 && IsPage(Beyond(keys, cursor), size, hits) && |hits| == size && hits[size - 1] in keys
    requires IsPaging(keys, size, Some(keys[hits[size - 1]]), later)
    requires forall id | id in Beyond(keys, cursor) :: id in hits || Shows(later, id)
    ensures SkipsNothing(keys, cursor, hits)
    ensures ShowsAll(later, Beyond(keys, Some(keys[hits[size - 1]])).Keys)
  {
    var next := Some(keys[hits[size - 1]]);
    PageStaysBehind(keys, cursor, size, hits);
    forall id | id in Beyond(keys, cursor) && id !in hits ensures id in Beyond(keys, next) {
      PagesLieBeyond(keys, size, next, later, id);
    }
  }

  lemma ShowsAllGoesOn(keys: Keys, size: nat, cursor: Option<string>, pages: seq<seq<Id>>, j: nat) returns (next: Option<string>)
    requires size >= 1 && IsPaging(keys, size, cursor, pages) && |pages[0]| >= size
    requires ShowsAll(pages, Beyond(keys, cursor).Keys) && |Behind(keys, cursor)| == Boundary(size, j)
    ensures IsPaging(keys, size, next, pages[1..]) && ShowsAll(pages[1..], Beyond(keys, next).Keys)
    ensures |Behind(keys, next)| == Boundary(size, j + 1)
  {
    NextPaging(keys, size, cursor, pages);
    var page, later := pages[0], pages[1..];
    next := Some(keys[page[size - 1]]);
    forall id | id in Beyond(keys, cursor) ensures id in page || Shows(later, id) {
      ShownNowOrLater(pages, id);
    }
    ShowsAllSkipsNothing(keys, size, cursor, page, later);
    NextBoundary(keys, size, cursor, page, j);
  }

  /** A paging that shows everything meets no group that straddles a page end, here or later. */
  lemma {:induction false} ShowsAllUnstraddled(keys: Keys, size: nat, cursor: Option<string>, pages: seq<seq<Id>>, j: nat,
                                               v: string, i: nat)
    requires size >= 1 && IsPaging(keys, size, cursor, pages) && |Behind(keys, cursor)| == Boundary(size, j) && j <= i
    requires ShowsAll(pages, Beyond(keys, cursor).Keys)
    ensures !Straddles(keys, size, v, i)
    decreases |pages|
  {
    if i == j {
      CursorSplits(keys, cursor, v);
    } else if |pages[0]| < size {
      ShortRestMeetsNoBoundary(keys, size, cursor, j, v, i);
    } else {
      var next := ShowsAllGoesOn(keys, size, cursor, pages, j);
      ShowsAllUnstraddled(keys, size, next, pages[1..], j + 1, v, i);
    }
  }

  /** What lies behind a cursor splits no group. */
  lemma CursorSplits(keys: Keys, cursor: Option<string>, v: string)
    ensures |Behind(keys, cursor)| <= |Below(keys, v)| || |UpTo(keys, v)| <= |Behind(keys, cursor)|
  {
    if cursor.Some? {
      if Before(cursor.value, v) {
        forall id | id in Behind(keys, cursor) ensures id in Below(keys, v) {
          BeforeIsTotal(keys[id], cursor.value);
          if Before(keys[id], cursor.value) {
            BeforeIsTransitive(keys[id], cursor.value, v);
          }
        }
        SubsetSize(Behind(keys, cursor), Below(keys, v));
      } else {
        forall id | id in UpTo(keys, v) ensures id in Behind(keys, cursor) {
          NotBeforeChain(keys[id], v, cursor.value);
        }
        SubsetSize(UpTo(keys, v), Behind(keys, cursor));
      }
    }
  }

  lemma {:induction false} SomePaging(keys: Keys, size: nat, cursor: Option<string>) returns (pages: seq<seq<Id>>)
    requires size >= 1
    ensures IsPaging(keys, size, cursor, pages)
    decreases |Beyond(keys, cursor)|
  {
    var hits := PageExists(Beyond(keys, cursor), size);
    if |hits| < size {
      pages := [hits];
    } else {
      PageStaysBehind(keys, cursor, size, hits);
      var next := Some(keys[hits[|hits| - 1]]);
      SmallerMap(Beyond(keys, next), Beyond(keys, cursor), hits[|hits| - 1]);
      var tail := SomePaging(keys, size, next);
      pages := [hits] + tail;
      assert pages[1..] == tail;
    }
  }

  /** Pages of one size show every document, whatever the order of ties, exactly if no group of equal sort values straddles a page end. */
  lemma PagingBySizeIsCompleteIff(keys: Keys, size: nat)
    requires size >= 1
    ensures (forall pages | IsPaging(keys, size, None, pages) :: ShowsAll(pages, keys.Keys))
       <==> forall v, j :: !Straddles(keys, size, v, j)
  {
    assert Beyond(keys, None) == keys && |Behind(keys, None)| == Boundary(size, 0);
    if forall v, j :: !Straddles(keys, size, v, j) {
      forall pages | IsPaging(keys, size, None, pages) ensures ShowsAll(pages, keys.Keys) {
        forall id | id in keys ensures Shows(pages, id) {
          UnstraddledShowsAll(keys, size, None, pages, 0, id);
        }
      }
    } else {
      var v, j :| Straddles(keys, size, v, j);
      var pages := SomePaging(keys, size, None);
      if ShowsAll(pages, keys.Keys) {
        ShowsAllUnstraddled(keys, size, None, pages, 0, v, j);
      }
    }
  }

  /** Two documents with one uuid: a page of one shows the first, and nothing lies beyond it. */
  lemma SharedUuidIsSkipped()
    ensures var keys: Keys := map["i" := "x", "j" := "x"];
      IsPage(Beyond(keys, None), 1, ["i"]) && IsPage(Beyond(keys, Some("x")), 1, [])
  {
    var keys: Keys := map["i" := "x", "j" := "x"];
    BeforeIsIrreflexive("x");
    assert Beyond(keys, None) == keys && keys.Keys == {"i", "j"};
    assert Beyond(keys, Some("x")) == map[];
    assert forall id | id in keys :: keys[id] == "x";
  }

  // ---- Termination ----

  function ValuesBeyond(values: set<string>, cursor: Option<string>): set<string> {
    set v | v in values && (cursor.Some? ==> Before(cursor.value, v))
  }

  /** The cursor only moves up through the sort values there are. */
  lemma CursorMovesUp(values: set<string>, cursor: Option<string>, next: string)
    requires next in ValuesBeyond(values, cursor)
    ensures |ValuesBeyond(values, Some(next))| < |ValuesBeyond(values, cursor)|
  {
    var before, after := ValuesBeyond(values, cursor), ValuesBeyond(values, Some(next));
    forall v | v in after ensures v in before {
      if cursor.Some? {
        BeforeIsTransitive(cursor.value, next, v);
      }
    }
    BeforeIsIrreflexive(next);
    assert before == after + (before - after);
    assert next in before - after;
  }
}
