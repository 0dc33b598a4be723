/**
 Collapsing alias pairs into one map. `Canon` says where each uuid ends; the forest with its path
 compression, as the program builds it, is proved to compute exactly that.
 */
module DirectedUuidMap {
  import opened BulkDedupe

  /** An alias and what it was resolved to. */
  type Pair = (Id, Id)

  /** The end of `u` once the pairs have been entered in order: whatever ended where the source does now ends where the target does. */
  function Canon(pairs: seq<Pair>, u: Id): Id {
    if pairs == [] then u
    else
      var n := |pairs| - 1;
      var (source, target) := pairs[n];
      if Canon(pairs[..n], u) == Canon(pairs[..n], source) then Canon(pairs[..n], target) else Canon(pairs[..n], u)
  }

  // ---- What the map means ----

  predicate Paired(pairs: seq<Pair>, a: Id, b: Id) {
    (a, b) in pairs || (b, a) in pairs
  }

  /** A walk along pairs in either direction. */
  predicate Walk(pairs: seq<Pair>, w: seq<Id>) {
    |w| >= 1 && forall i | 0 <= i < |w| - 1 :: Paired(pairs, w[i], w[i + 1])
  }

  ghost predicate Connected(pairs: seq<Pair>, a: Id, b: Id) {
    exists w :: Walk(pairs, w) && w[0] == a && w[|w| - 1] == b
  }

  lemma ConnectedToItself(pairs: seq<Pair>, a: Id)
    ensures Connected(pairs, a, a)
  {
    assert Walk(pairs, [a]);
  }

  lemma ConnectedByPair(pairs: seq<Pair>, a: Id, b: Id)
    requires Paired(pairs, a, b)
    ensures Connected(pairs, a, b)
  {
    assert Walk(pairs, [a, b]);
  }

  lemma ConnectedThrough(pairs: seq<Pair>, a: Id, b: Id, c: Id)
    requires Connected(pairs, a, b) && Connected(pairs, b, c)
    ensures Connected(pairs, a, c)
  {
    var v :| Walk(pairs, v) && v[0] == a && v[|v| - 1] == b;
    var w :| Walk(pairs, w) && w[0] == b && w[|w| - 1] == c;
    var vw := v + w[1..];
    forall i | 0 <= i < |vw| - 1 ensures Paired(pairs, vw[i], vw[i + 1]) {
      if i >= |v| - 1 {
        assert vw[i] == w[i - |v| + 1] && vw[i + 1] == w[i - |v| + 2];
      }
    }
    assert Walk(pairs, vw);
  }

  lemma {:induction false} WalkBack(pairs: seq<Pair>, w: seq<Id>)
    requires Walk(pairs, w)
    ensures Connected(pairs, w[|w| - 1], w[0])
  {
    if |w| == 1 {
      ConnectedToItself(pairs, w[0]);
    } else {
      var n := |w| - 1;
      WalkBack(pairs, w[..n]);
      assert Paired(pairs, w[n - 1], w[n]);
      ConnectedByPair(pairs, w[n], w[n - 1]);
      ConnectedThrough(pairs, w[n], w[n - 1], w[0]);
    }
  }

  lemma ConnectedBack(pairs: seq<Pair>, a: Id, b: Id)
    requires Connected(pairs, a, b)
    ensures Connected(pairs, b, a)
  {
    var w :| Walk(pairs, w) && w[0] == a && w[|w| - 1] == b;
    WalkBack(pairs, w);
  }

  lemma StillConnected(pairs: seq<Pair>, n: nat, a: Id, b: Id)
    requires n <= |pairs| && Connected(pairs[..n], a, b)
    ensures Connected(pairs, a, b)
  {
    var w :| Walk(pairs[..n], w) && w[0] == a && w[|w| - 1] == b;
    assert Walk(pairs, w);
  }

  /** A uuid is connected to where it ends. */
  lemma {:induction false} CanonIsReached(pairs: seq<Pair>, u: Id)
    ensures Connected(pairs, u, Canon(pairs, u))
  {
    if pairs == [] {
      ConnectedToItself(pairs, u);
    } else {
      var n := |pairs| - 1;
      var (source, target) := pairs[n];
      CanonIsReached(pairs[..n], u);
      StillConnected(pairs, n, u, Canon(pairs[..n], u));
      if Canon(pairs[..n], u) == Canon(pairs[..n], source) {
        CanonIsReached(pairs[..n], source);
        StillConnected(pairs, n, source, Canon(pairs[..n], source));
        ConnectedBack(pairs, source, Canon(pairs[..n], source));
        ConnectedThrough(pairs, u, Canon(pairs[..n], source), source);
        assert pairs[n] in pairs;
        ConnectedByPair(pairs, source, target);
        ConnectedThrough(pairs, u, source, target);
        CanonIsReached(pairs[..n], target);
        StillConnected(pairs, n, target, Canon(pairs[..n], target));
        ConnectedThrough(pairs, u, target, Canon(pairs[..n], target));
      }
    }
  }

  lemma {:induction false} PairEndsTogether(pairs: seq<Pair>, k: nat)
    requires k < |pairs|
    ensures Canon(pairs, pairs[k].0) == Canon(pairs, pairs[k].1)
  {
    var n := |pairs| - 1;
    if k < n {
      PairEndsTogether(pairs[..n], k);
    }
  }

  lemma {:induction false} WalkEndsTogether(pairs: seq<Pair>, w: seq<Id>)
    requires Walk(pairs, w)
    ensures Canon(pairs, w[0]) == Canon(pairs, w[|w| - 1])
  {
    if |w| == 1 {
    } else {
      var n := |w| - 1;
      WalkEndsTogether(pairs, w[..n]);
      assert Paired(pairs, w[n - 1], w[n]);
      var k :| 0 <= k < |pairs| && (pairs[k] == (w[n - 1], w[n]) || pairs[k] == (w[n], w[n - 1]));
      PairEndsTogether(pairs, k);
    }
  }

  /** Two uuids end together exactly if the pairs connect them. */
  lemma CanonSameIffConnected(pairs: seq<Pair>, a: Id, b: Id)
    ensures Canon(pairs, a) == Canon(pairs, b) <==> Connected(pairs, a, b)
  {
    if Canon(pairs, a) == Canon(pairs, b) {
      CanonIsReached(pairs, a);
      CanonIsReached(pairs, b);
      ConnectedBack(pairs, b, Canon(pairs, b));
      ConnectedThrough(pairs, a, Canon(pairs, a), b);
    }
    if Connected(pairs, a, b) {
      var w :| Walk(pairs, w) && w[0] == a && w[|w| - 1] == b;
      WalkEndsTogether(pairs, w);
    }
  }

  /** What a uuid ends at ends at itself. */
  lemma CanonIsFinal(pairs: seq<Pair>, u: Id)
    ensures Canon(pairs, Canon(pairs, u)) == Canon(pairs, u)
  {
    CanonIsReached(pairs, u);
    CanonSameIffConnected(pairs, u, Canon(pairs, u));
  }

  /** Once a uuid ends elsewhere it never ends at itself again. */
  lemma {:induction false} MovedForGood(pairs: seq<Pair>, n: nat, u: Id)
    requires n <= |pairs| && Canon(pairs[..n], u) != u
    ensures Canon(pairs, u) != u
  {
    if n == |pairs| {
      assert pairs[..n] == pairs;
    } else {
      var m := |pairs| - 1;
      assert pairs[..m][..n] == pairs[..n];
      MovedForGood(pairs[..m], n, u);
      CanonIsFinal(pairs[..m], pairs[m].1);
    }
  }

  /** No pair takes `u` away: where a source is connected with `u`, so is its target already. */
  ghost predicate NeverTakenAway(pairs: seq<Pair>, u: Id) {
    forall i | 0 <= i < |pairs| && Connected(pairs[..i], pairs[i].0, u) :: Connected(pairs[..i], pairs[i].1, u)
  }

  lemma {:induction false} KeptSoFar(pairs: seq<Pair>, n: nat, u: Id)
    requires n <= |pairs| && NeverTakenAway(pairs, u)
    ensures Canon(pairs[..n], u) == u
  {
    if n == 0 {
    } else {
      KeptSoFar(pairs, n - 1, u);
      assert pairs[..n][..n - 1] == pairs[..n - 1];
      CanonSameIffConnected(pairs[..n - 1], pairs[n - 1].0, u);
      CanonSameIffConnected(pairs[..n - 1], pairs[n - 1].1, u);
    }
  }

  /** A uuid is canonical exactly if no pair takes it away. */
  lemma CanonicalIff(pairs: seq<Pair>, u: Id)
    ensures Canon(pairs, u) == u <==> NeverTakenAway(pairs, u)
  {
    assert pairs[..|pairs|] == pairs;
    if NeverTakenAway(pairs, u) {
      KeptSoFar(pairs, |pairs|, u);
    } else {
      var i :| 0 <= i < |pairs| && Connected(pairs[..i], pairs[i].0, u) && !Connected(pairs[..i], pairs[i].1, u);
      CanonSameIffConnected(pairs[..i], pairs[i].0, u);
      CanonSameIffConnected(pairs[..i], pairs[i].1, u);
      if Canon(pairs[..i], u) == u {
        assert pairs[..i + 1][..i] == pairs[..i];
        MovedForGood(pairs, i + 1, u);
      } else {
        MovedForGood(pairs, i, u);
      }
    }
  }

  /** `u` was resolved to some other uuid. */
  predicate IsAlias(pairs: seq<Pair>, u: Id) {
    exists i :: 0 <= i < |pairs| && pairs[i].0 == u && pairs[i].1 != u
  }

  /** Direction is kept, what is no alias being canonical, exactly if no pair takes such a uuid away; pairs may repeat. */
  lemma DirectionKeptIff(pairs: seq<Pair>)
    ensures (forall u | !IsAlias(pairs, u) :: Canon(pairs, u) == u) <==>
      (forall i, u | 0 <= i < |pairs| && !IsAlias(pairs, u) && Connected(pairs[..i], pairs[i].0, u) ::
         Connected(pairs[..i], pairs[i].1, u))
  {
    forall u ensures Canon(pairs, u) == u <==> NeverTakenAway(pairs, u) {
      CanonicalIff(pairs, u);
    }
    if forall u | !IsAlias(pairs, u) :: Canon(pairs, u) == u {
      assert forall u | !IsAlias(pairs, u) :: NeverTakenAway(pairs, u);
    }
  }

  /** It is if no uuid is resolved to two different others, however often each pair is entered. */
  lemma {:induction false} OneTargetKeepsDirection(pairs: seq<Pair>, u: Id)
    requires forall i, j | 0 <= i < |pairs| && 0 <= j < |pairs| && pairs[i].0 == pairs[j].0 ::
      pairs[i].1 == pairs[i].0 || pairs[j].1 == pairs[j].0 || pairs[i].1 == pairs[j].1
    requires !IsAlias(pairs, u)
    ensures Canon(pairs, u) == u
  {
    if pairs == [] {
    } else {
      var n := |pairs| - 1;
      var (source, target) := pairs[n];
      forall v | IsAlias(pairs[..n], v) ensures IsAlias(pairs, v) {
        var k :| 0 <= k < n && pairs[..n][k].0 == v && pairs[..n][k].1 != v;
        assert pairs[k] == pairs[..n][k];
      }
      OneTargetKeepsDirection(pairs[..n], u);
      if source != target {
        if IsAlias(pairs[..n], source) {
          var k :| 0 <= k < n && pairs[..n][k].0 == source && pairs[..n][k].1 != source;
          assert pairs[k].1 == pairs[n].1;
          PairEndsTogether(pairs[..n], k);
        } else {
          OneTargetKeepsDirection(pairs[..n], source);
          assert IsAlias(pairs, source);
        }
      }
    }
  }

  /** It is not otherwise: of an alias resolved to "x" and then to "y", "x" ends at "y" as well. */
  lemma AliasResolvedTwice()
    ensures var pairs := [("a", "x"), ("a", "y")]; !IsAlias(pairs, "x") && Canon(pairs, "x") == "y"
  {
    var pairs := [("a", "x"), ("a", "y")];
    assert pairs[..1] == [("a", "x")] && pairs[..1][..0] == [];
    assert Canon(pairs[..1], "x") == "x" && Canon(pairs[..1], "a") == "x" && Canon(pairs[..1], "y") == "y";
  }

  // ---- The forest ----

  function Mentioned(pairs: seq<Pair>): set<Id> {
    (set i | 0 <= i < |pairs| :: pairs[i].0) + set i | 0 <= i < |pairs| :: pairs[i].1
  }

  lemma MentionedAppend(pairs: seq<Pair>, p: Pair)
    ensures Mentioned(pairs + [p]) == Mentioned(pairs) + {p.0, p.1}
  {
    var all := pairs + [p];
    assert forall i | 0 <= i < |pairs| :: all[i] == pairs[i];
    assert all[|pairs|] == p;
  }

  lemma {:induction false} UnmentionedIsCanonical(pairs: seq<Pair>, u: Id)
    requires u !in Mentioned(pairs)
    ensures Canon(pairs, u) == u
  {
    if pairs == [] {
    } else {
      var n := |pairs| - 1;
      assert pairs == pairs[..n] + [pairs[n]];
      MentionedAppend(pairs[..n], pairs[n]);
      UnmentionedIsCanonical(pairs[..n], u);
      CanonStaysMentioned(pairs[..n], pairs[n].0);
    }
  }

  /** A uuid ends at itself or at one that some pair mentions. */
  lemma {:induction false} CanonStaysMentioned(pairs: seq<Pair>, u: Id)
    ensures Canon(pairs, u) == u || Canon(pairs, u) in Mentioned(pairs)
  {
    if pairs == [] {
    } else {
      var n := |pairs| - 1;
      assert pairs == pairs[..n] + [pairs[n]];
      MentionedAppend(pairs[..n], pairs[n]);
      CanonStaysMentioned(pairs[..n], u);
      CanonStaysMentioned(pairs[..n], pairs[n].1);
    }
  }

  /** `x` leads, by a falling height, to its root. */
  ghost predicate Rooted(parent: map<Id, Id>, root: map<Id, Id>, height: map<Id, nat>, x: Id) {
    && x in parent && x in root && x in height
    && parent[x] in height && root[x] in height && parent[x] in root && root[x] in root
    && root[parent[x]] == root[x] && root[root[x]] == root[x]
    && (parent[x] == x <==> root[x] == x)
    && (parent[x] != x ==> height[parent[x]] < height[x])
    && (root[x] != x ==> height[root[x]] < height[x])
  }

  ghost predicate Forest(parent: map<Id, Id>, root: map<Id, Id>, height: map<Id, nat>) {
    && parent.Keys == root.Keys == height.Keys
    && forall x {:trigger Rooted(parent, root, height, x)} | x in parent :: Rooted(parent, root, height, x)
  }

  ghost function Rerooted(root: map<Id, Id>, rs: Id, rt: Id): map<Id, Id> {
    map x | x in root :: if root[x] == rs then rt else root[x]
  }

  ghost function Raised(root: map<Id, Id>, height: map<Id, nat>, rs: Id, rt: Id): map<Id, nat>
    requires root.Keys == height.Keys && rt in height
  {
    map x | x in root :: if root[x] == rs then height[x] + height[rt] + 1 else height[x]
  }

  /** Hanging the tree of `rs` under `rt`. */
  lemma LinkKeepsForest(parent: map<Id, Id>, root: map<Id, Id>, height: map<Id, nat>, rs: Id, rt: Id)
    requires Forest(parent, root, height) && rs in parent && rt in parent && root[rs] == rs && root[rt] == rt && rs != rt
    ensures Forest(parent[rs := rt], Rerooted(root, rs, rt), Raised(root, height, rs, rt))
  {
    var parent', root', height' := parent[rs := rt], Rerooted(root, rs, rt), Raised(root, height, rs, rt);
    assert parent'.Keys == parent.Keys && root'.Keys == root.Keys && height'.Keys == height.Keys;
    forall x | x in parent' ensures Rooted(parent', root', height', x) {
      assert Rooted(parent, root, height, x) && Rooted(parent, root, height, rs) && Rooted(parent, root, height, rt);
    }
  }

  /** Path compression: a uuid may hang directly under its root. */
  lemma CompressKeepsForest(parent: map<Id, Id>, root: map<Id, Id>, height: map<Id, nat>, x: Id)
    requires Forest(parent, root, height) && x in parent && root[x] != x
    ensures Forest(parent[x := root[x]], root, height)
  {
    var parent' := parent[x := root[x]];
    assert Rooted(parent, root, height, x);
    assert parent'.Keys == parent.Keys;
    forall y | y in parent' ensures Rooted(parent', root, height, y) {
      assert Rooted(parent, root, height, y);
    }
  }

  /** A new uuid is a tree of its own. */
  lemma SingleKeepsForest(parent: map<Id, Id>, root: map<Id, Id>, height: map<Id, nat>, x: Id)
    requires Forest(parent, root, height) && x !in parent
    ensures Forest(parent[x := x], root[x := x], height[x := 0])
  {
    var parent', root', height' := parent[x := x], root[x := x], height[x := 0];
    forall y | y in parent' ensures Rooted(parent', root', height', y) {
      assert y != x ==> Rooted(parent, root, height, y);
    }
  }

  class UuidForest {
    var parent: map<Id, Id>
    ghost var root: map<Id, Id>
    ghost var height: map<Id, nat>

    ghost predicate Valid()
      reads this
    {
      Forest(parent, root, height)
    }

    constructor ()
      ensures Valid() && parent == map[]
    {
      parent, root, height := map[], map[], map[];
    }

    /** `parent.setdefault(uuid, uuid)`. */
    method SetDefault(uuid: Id)
      requires Valid()
      modifies this
      ensures Valid()
      ensures root == if uuid in old(root) then old(root) else old(root)[uuid := uuid]
    {
      if uuid !in parent {
        SingleKeepsForest(parent, root, height, uuid);
        parent, root, height := parent[uuid := uuid], root[uuid := uuid], height[uuid := 0];
      }
    }

    /** `find`: climb to the root, then hang everything on the way directly under it. */
    method Find(uuid: Id) returns (r: Id)
      requires Valid()
      modifies this
      ensures Valid() && uuid in root && r == root[uuid]
      ensures root == if uuid in old(root) then old(root) else old(root)[uuid := uuid]
    {
      SetDefault(uuid);
      ghost var known := root;
      r := uuid;
      while parent[r] != r
        invariant Valid() && root == known && r in parent && root[r] == root[uuid]
        decreases height[r]
      {
        assert Rooted(parent, root, height, r);
        r := parent[r];
      }
      assert Rooted(parent, root, height, r);
      var x := uuid;
      while parent[x] != r
        invariant Valid() && root == known && x in parent && root[x] == r && root[r] == r
        decreases height[x]
      {
        assert Rooted(parent, root, height, x) && Rooted(parent, root, height, r);
        CompressKeepsForest(parent, root, height, x);
        var next := parent[x];
        parent := parent[x := r];
        x := next;
      }
    }

    /** `parent[find(source)] = find(target)`. */
    method Link(source: Id, target: Id)
      requires Valid() && source in root && target in root
      modifies this
      ensures Valid() && root == Rerooted(old(root), old(root[source]), old(root[target]))
    {
      var rt := Find(target);
      var rs := Find(source);
      assert Rooted(parent, root, height, source) && Rooted(parent, root, height, target);
      assert Rooted(parent, root, height, rs) && Rooted(parent, root, height, rt);
      if rs == rt {
        assert root == Rerooted(root, rs, rt);
        assert parent[rs := rt] == parent;
        parent := parent[rs := rt];
      } else {
        LinkKeepsForest(parent, root, height, rs, rt);
        parent := parent[rs := rt];
        ghost var before := root;
        root := Rerooted(before, rs, rt);
        height := Raised(before, height, rs, rt);
      }
    }

    /** One turn of the loop over pairs. */
    method EnterPair(source: Id, target: Id, ghost pairs: seq<Pair>)
      requires Valid() && RootsAreCanon(root, pairs)
      modifies this
      ensures Valid() && RootsAreCanon(root, pairs + [(source, target)])
    {
      ghost var before := root;
      SetDefault(source);
      SetDefault(target);
      LinkEntersPair(before, root, pairs, (source, target));
      Link(source, target);
    }

    /** The final comprehension. */
    method ToMap() returns (m: UuidMap)
      requires Valid()
      modifies this
      ensures Valid() && m == old(root)
    {
      m := map[];
      var rest := parent.Keys;
      while rest != {}
        invariant Valid() && root == old(root)
        invariant rest <= root.Keys && m.Keys == root.Keys - rest && forall u | u in m :: m[u] == root[u]
        decreases |rest|
      {
        var u :| u in rest;
        var r := Find(u);
        m := m[u := r];
        rest := rest - {u};
      }
    }
  }

  /** The forest's roots are where the pairs entered so far lead. */
  ghost predicate RootsAreCanon(root: map<Id, Id>, pairs: seq<Pair>) {
    root.Keys == Mentioned(pairs) && forall u | u in root :: root[u] == Canon(pairs, u)
  }

  lemma LinkEntersPair(before: map<Id, Id>, known: map<Id, Id>, pairs: seq<Pair>, p: Pair)
    requires RootsAreCanon(before, pairs)
    requires known.Keys == before.Keys + {p.0, p.1}
    requires forall u | u in known :: known[u] == if u in before then before[u] else u
    ensures RootsAreCanon(Rerooted(known, known[p.0], known[p.1]), pairs + [p])
  {
    MentionedAppend(pairs, p);
    assert (pairs + [p])[..|pairs|] == pairs;
    forall u | u in known ensures known[u] == Canon(pairs, u) {
      if u !in before {
        UnmentionedIsCanonical(pairs, u);
      }
    }
  }

  /** `_build_directed_uuid_map`. */
  method BuildDirectedUuidMap(pairs: seq<Pair>) returns (m: UuidMap)
    ensures m.Keys == Mentioned(pairs) && forall u | u in m :: m[u] == Canon(pairs, u)
  {
    var forest := new UuidForest();
    assert Mentioned([]) == {};
    for i := 0 to |pairs|
      invariant fresh(forest) && forest.Valid() && RootsAreCanon(forest.root, pairs[..i])
    {
      forest.EnterPair(pairs[i].0, pairs[i].1, pairs[..i]);
      assert pairs[..i + 1] == pairs[..i] + [pairs[i]];
    }
    assert pairs[..|pairs|] == pairs;
    m := forest.ToMap();
  }

  /** The map sends no target on to a third uuid, so rewriting pointers through it again is harmless. */
  lemma DirectedMapIsSettled(pairs: seq<Pair>, m: UuidMap)
    requires m.Keys == Mentioned(pairs) && forall u | u in m :: m[u] == Canon(pairs, u)
    ensures Settled(m)
    ensures forall a, b | a in m && b in m :: m[a] == m[b] <==> Connected(pairs, a, b)
  {
    forall u | u in m ensures Canon(pairs, Canon(pairs, u)) == Canon(pairs, u) {
      CanonIsFinal(pairs, u);
    }
    forall a, b | a in m && b in m ensures m[a] == m[b] <==> Connected(pairs, a, b) {
      CanonSameIffConnected(pairs, a, b);
    }
  }
}
