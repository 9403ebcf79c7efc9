/** Trees whose shape is determined by their elements.  Filling a container with new ids keeps every
    count exact and divides a range only when it holds more than the threshold; two such containers
    with equal elements have equal trees and hashes. */
module Canonical {
  import opened Options
  import opened Geometry
  import opened Buckets
  import opened Elements
  import opened Tree
  import opened Growth
  import opened Updates
  import opened Batches

  /** Every reachable count is the true one. */
  ghost predicate Tally(p: Params, sl: seq<Element>, nodes: Nodes, live: set<Tuple>) {
    live <= nodes.Keys && forall t | t in live :: nodes[t].count == |Within(p.xx, sl, t)|
  }

  /** Below the top only ranges above the threshold are divided. */
  ghost predicate Crisp(p: Params, sl: seq<Element>, nodes: Nodes, live: set<Tuple>) {
    Tally(p, sl, nodes, live) && forall t | t in live && t != Top && nodes[t].divided :: p.threshold < nodes[t].count
  }

  /** The same before the tree has taken in a new element with hash x. */
  ghost predicate CrispBut(p: Params, sl: seq<Element>, nodes: Nodes, live: set<Tuple>, x: u64) {
    && live <= nodes.Keys
    && (forall t | t in live :: nodes[t].count + (if In(t, x) then 1 else 0) == |Within(p.xx, sl, t)|)
    && (forall t | t in live && t != Top && nodes[t].divided :: p.threshold < nodes[t].count)
  }

  /** Ranges the tree no longer reaches stay as they are. */
  ghost predicate Untouched(nodes0: Nodes, live0: set<Tuple>, nodes: Nodes, live: set<Tuple>) {
    live0 <= live && forall t | t in nodes0 && t !in live :: t in nodes && nodes[t] == nodes0[t]
  }

  lemma UntouchedFirst(nodes: Nodes, live: set<Tuple>)
    ensures Untouched(nodes, live, nodes, live)
  {
  }

  lemma UntouchedChain(n0: Nodes, l0: set<Tuple>, n1: Nodes, l1: set<Tuple>, n2: Nodes, l2: set<Tuple>)
    requires Untouched(n0, l0, n1, l1) && Untouched(n1, l1, n2, l2)
    ensures Untouched(n0, l0, n2, l2)
  {
  }

  /** What addElement promises about unreachable ranges and exact counts. */
  ghost predicate Sharp(p: Params, sl: seq<Element>, nodes0: Nodes, live0: set<Tuple>, nodes: Nodes, live: set<Tuple>, x: u64) {
    Untouched(nodes0, live0, nodes, live) && (CrispBut(p, sl, nodes0, live0, x) ==> Crisp(p, sl, nodes, live))
  }

  lemma UpsertNew(p: Params, sl: seq<Element>, e: Element, nodes: Nodes, live: set<Tuple>)
    requires Ordered(p.xx, sl) && Crisp(p, sl, nodes, live) && forall f | f in sl :: f.id != e.id
    ensures CrispBut(p, Upsert(p.xx, sl, e), nodes, live, p.xx(e.id))
  {
    hide Within, Insert;
    WithoutAbsent(sl, e.id);
    forall t | t in live
      ensures nodes[t].count + (if In(t, p.xx(e.id)) then 1 else 0) == |Within(p.xx, Upsert(p.xx, sl, e), t)|
    {
      WithinInsert(p.xx, sl, t, e);
    }
  }

  lemma SharpLeaf(p: Params, sl: seq<Element>, nodes: Nodes, live: set<Tuple>, x: u64, r: Tuple)
    requires Shape(p, nodes, live) && r in live && In(r, x) && !nodes[r].divided
    ensures Sharp(p, sl, nodes, live, Bumped(nodes, live, x, nodes[r].level, 1), live, x)
  {
    hide IsBucket, Bucket, LevelWidth, HasLevel, Pow2, Child, Placed, Within;
    BumpedIsRaised(p, nodes, live, x, r);
    var nodes' := Bumped(nodes, live, x, nodes[r].level, 1);
    forall t | t in nodes && t !in live
      ensures t in nodes' && nodes'[t] == nodes[t]
    {
    }
  }

  lemma SharpDivided(p: Params, sl: seq<Element>, nodes: Nodes, live: set<Tuple>, x: u64, r: Tuple)
    requires Shape(p, nodes, live) && Roomy(p, sl) && r in live && In(r, x) && !nodes[r].divided
    requires IsBucket(p.k, nodes[r].level, r) && p.Df() <= LevelWidth(p.k, nodes[r].level)
    requires p.threshold < nodes[r].count + 1
    ensures var n := nodes[r].level;
            Sharp(p, sl, nodes, live, DividedAt(p, sl, Bumped(nodes, live, x, n, 1), r), live + Grow(p, sl, r, n, 0).Keys, x)
  {
    hide IsBucket, Bucket, LevelWidth, HasLevel, Pow2, Child, Within, Roomy, Placed, Grown;
    var n := nodes[r].level;
    var G := Grow(p, sl, r, n, 0);
    var bumped := Bumped(nodes, live, x, n, 1);
    BumpedIsRaised(p, nodes, live, x, r);
    GrowthIsNew(p, sl, nodes, live, r);
    GrowGrown(p, sl, r, n, 0);
    forall c | c in G
      ensures G[c].count == |Within(p.xx, sl, c)| && G[c].divided == (G[c].count > p.threshold)
    {
      GrownSays(p, sl, G, r, n, c);
    }
    forall t | t in nodes && t !in live
      ensures bumped[t] == nodes[t]
    {
    }
    RaisedThenGrown(p, sl, nodes, live, bumped, G, x, r);
  }

  lemma RaisedThenGrown(p: Params, sl: seq<Element>, nodes: Nodes, live: set<Tuple>, bumped: Nodes, G: Nodes, x: u64, r: Tuple)
    requires Raised(nodes, live, x, bumped) && r in live && In(r, x) && p.threshold < nodes[r].count + 1
    requires bumped.Keys == nodes.Keys && forall t | t in nodes && t !in live :: bumped[t] == nodes[t]
    requires forall c | c in G :: c !in live && G[c].count == |Within(p.xx, sl, c)| && G[c].divided == (G[c].count > p.threshold)
    ensures Sharp(p, sl, nodes, live, bumped[r := bumped[r].(divided := true)] + G, live + G.Keys, x)
  {
    hide Within;
  }

  // ---- recalculateHashes changes nothing else ------------------------------------------------------------

  /** b is a with hashes rewritten and leaf counts made exact, in reachable ranges only. */
  ghost predicate Rewritten(p: Params, sl: seq<Element>, a: Nodes, b: Nodes, live: set<Tuple>) {
    a.Keys == b.Keys && forall t | t in a :: RewrittenAt(p, sl, a, b, live, t)
  }

  ghost predicate RewrittenAt(p: Params, sl: seq<Element>, a: Nodes, b: Nodes, live: set<Tuple>, t: Tuple)
    requires t in a && t in b
  {
    && (t !in live ==> b[t] == a[t])
    && b[t].level == a[t].level && b[t].parent == a[t].parent && b[t].divided == a[t].divided
    && (b[t].count == a[t].count || (!a[t].divided && b[t].count == |Within(p.xx, sl, t)|))
  }

  lemma RewrittenOnce(p: Params, sl: seq<Element>, a: Nodes, live: set<Tuple>, d: Tuple)
    requires p.Ok() && d in a && d in live && (a[d].divided ==> forall c | c in Children(d, p.Df()) :: c in a)
    ensures Rewritten(p, sl, a, a[d := Rehashed(p, sl, a, d)], live)
  {
    hide Within, Children;
  }

  lemma RewrittenChain(p: Params, sl: seq<Element>, a: Nodes, b: Nodes, c: Nodes, live: set<Tuple>)
    requires Rewritten(p, sl, a, b, live) && Rewritten(p, sl, b, c, live)
    ensures Rewritten(p, sl, a, c, live)
  {
    hide Within;
    forall t | t in a
      ensures RewrittenAt(p, sl, a, c, live, t)
    {
      assert RewrittenAt(p, sl, a, b, live, t);
      assert RewrittenAt(p, sl, b, c, live, t);
    }
  }

  lemma RewrittenSame(p: Params, sl: seq<Element>, a: Nodes, live: set<Tuple>)
    ensures Rewritten(p, sl, a, a, live)
  {
  }

  lemma RewrittenKeeps(p: Params, sl: seq<Element>, a: Nodes, b: Nodes, live: set<Tuple>)
    requires Rewritten(p, sl, a, b, live)
    ensures Tally(p, sl, a, live) ==> Tally(p, sl, b, live)
    ensures Crisp(p, sl, a, live) ==> Crisp(p, sl, b, live)
    ensures Untouched(a, live, b, live)
  {
    hide Within;
    forall t | t in a
      ensures RewrittenAt(p, sl, a, b, live, t)
    {
    }
  }

  // ---- equal elements, equal trees -----------------------------------------------------------------------------

  /** A crisp tree divides a range exactly when it is the top or holds more than the threshold. */
  lemma DividedIff(p: Params, sl: seq<Element>, nodes: Nodes, live: set<Tuple>, t: Tuple)
    requires Working(p, sl, nodes, live, {}) && Crisp(p, sl, nodes, live) && t in live
    ensures nodes[t].divided <==> t == Top || p.threshold < |Within(p.xx, sl, t)|
  {
    hide Placed, Within, Roomy;
  }

  /** Two crisp trees over the same elements reach the same ranges. */
  lemma {:induction false} SameRanges(p: Params, sl: seq<Element>, a: Nodes, liveA: set<Tuple>, b: Nodes, liveB: set<Tuple>, t: Tuple)
    requires Working(p, sl, a, liveA, {}) && Crisp(p, sl, a, liveA)
    requires Working(p, sl, b, liveB, {}) && Crisp(p, sl, b, liveB) && t in liveA
    ensures t in liveB && b[t].level == a[t].level
    decreases a[t].level
  {
    hide IsBucket, Bucket, LevelWidth, HasLevel, Pow2, Child, Within, Roomy, Crisp, Working;
    WorkingShape(p, sl, a, liveA, {});
    WorkingShape(p, sl, b, liveB, {});
    if t != Top {
      assert Placed(p, a, liveA, t);
      var n := a[t].level;
      var u := Bucket(p.k, n - 1, t.from);
      LiveIsProper(p, a, liveA, u);
      SameRanges(p, sl, a, liveA, b, liveB, u);
      DividedIff(p, sl, a, liveA, u);
      DividedIff(p, sl, b, liveB, u);
      BucketProper(p.k, n, t);
      BucketUnique(p.k, n, t, t.from);
      BucketNest(p.k, n - 1, n, t.from);
      Descend(p, b, liveB, u, t.from);
    }
  }

  /** Containers filled with new ids only have equal hashes wherever they hold equal elements: the converse
      of EqualHashEqualElements, which does not hold for arbitrary containers. */
  lemma {:induction false} EqualElementsEqualHash(p: Params, sl: seq<Element>, a: Nodes, liveA: set<Tuple>, b: Nodes, liveB: set<Tuple>, t: Tuple)
    requires Working(p, sl, a, liveA, {}) && Crisp(p, sl, a, liveA)
    requires Working(p, sl, b, liveB, {}) && Crisp(p, sl, b, liveB) && t in liveA
    ensures t in liveB && a[t].hash == b[t].hash
    decreases 65 - a[t].level
  {
    hide IsBucket, Bucket, LevelWidth, HasLevel, Pow2, Child, Within, Roomy, Crisp, Gather, Placed, Exact;
    SameRanges(p, sl, a, liveA, b, liveB, t);
    DividedIff(p, sl, a, liveA, t);
    DividedIff(p, sl, b, liveB, t);
    ExactThere(p, sl, a, liveA, t);
    ExactThere(p, sl, b, liveB, t);
    if a[t].divided {
      LiveHasChildren(p, a, liveA, t);
      LiveHasChildren(p, b, liveB, t);
      LiveIsProper(p, a, liveA, t);
      forall c | c in Children(t, p.Df())
        ensures c in a && c in b && a[c].hash == b[c].hash
      {
        ChildLevel(p, a, liveA, t, c);
        LiveIsProper(p, a, liveA, c);
        EqualElementsEqualHash(p, sl, a, liveA, b, liveB, c);
      }
      GatherSame(a, b, Children(t, p.Df()));
    }
  }

  lemma ExactThere(p: Params, sl: seq<Element>, nodes: Nodes, live: set<Tuple>, t: Tuple)
    requires Working(p, sl, nodes, live, {}) && t in live
    ensures nodes[t].divided ==> forall c | c in Children(t, p.Df()) :: c in nodes
    ensures nodes[t].divided ==> nodes[t].hash == Some(OfDigests(Gather(nodes, Children(t, p.Df()))))
    ensures !nodes[t].divided ==> nodes[t].hash == ElementsHash(Within(p.xx, sl, t)) && nodes[t].count == |Within(p.xx, sl, t)|
  {
    hide Placed, Within, Roomy;
    assert Clean({}, t);
    assert Exact(p, sl, nodes, t);
  }

  lemma ChildLevel(p: Params, nodes: Nodes, live: set<Tuple>, t: Tuple, c: Tuple)
    requires Shape(p, nodes, live) && t in live && nodes[t].divided && c in Children(t, p.Df())
    ensures c in live && nodes[c].level == nodes[t].level + 1
  {
    hide IsBucket, Bucket, LevelWidth, HasLevel, Pow2, Child;
    assert Placed(p, nodes, live, t);
    InChildren(t, p.Df(), c);
  }

  // ---- what a removal does to the tree ---------------------------------------------------------------------------

  /** The parent u of the leaf falls to the threshold. */
  ghost predicate Merges(p: Params, nodes: Nodes, u: Tuple) {
    u in nodes && u != Top && nodes[u].count - 1 <= p.threshold
  }

  /** removeElement at leaf r with parent u, exactly: a merge drops the children of u and nothing below them;
      ranges that are not reachable, or not around x, keep what they say. */
  ghost predicate TakenOut(p: Params, nodes0: Nodes, live0: set<Tuple>, nodes: Nodes, live: set<Tuple>, x: u64, r: Tuple, u: Tuple) {
    && p.Ok() && r in nodes0 && r in live0 && In(r, x) && !nodes0[r].divided && nodes0[r].parent == Some(u)
    && live0 <= nodes0.Keys
    && live == (if Merges(p, nodes0, u) then Outside(live0, u) else live0)
    && nodes.Keys == (if Merges(p, nodes0, u) then nodes0.Keys - (set c | c in Children(u, p.Df())) else nodes0.Keys)
    && (forall t | t in nodes :: nodes[t].divided == (nodes0[t].divided && !(Merges(p, nodes0, u) && t == u)))
    && (forall t | t in nodes && t !in live && (t !in live0 || !In(t, x)) :: nodes[t] == nodes0[t])
  }

  lemma TakenWithoutMerge(p: Params, nodes0: Nodes, live0: set<Tuple>, x: u64, r: Tuple, u: Tuple)
    requires Shape(p, nodes0, live0) && r in live0 && In(r, x) && !nodes0[r].divided && nodes0[r].parent == Some(u)
    requires !Merges(p, nodes0, u)
    ensures TakenOut(p, nodes0, live0, Bumped(nodes0, live0, x, nodes0[r].level, -1), live0, x, r, u)
  {
    hide IsBucket, Bucket, LevelWidth, HasLevel, Pow2, Child, Placed;
  }

  lemma TakenWithMerge(p: Params, nodes0: Nodes, live0: set<Tuple>, x: u64, r: Tuple, u: Tuple)
    requires Shape(p, nodes0, live0) && r in live0 && In(r, x) && !nodes0[r].divided && nodes0[r].parent == Some(u)
    requires Merges(p, nodes0, u) && u in live0 && u !in Children(u, p.Df())
    ensures TakenOut(p, nodes0, live0, MergedAt(p, Bumped(nodes0, live0, x, nodes0[r].level, -1), u), Outside(live0, u), x, r, u)
  {
    hide IsBucket, Bucket, LevelWidth, HasLevel, Pow2, Child, Placed;
    var nodes1 := Bumped(nodes0, live0, x, nodes0[r].level, -1);
    var nodes := MergedAt(p, nodes1, u);
    assert nodes.Keys == nodes0.Keys - (set c | c in Children(u, p.Df()));
    assert forall t | t in nodes && t != u :: nodes[t] == nodes1[t];
  }

  /** Recalculating hashes afterwards changes none of that. */
  lemma TakenRewritten(p: Params, sl: seq<Element>, nodes0: Nodes, live0: set<Tuple>, a: Nodes, b: Nodes, live: set<Tuple>,
                         x: u64, r: Tuple, u: Tuple)
    requires TakenOut(p, nodes0, live0, a, live, x, r, u) && Rewritten(p, sl, a, b, live)
    ensures TakenOut(p, nodes0, live0, b, live, x, r, u)
  {
    hide Merges, Outside, Children, Within;
    forall t | t in a
      ensures RewrittenAt(p, sl, a, b, live, t)
    {
    }
  }

  lemma TallyBumped(p: Params, sl0: seq<Element>, id: string, nodes0: Nodes, live0: set<Tuple>, r: Tuple)
    requires Shape(p, nodes0, live0) && Ordered(p.xx, sl0) && r in live0 && In(r, p.xx(id)) && !nodes0[r].divided
    requires Tally(p, sl0, nodes0, live0) && exists e :: e in sl0 && e.id == id
    ensures Tally(p, Without(sl0, id), Bumped(nodes0, live0, p.xx(id), nodes0[r].level, -1), live0)
  {
    hide IsBucket, Bucket, LevelWidth, HasLevel, Pow2, Child, Placed, Within, Without;
    var nodes := Bumped(nodes0, live0, p.xx(id), nodes0[r].level, -1);
    forall t | t in live0
      ensures nodes[t].count == |Within(p.xx, Without(sl0, id), t)|
    {
      BumpedAll(p, nodes0, live0, p.xx(id), r, -1, t);
      WithinWithout(p.xx, sl0, t, id);
    }
  }

  lemma TallyMerged(p: Params, sl: seq<Element>, nodes: Nodes, live: set<Tuple>, u: Tuple)
    requires Shape(p, nodes, live) && Tally(p, sl, nodes, live) && u in live && u != Top && nodes[u].divided
    ensures Tally(p, sl, MergedAt(p, nodes, u), Outside(live, u))
  {
    hide IsBucket, Bucket, LevelWidth, HasLevel, Pow2, Child, Placed, Within, MergedAt;
    MergedNode(p, nodes, u);
    forall t | t in Outside(live, u)
      ensures t in MergedAt(p, nodes, u) && MergedAt(p, nodes, u)[t].count == nodes[t].count
    {
      MergedKeepsOthers(p, nodes, live, u, t);
    }
  }

  /** A new container is crisp. */
  lemma NewTreeCrisp(p: Params)
    requires p.Ok() && Roomy(p, []) && IsBucket(p.k, 0, Top) && p.Df() <= LevelWidth(p.k, 0)
    ensures var G := Grow(p, [], Top, 0, 0);
            Crisp(p, [], map[Top := Seed] + G, {Top} + G.Keys)
  {
    hide IsBucket, Bucket, LevelWidth, HasLevel, Pow2, Child, Roomy, Grown;
    var G := Grow(p, [], Top, 0, 0);
    GrowGrown(p, [], Top, 0, 0);
    forall c | c in G
      ensures G[c].count == 0 && !G[c].divided
    {
      GrownSays(p, [], G, Top, 0, c);
    }
    GrowInside(p, [], Top, 0, 0);
    assert Top !in G;
  }

  // ---- batches of new ids -------------------------------------------------------------------------------------

  ghost predicate NewIds(sl: seq<Element>, batch: seq<Element>) {
    DistinctIds(batch) && forall e, f | e in batch && f in sl :: e.id != f.id
  }

  lemma {:induction false} UpsertAllFrom(xx: Hasher, sl: seq<Element>, batch: seq<Element>, f: Element)
    requires Ordered(xx, sl) && f in UpsertAll(xx, sl, batch)
    ensures f in sl || f in batch
  {
    if batch != [] {
      var n := |batch| - 1;
      UpsertAllOrdered(xx, sl, batch[..n]);
      UpsertMeaning(xx, UpsertAll(xx, sl, batch[..n]), batch[n]);
      if f != batch[n] {
        UpsertAllFrom(xx, sl, batch[..n], f);
      }
    }
  }

  lemma NextIsNew(xx: Hasher, sl: seq<Element>, batch: seq<Element>, i: nat)
    requires Ordered(xx, sl) && NewIds(sl, batch) && i < |batch|
    ensures forall f | f in UpsertAll(xx, sl, batch[..i]) :: f.id != batch[i].id
  {
    hide UpsertAll;
    forall f | f in UpsertAll(xx, sl, batch[..i])
      ensures f.id != batch[i].id
    {
      UpsertAllFrom(xx, sl, batch[..i], f);
      assert batch[i] in batch;
      if f !in sl {
        var j :| 0 <= j < i && batch[j] == f;
      }
    }
  }
}
