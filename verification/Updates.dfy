/** addElement, removeElement and one round of recalculateHashes, as steps on the node map, and
    what each of them keeps. */
module Updates {
  import opened Options
  import opened Geometry
  import opened Buckets
  import opened Elements
  import opened Tree
  import opened Growth

  /** What holds whenever no operation is half done: some hashes may be out of date, but each
      such range has a dirty range inside it. */
  ghost predicate Working(p: Params, sl: seq<Element>, nodes: Nodes, live: set<Tuple>, dirty: set<Tuple>) {
    && p.Ok() && live <= nodes.Keys && Shape(p, nodes, live)
    && Ordered(p.xx, sl) && Roomy(p, sl)
    && dirty <= live
    && Counted(p, sl, nodes, live)
    && Settled(p, sl, nodes, live, dirty)
  }

  /** The container already has its new element with hash x, the tree does not know it yet. */
  ghost predicate Awaiting(p: Params, sl: seq<Element>, nodes: Nodes, live: set<Tuple>, dirty: set<Tuple>, x: u64) {
    && p.Ok() && live <= nodes.Keys && Shape(p, nodes, live)
    && Ordered(p.xx, sl) && Roomy(p, sl)
    && dirty <= live
    && (forall t | t in live :: AlmostCounted(p, sl, nodes, t, x))
    && (forall t | t in live && !In(t, x) && Clean(dirty, t) :: Exact(p, sl, nodes, t))
  }

  ghost predicate AlmostCounted(p: Params, sl: seq<Element>, nodes: Nodes, t: Tuple, x: u64)
    requires t in nodes
  {
    && |Within(p.xx, sl, t)| <= nodes[t].count + (if In(t, x) then 1 else 0)
    && (!nodes[t].divided ==> nodes[t].count <= p.threshold)
  }

  lemma UpsertAwaits(p: Params, sl: seq<Element>, e: Element, nodes: Nodes, live: set<Tuple>, dirty: set<Tuple>)
    requires Working(p, sl, nodes, live, dirty) && Roomy(p, Upsert(p.xx, sl, e))
    ensures Awaiting(p, Upsert(p.xx, sl, e), nodes, live, dirty, p.xx(e.id))
  {
    hide Placed, Within, Upsert, Roomy, Clean;
    var sl' := Upsert(p.xx, sl, e);
    UpsertMeaning(p.xx, sl, e);
    forall t | t in live
      ensures AlmostCounted(p, sl', nodes, t, p.xx(e.id))
      ensures !In(t, p.xx(e.id)) && Clean(dirty, t) ==> Exact(p, sl', nodes, t)
    {
      WithinUpsert(p.xx, sl, t, e);
    }
  }

  // ---- counting along the path ------------------------------------------------------------------

  /** Counts of the live ranges around x, down to level n, changed by delta. */
  function Bumped(nodes: Nodes, live: set<Tuple>, x: u64, n: int, delta: int): Nodes {
    map t | t in nodes ::
      if t in live && In(t, x) && nodes[t].level <= n then nodes[t].(count := nodes[t].count + delta) else nodes[t]
  }

  /** The same tree as far as shape goes. */
  ghost predicate SameShape(a: Nodes, b: Nodes, live: set<Tuple>) {
    && live <= a.Keys && live <= b.Keys
    && forall t | t in live :: a[t].level == b[t].level && a[t].parent == b[t].parent && a[t].divided == b[t].divided
  }

  lemma ShapeKept(p: Params, a: Nodes, b: Nodes, live: set<Tuple>)
    requires Shape(p, a, live) && SameShape(a, b, live)
    ensures Shape(p, b, live)
  {
    hide IsBucket, Bucket, LevelWidth, HasLevel, Pow2, Child;
    forall t | t in live
      ensures Placed(p, b, live, t)
    {
      assert Placed(p, a, live, t);
    }
  }

  /** One more step of the descent of addElement and removeElement. */
  lemma BumpedDeeper(p: Params, nodes: Nodes, live: set<Tuple>, x: u64, n: int, c: Tuple, delta: int)
    requires Shape(p, nodes, live) && c in live && nodes[c].level == n + 1 && In(c, x)
    ensures var a := Bumped(nodes, live, x, n, delta);
            a[c := a[c].(count := a[c].count + delta)] == Bumped(nodes, live, x, n + 1, delta)
  {
    hide IsBucket, Bucket, LevelWidth, HasLevel, Pow2, Child, Placed;
    var a := Bumped(nodes, live, x, n, delta);
    var b := a[c := a[c].(count := a[c].count + delta)];
    forall t | t in nodes
      ensures b[t] == Bumped(nodes, live, x, n + 1, delta)[t]
    {
      if t in live && In(t, x) && nodes[t].level == n + 1 {
        SameLevelSameRange(p, nodes, live, x, c, t);
      }
    }
  }

  lemma SameLevelSameRange(p: Params, nodes: Nodes, live: set<Tuple>, x: u64, c: Tuple, t: Tuple)
    requires Shape(p, nodes, live) && c in live && t in live && In(c, x) && In(t, x) && nodes[t].level == nodes[c].level
    ensures t == c
  {
    hide IsBucket, Bucket, LevelWidth, HasLevel, Pow2, Child;
    assert Placed(p, nodes, live, t) && Placed(p, nodes, live, c);
    BucketUnique(p.k, nodes[c].level, t, x);
    BucketUnique(p.k, nodes[c].level, c, x);
  }

  /** At the leaf the descent has touched every live range around x. */
  lemma BumpedAll(p: Params, nodes: Nodes, live: set<Tuple>, x: u64, r: Tuple, delta: int, t: Tuple)
    requires Shape(p, nodes, live) && r in live && In(r, x) && !nodes[r].divided && t in live
    ensures Bumped(nodes, live, x, nodes[r].level, delta)[t] ==
            if In(t, x) then nodes[t].(count := nodes[t].count + delta) else nodes[t]
  {
    hide IsBucket, Bucket, LevelWidth, HasLevel, Pow2, Child;
    if In(t, x) {
      LeafIsDeepest(p, nodes, live, r, t, x);
    }
  }

  /** Exactness of a range away from x does not depend on counts along the path of x. */
  lemma ExactKept(p: Params, sl: seq<Element>, a: Nodes, b: Nodes, live: set<Tuple>, t: Tuple)
    requires Shape(p, a, live) && t in live && t in b && Exact(p, sl, a, t) && b[t] == a[t]
    requires forall c | c in live && Sub(c, t) :: c in b && b[c].hash == a[c].hash
    ensures Exact(p, sl, b, t)
  {
    hide IsBucket, Bucket, LevelWidth, HasLevel, Pow2, Child, Within;
    if a[t].divided {
      assert Placed(p, a, live, t);
      forall c | c in Children(t, p.Df())
        ensures c in a && c in b && a[c].hash == b[c].hash
      {
        InChildren(t, p.Df(), c);
        var j :| 0 <= j < p.Df() && c == Child(t, p.Df(), j);
        ChildIsBucket(p.k, a[t].level, t, j);
      }
      GatherSame(a, b, Children(t, p.Df()));
    }
  }

  // ---- addElement -------------------------------------------------------------------------------

  /** No live range lies strictly inside a leaf, so new nodes never collide with live ones. */
  lemma GrowthIsNew(p: Params, sl: seq<Element>, nodes: Nodes, live: set<Tuple>, r: Tuple)
    requires Shape(p, nodes, live) && Roomy(p, sl) && r in live && !nodes[r].divided
    requires IsBucket(p.k, nodes[r].level, r) && p.Df() <= LevelWidth(p.k, nodes[r].level)
    ensures AllInside(p, Grow(p, sl, r, nodes[r].level, 0), r, nodes[r].level, r.from)
    ensures Grow(p, sl, r, nodes[r].level, 0).Keys !! live
  {
    hide IsBucket, Bucket, LevelWidth, HasLevel, Pow2, Child, Within, Roomy;
    var n := nodes[r].level;
    var G := Grow(p, sl, r, n, 0);
    GrowInside(p, sl, r, n, 0);
    ChildIsBucket(p.k, n, r, 0);
    forall c | c in G
      ensures Inside(p, G, r, n, r.from, c) && c !in live
    {
      assert Inside(p, G, r, n, Child(r, p.Df(), 0).from, c);
      if c in live {
        InsideLeaf(p, nodes, live, r, c);
      }
    }
  }

  /** The tree after leaf r has been divided. */
  ghost function DividedAt(p: Params, sl: seq<Element>, nodes: Nodes, r: Tuple): Nodes
    requires p.Ok() && Roomy(p, sl) && r in nodes
    requires IsBucket(p.k, nodes[r].level, r) && p.Df() <= LevelWidth(p.k, nodes[r].level)
  {
    nodes[r := nodes[r].(divided := true)] + Grow(p, sl, r, nodes[r].level, 0)
  }

  lemma DividedShape(p: Params, sl: seq<Element>, nodes: Nodes, live: set<Tuple>, r: Tuple)
    requires Shape(p, nodes, live) && Roomy(p, sl) && r in live && !nodes[r].divided
    requires IsBucket(p.k, nodes[r].level, r) && p.Df() <= LevelWidth(p.k, nodes[r].level)
    ensures Shape(p, DividedAt(p, sl, nodes, r), live + Grow(p, sl, r, nodes[r].level, 0).Keys)
  {
    hide IsBucket, Bucket, LevelWidth, HasLevel, Pow2, Child, Within, Roomy, Placed, Grow, Grown;
    var n := nodes[r].level;
    var G := Grow(p, sl, r, n, 0);
    var nodes', live' := DividedAt(p, sl, nodes, r), live + G.Keys;
    GrowthIsNew(p, sl, nodes, live, r);
    GrowGrown(p, sl, r, n, 0);
    forall t | t in live'
      ensures Placed(p, nodes', live', t)
    {
      if t in G {
        GrownIsPlaced(p, sl, nodes', live', G, r, n, t);
      } else if t == r {
        SplitIsPlaced(p, nodes, live, nodes', live', G, r);
      } else {
        OthersPlaced(p, nodes, live, nodes', live', r, t);
      }
    }
  }

  lemma GrownIsPlaced(p: Params, sl: seq<Element>, nodes: Nodes, live: set<Tuple>, G: Nodes, r: Tuple, n: int, c: Tuple)
    requires p.Ok() && live <= nodes.Keys && c in G && Grown(p, sl, G, r, n, c)
    requires G.Keys <= live && forall d | d in G :: nodes[d] == G[d]
    requires r in live && nodes[r].divided && nodes[r].level == n
    ensures c in live && Placed(p, nodes, live, c)
  {
    hide IsBucket, Bucket, LevelWidth, HasLevel, Pow2, Child, Within;
  }

  lemma SplitIsPlaced(p: Params, nodes: Nodes, live: set<Tuple>, nodes': Nodes, live': set<Tuple>, G: Nodes, r: Tuple)
    requires Shape(p, nodes, live) && r in live && r != Top && live <= live' <= nodes'.Keys && G.Keys <= live'
    requires nodes'[r] == nodes[r].(divided := true) && !nodes[r].divided
    requires forall t | t in live && t != r :: nodes'[t] == nodes[t]
    requires forall c | c in G :: nodes'[c] == G[c]
    requires p.Df() <= LevelWidth(p.k, nodes[r].level) && ChildrenIn(p, G, r, nodes[r].level, 0)
    ensures Placed(p, nodes', live', r)
  {
    hide IsBucket, Bucket, LevelWidth, Pow2, Child;
    assert Placed(p, nodes, live, r);
    assert Hangs(p, nodes', live', r);
  }

  lemma OthersPlaced(p: Params, nodes: Nodes, live: set<Tuple>, nodes': Nodes, live': set<Tuple>, r: Tuple, t: Tuple)
    requires Shape(p, nodes, live) && r in live && t in live && t != r && live <= live' <= nodes'.Keys
    requires nodes'[r] == nodes[r].(divided := true)
    requires forall t | t in live && t != r :: nodes'[t] == nodes[t]
    ensures Placed(p, nodes', live', t)
  {
    hide IsBucket, Bucket, LevelWidth, HasLevel, Pow2, Child;
    assert Placed(p, nodes, live, t);
  }

  /** Dropping the parent's mark is harmless while something inside the child is dirty. */
  lemma DropParentMark(before: set<Tuple>, dirty: set<Tuple>, r: Tuple, u: Tuple)
    requires Refines(before, dirty) && !Clean(dirty, r) && Sub(r, u) && r != u
    ensures Refines(before, dirty - {u}) && !Clean(dirty - {u}, r)
  {
    var d :| d in dirty && Sub(d, r);
    assert d != u;
    assert d in dirty - {u};
    forall e | e in before
      ensures !Clean(dirty - {u}, e)
    {
      var f :| f in dirty && Sub(f, e);
      if f == u {
        assert Sub(d, e);
      } else {
        assert f in dirty - {u};
      }
    }
  }

  /** addElement when the leaf stays within the threshold. */
  lemma AddKeepsLeaf(p: Params, sl: seq<Element>, nodes: Nodes, live: set<Tuple>, dirty: set<Tuple>,
                     x: u64, r: Tuple, dirty': set<Tuple>)
    requires Awaiting(p, sl, nodes, live, dirty, x) && r in live && In(r, x) && !nodes[r].divided
    requires nodes[r].count + 1 <= p.threshold
    requires dirty' <= live && Refines(dirty, dirty') && !Clean(dirty', r)
    ensures Working(p, sl, Bumped(nodes, live, x, nodes[r].level, 1), live, dirty')
  {
    hide IsBucket, Bucket, LevelWidth, HasLevel, Pow2, Child, Within, Roomy, Placed, Exact;
    var nodes' := Bumped(nodes, live, x, nodes[r].level, 1);
    ShapeKept(p, nodes, nodes', live);
    forall t | t in live
      ensures |Within(p.xx, sl, t)| <= nodes'[t].count && (!nodes'[t].divided ==> nodes'[t].count <= p.threshold)
    {
      BumpedAll(p, nodes, live, x, r, 1, t);
      assert AlmostCounted(p, sl, nodes, t, x);
      if In(t, x) && !nodes[t].divided {
        LeafIsDeepest(p, nodes, live, r, t, x);
        LeafIsDeepest(p, nodes, live, t, r, x);
      }
    }
    forall t | t in live && Clean(dirty', t)
      ensures Exact(p, sl, nodes', t)
    {
      AwayIsExact(p, sl, nodes, live, dirty, dirty', x, r, t);
      BumpedAll(p, nodes, live, x, r, 1, t);
      ExactKept(p, sl, nodes, nodes', live, t);
    }
  }

  lemma UncleanAround(dirty: set<Tuple>, r: Tuple, t: Tuple)
    requires !Clean(dirty, r) && Sub(r, t)
    ensures !Clean(dirty, t)
  {
    var d :| d in dirty && Sub(d, r);
    assert Sub(d, t);
  }

  /** A live range that is clean afterwards is away from x and was clean before. */
  lemma AwayIsExact(p: Params, sl: seq<Element>, nodes: Nodes, live: set<Tuple>, dirty: set<Tuple>, dirty': set<Tuple>,
                    x: u64, r: Tuple, t: Tuple)
    requires Awaiting(p, sl, nodes, live, dirty, x) && r in live && In(r, x) && !nodes[r].divided
    requires Refines(dirty, dirty') && !Clean(dirty', r) && t in live && Clean(dirty', t)
    ensures !In(t, x) && Exact(p, sl, nodes, t)
  {
    hide IsBucket, Bucket, LevelWidth, HasLevel, Pow2, Child, Within, Roomy, Placed, Exact;
    if In(t, x) {
      LeafIsDeepest(p, nodes, live, r, t, x);
      UncleanAround(dirty', r, t);
    }
    if !Clean(dirty, t) {
      RefinesKeepsUnclean(dirty, dirty', t);
    }
  }

  lemma GrownLeafExact(p: Params, sl: seq<Element>, nodes: Nodes, G: Nodes, r: Tuple, n: int, c: Tuple)
    requires p.Ok() && c in G && c in nodes && nodes[c] == G[c] && !G[c].divided && Grown(p, sl, G, r, n, c)
    ensures Exact(p, sl, nodes, c)
  {
  }

  /** The counts after a division: a new range is counted exactly, an old one has been raised on the path. */
  lemma DividedCount(p: Params, sl: seq<Element>, nodes: Nodes, live: set<Tuple>, dirty: set<Tuple>, x: u64, r: Tuple, t: Tuple)
    requires Awaiting(p, sl, nodes, live, dirty, x) && r in live && In(r, x) && !nodes[r].divided
    requires IsBucket(p.k, nodes[r].level, r) && p.Df() <= LevelWidth(p.k, nodes[r].level)
    requires t in live + Grow(p, sl, r, nodes[r].level, 0).Keys
    ensures var nodes' := DividedAt(p, sl, Bumped(nodes, live, x, nodes[r].level, 1), r);
            t in nodes' && |Within(p.xx, sl, t)| <= nodes'[t].count && (!nodes'[t].divided ==> nodes'[t].count <= p.threshold)
  {
    hide IsBucket, Bucket, LevelWidth, HasLevel, Pow2, Child, Within, Roomy, Placed, Exact, Clean, Ordered, Grow;
    var n := nodes[r].level;
    var G := Grow(p, sl, r, n, 0);
    if t in G {
      GrowGrown(p, sl, r, n, 0);
      assert Grown(p, sl, G, r, n, t);
    } else {
      BumpedAll(p, nodes, live, x, r, 1, t);
      assert AlmostCounted(p, sl, nodes, t, x);
      if In(t, x) && !nodes[t].divided {
        LeafIsDeepest(p, nodes, live, r, t, x);
        LeafIsDeepest(p, nodes, live, t, r, x);
      }
    }
  }

  lemma DividedExact(p: Params, sl: seq<Element>, nodes: Nodes, live: set<Tuple>, dirty: set<Tuple>,
                     x: u64, r: Tuple, dirty': set<Tuple>, t: Tuple)
    requires Awaiting(p, sl, nodes, live, dirty, x) && r in live && In(r, x) && !nodes[r].divided
    requires IsBucket(p.k, nodes[r].level, r) && p.Df() <= LevelWidth(p.k, nodes[r].level)
    requires Refines(dirty, dirty') && !Clean(dirty', r)
    requires var G := Grow(p, sl, r, nodes[r].level, 0);
             t in live + G.Keys && Clean(dirty', t) && forall c | c in G && G[c].divided :: !Clean(dirty', c)
    ensures var nodes' := DividedAt(p, sl, Bumped(nodes, live, x, nodes[r].level, 1), r);
            t in nodes' && Exact(p, sl, nodes', t)
  {
    hide IsBucket, Bucket, LevelWidth, HasLevel, Pow2, Child, Within, Roomy, Placed, Exact, Clean, Refines,
         Ordered, AlmostCounted, Grow;
    var n := nodes[r].level;
    var G := Grow(p, sl, r, n, 0);
    var nodes' := DividedAt(p, sl, Bumped(nodes, live, x, n, 1), r);
    GrowthIsNew(p, sl, nodes, live, r);
    if t in G {
      GrowGrown(p, sl, r, n, 0);
      GrownLeafExact(p, sl, nodes', G, r, n, t);
    } else {
      AwayIsExact(p, sl, nodes, live, dirty, dirty', x, r, t);
      BumpedAll(p, nodes, live, x, r, 1, t);
      assert t != r;
      forall c | c in live && Sub(c, t)
        ensures c in nodes' && nodes'[c].hash == nodes[c].hash
      {
      }
      ExactKept(p, sl, nodes, nodes', live, t);
    }
  }

  /** addElement when the leaf overflows and is divided. */
  lemma AddKeepsDivided(p: Params, sl: seq<Element>, nodes: Nodes, live: set<Tuple>, dirty: set<Tuple>,
                        x: u64, r: Tuple, dirty': set<Tuple>)
    requires Awaiting(p, sl, nodes, live, dirty, x) && r in live && In(r, x) && !nodes[r].divided && r != Top
    requires IsBucket(p.k, nodes[r].level, r) && p.Df() <= LevelWidth(p.k, nodes[r].level)
    requires Refines(dirty, dirty') && !Clean(dirty', r)
    requires var G := Grow(p, sl, r, nodes[r].level, 0);
             dirty' <= live + G.Keys && forall c | c in G && G[c].divided :: !Clean(dirty', c)
    ensures var nodes1 := Bumped(nodes, live, x, nodes[r].level, 1);
            Working(p, sl, DividedAt(p, sl, nodes1, r), live + Grow(p, sl, r, nodes[r].level, 0).Keys, dirty')
  {
    hide IsBucket, Bucket, LevelWidth, HasLevel, Pow2, Child, Within, Roomy, Placed, Exact, Clean, Refines,
         Ordered, AlmostCounted, Grow;
    var n := nodes[r].level;
    var nodes1 := Bumped(nodes, live, x, n, 1);
    ShapeKept(p, nodes, nodes1, live);
    DividedShape(p, sl, nodes1, live, r);
    var nodes', live' := DividedAt(p, sl, nodes1, r), live + Grow(p, sl, r, n, 0).Keys;
    forall t | t in live'
      ensures |Within(p.xx, sl, t)| <= nodes'[t].count && (!nodes'[t].divided ==> nodes'[t].count <= p.threshold)
    {
      DividedCount(p, sl, nodes, live, dirty, x, r, t);
    }
    forall t | t in live' && Clean(dirty', t)
      ensures Exact(p, sl, nodes', t)
    {
      DividedExact(p, sl, nodes, live, dirty, x, r, dirty', t);
    }
  }

  // ---- removeElement ----------------------------------------------------------------------------

  /** The tree after the children of u have been merged into it. */
  function MergedAt(p: Params, nodes: Nodes, u: Tuple): Nodes
    requires p.Ok() && u in nodes
  {
    (nodes - (set c | c in Children(u, p.Df())))[u := nodes[u].(divided := false)]
  }

  /** The live ranges that remain. */
  function Outside(live: set<Tuple>, u: Tuple): set<Tuple> {
    set t | t in live && !(Sub(t, u) && t != u)
  }

  lemma MergedKeepsOthers(p: Params, nodes: Nodes, live: set<Tuple>, u: Tuple, t: Tuple)
    requires Shape(p, nodes, live) && u in live && u != Top && nodes[u].divided && t in Outside(live, u)
    ensures t in MergedAt(p, nodes, u)
    ensures t != u ==> MergedAt(p, nodes, u)[t] == nodes[t]
  {
    hide IsBucket, Bucket, LevelWidth, HasLevel, Pow2, Child;
    assert Placed(p, nodes, live, u);
    if t in Children(u, p.Df()) {
      InChildren(u, p.Df(), t);
      var j :| 0 <= j < p.Df() && t == Child(u, p.Df(), j);
      ChildIsBucket(p.k, nodes[u].level, u, j);
      assert false;
    }
  }

  lemma MergedShape(p: Params, nodes: Nodes, live: set<Tuple>, u: Tuple)
    requires Shape(p, nodes, live) && u in live && u != Top && nodes[u].divided
    ensures Shape(p, MergedAt(p, nodes, u), Outside(live, u))
  {
    hide IsBucket, Bucket, LevelWidth, HasLevel, Pow2, Child, MergedAt, Placed;
    var nodes', live' := MergedAt(p, nodes, u), Outside(live, u);
    forall t | t in live'
      ensures t in nodes' && (t != u ==> nodes'[t] == nodes[t])
    {
      MergedKeepsOthers(p, nodes, live, u, t);
    }
    LiveIsProper(p, nodes, live, u);
    assert Top in live' && Sub(u, Top);
    MergedNode(p, nodes, u);
    forall t | t in live'
      ensures Placed(p, nodes', live', t)
    {
      MergedPlaced(p, nodes, live, nodes', u, t);
    }
  }

  lemma MergedNode(p: Params, nodes: Nodes, u: Tuple)
    requires p.Ok() && u in nodes
    ensures u in MergedAt(p, nodes, u) && MergedAt(p, nodes, u)[u] == nodes[u].(divided := false)
  {
  }

  /** The parent of a range that remains remains, and is not the merged one. */
  lemma MergedHangs(p: Params, nodes: Nodes, live: set<Tuple>, nodes': Nodes, u: Tuple, t: Tuple)
    requires Shape(p, nodes, live) && u in live && u != Top && t in Outside(live, u) && t != Top
    requires Outside(live, u) <= nodes'.Keys && forall d | d in Outside(live, u) && d != u :: nodes'[d] == nodes[d]
    requires u in nodes' && nodes'[u] == nodes[u].(divided := false)
    ensures IsBucket(p.k, nodes'[t].level, t) && Hangs(p, nodes', Outside(live, u), t)
  {
    hide IsBucket, Bucket, LevelWidth, HasLevel, Pow2, Child, Divided;
    assert Placed(p, nodes, live, t);
    var w := nodes[t].parent.value;
    LiveIsProper(p, nodes, live, u);
    LiveIsProper(p, nodes, live, t);
    BucketProper(p.k, nodes[t].level, t);
    BucketNest(p.k, nodes[t].level - 1, nodes[t].level, t.from);
    BucketUnique(p.k, nodes[t].level, t, t.from);
    assert Sub(t, w) && t != w;
    assert !Sub(w, u);
  }

  /** The parent of a child of t is t. */
  lemma ChildHangs(p: Params, nodes: Nodes, live: set<Tuple>, t: Tuple, j: nat)
    requires Shape(p, nodes, live) && t in live && nodes[t].divided && j < p.Df()
    ensures var c := Child(t, p.Df(), j);
            c in live && c != Top && nodes[c].parent == Some(t) && nodes[c].level == nodes[t].level + 1
  {
    hide IsBucket, Bucket, LevelWidth, HasLevel, Pow2, Child;
    assert Placed(p, nodes, live, t);
    var c := Child(t, p.Df(), j);
    LiveIsProper(p, nodes, live, t);
    assert c in live && nodes[c].level == nodes[t].level + 1;
    assert Placed(p, nodes, live, c);
    ChildIsBucket(p.k, nodes[t].level, t, j);
    BucketUnique(p.k, nodes[t].level, t, c.from);
  }

  /** The children of a divided range that remains remain. */
  lemma MergedDivided(p: Params, nodes: Nodes, live: set<Tuple>, nodes': Nodes, u: Tuple, t: Tuple)
    requires Shape(p, nodes, live) && u in live && t in Outside(live, u) && t != u && nodes[t].divided
    requires Outside(live, u) <= nodes'.Keys && forall d | d in Outside(live, u) && d != u :: nodes'[d] == nodes[d]
    requires u in nodes' && nodes'[u] == nodes[u].(divided := false)
    ensures IsBucket(p.k, nodes'[t].level, t) && Divided(p, nodes', Outside(live, u), t)
  {
    hide IsBucket, Bucket, LevelWidth, HasLevel, Pow2, Child, Hangs;
    assert Placed(p, nodes, live, t);
    forall j | 0 <= j < p.Df()
      ensures Child(t, p.Df(), j) in Outside(live, u) && nodes'[Child(t, p.Df(), j)].level == nodes[t].level + 1
    {
      var c := Child(t, p.Df(), j);
      ChildHangs(p, nodes, live, t, j);
      if Sub(c, u) && c != u {
        AroundIsAroundParent(p, nodes, live, c, u);
        LiveIsProper(p, nodes, live, t);
        assert false;
      }
    }
  }

  lemma MergedPlaced(p: Params, nodes: Nodes, live: set<Tuple>, nodes': Nodes, u: Tuple, t: Tuple)
    requires Shape(p, nodes, live) && u in live && u != Top && nodes[u].divided
    requires Outside(live, u) <= nodes'.Keys && t in Outside(live, u)
    requires forall d | d in Outside(live, u) && d != u :: nodes'[d] == nodes[d]
    requires u in nodes' && nodes'[u] == nodes[u].(divided := false)
    ensures Placed(p, nodes', Outside(live, u), t)
  {
    hide IsBucket, Bucket, LevelWidth, HasLevel, Pow2, Child, Hangs, Divided, Sub;
    assert t in live && Placed(p, nodes, live, t);
    if t != Top {
      MergedHangs(p, nodes, live, nodes', u, t);
    }
    if nodes'[t].divided {
      MergedDivided(p, nodes, live, nodes', u, t);
    }
  }

  /** Counts and exactness after taking the element with hash x out of the container. */
  lemma RemoveKeeps(p: Params, sl0: seq<Element>, id: string, nodes: Nodes, live: set<Tuple>, r: Tuple)
    requires Working(p, sl0, nodes, live, {}) && (exists e :: e in sl0 && e.id == id)
    requires r in live && In(r, p.xx(id)) && !nodes[r].divided
    requires Roomy(p, Without(sl0, id))
    ensures Working(p, Without(sl0, id), Bumped(nodes, live, p.xx(id), nodes[r].level, -1), live, {r})
  {
    hide IsBucket, Bucket, LevelWidth, HasLevel, Pow2, Child, Within, Without, Roomy, Placed, Exact;
    var x, sl := p.xx(id), Without(sl0, id);
    var nodes' := Bumped(nodes, live, x, nodes[r].level, -1);
    ShapeKept(p, nodes, nodes', live);
    WithoutOrdered(p.xx, sl0, id);
    forall t | t in live
      ensures |Within(p.xx, sl, t)| <= nodes'[t].count && (!nodes'[t].divided ==> nodes'[t].count <= p.threshold)
    {
      BumpedAll(p, nodes, live, x, r, -1, t);
      WithinWithout(p.xx, sl0, t, id);
    }
    forall t | t in live && Clean({r}, t)
      ensures Exact(p, sl, nodes', t)
    {
      if In(t, x) {
        LeafIsDeepest(p, nodes, live, r, t, x);
        assert false;
      }
      BumpedAll(p, nodes, live, x, r, -1, t);
      assert Clean({}, t);
      assert Exact(p, sl0, nodes, t);
      ExactKept(p, sl0, nodes, nodes', live, t);
      WithinWithout(p.xx, sl0, t, id);
      ExactSameElements(p, sl0, sl, nodes', t);
    }
  }

  lemma ExactSameElements(p: Params, sl0: seq<Element>, sl: seq<Element>, nodes: Nodes, t: Tuple)
    requires p.Ok() && t in nodes && Exact(p, sl0, nodes, t) && Within(p.xx, sl, t) == Within(p.xx, sl0, t)
    ensures Exact(p, sl, nodes, t)
  {
    hide Within, Child;
  }

  lemma MergeKeeps(p: Params, sl: seq<Element>, nodes: Nodes, live: set<Tuple>, r: Tuple, u: Tuple)
    requires Working(p, sl, nodes, live, {r}) && r in live && u in live && Sub(r, u) && r != u
    requires nodes[u].divided && u != Top && nodes[u].count <= p.threshold
    ensures Working(p, sl, MergedAt(p, nodes, u), Outside(live, u), {u})
  {
    hide IsBucket, Bucket, LevelWidth, HasLevel, Pow2, Child, Within, Roomy, Placed, Exact, MergedAt;
    var nodes', live' := MergedAt(p, nodes, u), Outside(live, u);
    MergedShape(p, nodes, live, u);
    MergedNode(p, nodes, u);
    forall t | t in live'
      ensures t in nodes' && |Within(p.xx, sl, t)| <= nodes'[t].count &&
              (!nodes'[t].divided ==> nodes'[t].count <= p.threshold)
    {
      MergedKeepsOthers(p, nodes, live, u, t);
    }
    forall t | t in live' && Clean({u}, t)
      ensures Exact(p, sl, nodes', t)
    {
      LiveIsProper(p, nodes, live, u);
      assert t != u && !Sub(u, t);
      MergedKeepsOthers(p, nodes, live, u, t);
      if Sub(r, t) {
        LiveNested(p, nodes, live, r, u, t);
        assert false;
      }
      assert Clean({r}, t);
      forall c | c in live && Sub(c, t)
        ensures c in nodes' && nodes'[c].hash == nodes[c].hash
      {
        if Sub(c, u) && c != u {
          LiveNested(p, nodes, live, c, u, t);
          assert false;
        }
        MergedKeepsOthers(p, nodes, live, u, c);
      }
      ExactKept(p, sl, nodes, nodes', live, t);
    }
  }

  /** Two live ranges around a third are nested. */
  lemma LiveNested(p: Params, nodes: Nodes, live: set<Tuple>, c: Tuple, u: Tuple, t: Tuple)
    requires Shape(p, nodes, live) && u in live && t in live && Sub(c, u) && Sub(c, t)
    ensures Sub(u, t) || (Sub(t, u) && t != u)
  {
    hide IsBucket, Bucket, LevelWidth, HasLevel, Pow2, Child;
    assert Placed(p, nodes, live, u) && Placed(p, nodes, live, t);
    NestedOrDisjoint(p.k, nodes[u].level, u, nodes[t].level, t);
  }

  /** A merge leaves exactly the live keys in the map if it did before and no child of the
      merged range was itself divided. */
  lemma MergeTight(p: Params, nodes: Nodes, live: set<Tuple>, u: Tuple)
    requires Shape(p, nodes, live) && live == nodes.Keys && u in live && u != Top && nodes[u].divided
    ensures MergedAt(p, nodes, u).Keys == Outside(live, u) <==>
            forall j | 0 <= j < p.Df() :: Child(u, p.Df(), j) in nodes && !nodes[Child(u, p.Df(), j)].divided
  {
    hide IsBucket, Bucket, LevelWidth, HasLevel, Pow2, Child;
    assert Placed(p, nodes, live, u);
    var df := p.Df();
    var kids := set c | c in Children(u, df);
    forall j | 0 <= j < df
      ensures Child(u, df, j) in live && Sub(Child(u, df, j), u) && Child(u, df, j) != u && Child(u, df, j) in kids
      ensures 2 <= df
    {
      ChildIsBucket(p.k, nodes[u].level, u, j);
      InChildren(u, df, Child(u, df, j));
    }
    assert MergedAt(p, nodes, u).Keys == nodes.Keys - kids + {u};
    if j :| 0 <= j < df && nodes[Child(u, df, j)].divided {
      var c := Child(u, df, j);
      assert Placed(p, nodes, live, c);
      var g := Child(c, df, 0);
      assert g in live;
      ChildIsBucket(p.k, nodes[c].level, c, 0);
      assert nodes[g].level == nodes[u].level + 2;
      assert g !in kids by {
        if g in kids {
          InChildren(u, df, g);
        }
      }
      assert g in MergedAt(p, nodes, u).Keys && g !in Outside(live, u);
    } else {
      forall t | t in live && Sub(t, u) && t != u
        ensures t in kids
      {
        LeafChildrenOnly(p, nodes, live, u, t);
      }
      forall t | t in kids
        ensures t !in Outside(live, u)
      {
        InChildren(u, df, t);
      }
    }
  }

  /** When all children of u are leaves, they are the only live ranges strictly inside u. */
  lemma LeafChildrenOnly(p: Params, nodes: Nodes, live: set<Tuple>, u: Tuple, t: Tuple)
    requires Shape(p, nodes, live) && u in live && nodes[u].divided && t in live && Sub(t, u) && t != u
    requires forall j | 0 <= j < p.Df() :: Child(u, p.Df(), j) in nodes && !nodes[Child(u, p.Df(), j)].divided
    ensures t in Children(u, p.Df())
  {
    hide IsBucket, Bucket, LevelWidth, HasLevel, Pow2, Child;
    assert Placed(p, nodes, live, u) && Placed(p, nodes, live, t);
    LiveIsProper(p, nodes, live, t);
    var x := t.from;
    var j := BottomIsBucket(p.k, nodes[u].level, u, x);
    var c := Child(u, p.Df(), j);
    assert c in live;
    LeafIsDeepest(p, nodes, live, c, t, x);
    StrictlyInside(p.k, nodes[u].level, u, nodes[t].level, t);
    assert t == c;
    InChildren(u, p.Df(), c);
  }

  // ---- recalculateHashes --------------------------------------------------------------------------

  /** What processing a dirty range writes. */
  function Rehashed(p: Params, sl: seq<Element>, nodes: Nodes, d: Tuple): Node
    requires p.Ok() && d in nodes && (nodes[d].divided ==> forall c | c in Children(d, p.Df()) :: c in nodes)
  {
    if nodes[d].divided then
      nodes[d].(hash := Some(OfDigests(Gather(nodes, Children(d, p.Df())))))
    else
      nodes[d].(hash := ElementsHash(Within(p.xx, sl, d)), count := |Within(p.xx, sl, d)|)
  }

  function ParentMark(node: Node): set<Tuple> {
    match node.parent case None => {} case Some(u) => {u}
  }

  lemma LiveHasChildren(p: Params, nodes: Nodes, live: set<Tuple>, d: Tuple)
    requires Shape(p, nodes, live) && d in live && nodes[d].divided
    ensures forall c | c in Children(d, p.Df()) :: c in live && Sub(c, d) && c != d
  {
    hide IsBucket, Bucket, LevelWidth, HasLevel, Pow2, Child;
    assert Placed(p, nodes, live, d);
    forall c | c in Children(d, p.Df())
      ensures c in live && Sub(c, d) && c != d
    {
      InChildren(d, p.Df(), c);
      var j :| 0 <= j < p.Df() && c == Child(d, p.Df(), j);
      ChildIsBucket(p.k, nodes[d].level, d, j);
    }
  }

  lemma ParentIsLive(p: Params, nodes: Nodes, live: set<Tuple>, d: Tuple)
    requires Shape(p, nodes, live) && d in live
    ensures ParentMark(nodes[d]) <= live
    ensures forall u | u in ParentMark(nodes[d]) :: nodes[u].level == nodes[d].level - 1
  {
    hide IsBucket, Bucket, LevelWidth, HasLevel, Pow2, Child;
    assert Placed(p, nodes, live, d);
  }

  lemma RehashKeeps(p: Params, sl: seq<Element>, nodes: Nodes, live: set<Tuple>, dirty: set<Tuple>, d: Tuple)
    requires Working(p, sl, nodes, live, dirty) && d in live
    ensures nodes[d].divided ==> forall c | c in Children(d, p.Df()) :: c in nodes
    ensures Working(p, sl, nodes[d := Rehashed(p, sl, nodes, d)], live, dirty - {d} + ParentMark(nodes[d]))
  {
    hide IsBucket, Bucket, LevelWidth, HasLevel, Pow2, Child, Within, Roomy, Exact, Placed, Gather;
    if nodes[d].divided {
      LiveHasChildren(p, nodes, live, d);
    }
    var nodes', dirty' := nodes[d := Rehashed(p, sl, nodes, d)], dirty - {d} + ParentMark(nodes[d]);
    ShapeKept(p, nodes, nodes', live);
    ParentIsLive(p, nodes, live, d);
    forall t | t in live && Clean(dirty', t)
      ensures Exact(p, sl, nodes', t)
    {
      if t == d {
        RehashedExact(p, sl, nodes, live, d);
      } else {
        if Sub(d, t) {
          AroundIsAroundParent(p, nodes, live, d, t);
          assert false;
        }
        assert Clean(dirty, t);
        ExactKept(p, sl, nodes, nodes', live, t);
      }
    }
  }

  lemma RehashedExact(p: Params, sl: seq<Element>, nodes: Nodes, live: set<Tuple>, d: Tuple)
    requires Shape(p, nodes, live) && d in live
    requires nodes[d].divided ==> forall c | c in Children(d, p.Df()) :: c in nodes
    ensures Exact(p, sl, nodes[d := Rehashed(p, sl, nodes, d)], d)
  {
    hide IsBucket, Bucket, LevelWidth, HasLevel, Pow2, Child, Within;
    if nodes[d].divided {
      LiveHasChildren(p, nodes, live, d);
      GatherSame(nodes, nodes[d := Rehashed(p, sl, nodes, d)], Children(d, p.Df()));
    }
  }
}
