/** Whole operations on values: an empty container, one addElement, a batch of Set. */
module Batches {
  import opened Options
  import opened Geometry
  import opened Buckets
  import opened Elements
  import opened Tree
  import opened Growth
  import opened Updates

  // ---- scanning the container -------------------------------------------------------------------

  lemma {:induction false} WithinAppend(xx: Hasher, a: seq<Element>, b: seq<Element>, t: Tuple)
    ensures Within(xx, a + b, t) == Within(xx, a, t) + Within(xx, b, t)
  {
    if a == [] {
      assert a + b == b;
    } else {
      assert (a + b)[1..] == a[1..] + b;
      WithinAppend(xx, a[1..], b, t);
    }
  }

  lemma {:induction false} WithinAll(xx: Hasher, sl: seq<Element>, t: Tuple)
    requires forall e | e in sl :: In(t, xx(e.id))
    ensures Within(xx, sl, t) == sl
  {
    if sl != [] {
      WithinAll(xx, sl[1..], t);
    }
  }

  lemma WithinSnoc(xx: Hasher, sl: seq<Element>, t: Tuple, i: int)
    requires 0 <= i < |sl|
    ensures Within(xx, sl[..i + 1], t) == Within(xx, sl[..i], t) + (if In(t, xx(sl[i].id)) then [sl[i]] else [])
  {
    assert sl[..i + 1] == sl[..i] + [sl[i]];
    WithinAppend(xx, sl[..i], [sl[i]], t);
    assert [sl[i]][1..] == [];
  }

  /** Once the walk has passed `to`, nothing further belongs to the range. */
  lemma WithinPrefix(xx: Hasher, sl: seq<Element>, t: Tuple, i: int)
    requires Ordered(xx, sl) && 0 <= i <= |sl| && (i < |sl| ==> t.to < xx(sl[i].id))
    ensures Within(xx, sl[..i], t) == Within(xx, sl, t)
  {
    forall e | e in sl[i..]
      ensures t.to < xx(e.id)
    {
      var j :| i <= j < |sl| && sl[j] == e;
      assert j > i ==> Before(xx, sl[i].id, sl[j].id);
    }
    WithinAbove(xx, sl[i..], t);
    assert sl == sl[..i] + sl[i..];
    WithinAppend(xx, sl[..i], sl[i..], t);
  }

  // ---- the empty container ----------------------------------------------------------------------

  lemma EmptyIsRoomy(p: Params)
    requires p.Ok()
    ensures Roomy(p, [])
  {
  }

  lemma TopIsWide(k: nat)
    requires 1 <= k <= 62
    ensures HasLevel(k, 0) && IsBucket(k, 0, Top) && Pow2(k) <= LevelWidth(k, 0)
  {
    TopIsBucket(k, 0);
    Pow2Divides(64, k);
  }

  const Seed: Node := Node(None, true, 0, 0, None)

  lemma NewTreeWorks(p: Params)
    requires p.Ok() && Roomy(p, []) && IsBucket(p.k, 0, Top) && p.Df() <= LevelWidth(p.k, 0)
    ensures var G := Grow(p, [], Top, 0, 0);
            Working(p, [], map[Top := Seed] + G, {Top} + G.Keys, GrowDirty(p, [], Top, 0, 0, {}) + {Top})
  {
    hide IsBucket, Bucket, LevelWidth, HasLevel, Pow2, Child, Roomy, Placed, Grown;
    var G := Grow(p, [], Top, 0, 0);
    var nodes, live, dirty := map[Top := Seed] + G, {Top} + G.Keys, GrowDirty(p, [], Top, 0, 0, {}) + {Top};
    GrowInside(p, [], Top, 0, 0);
    GrowGrown(p, [], Top, 0, 0);
    GrowMarked(p, [], Top, 0, 0, {});
    assert Top !in G;
    forall c | c in G
      ensures Placed(p, nodes, live, c) && !G[c].divided && Exact(p, [], nodes, c)
      ensures G[c].count == 0
    {
      GrownIsPlaced(p, [], nodes, live, G, Top, 0, c);
      GrownFromNothing(p, nodes, G, c);
    }
    TopPlaced(p, nodes, live, G);
    assert Sub(Top, Top);
  }

  lemma GrownFromNothing(p: Params, nodes: Nodes, G: Nodes, c: Tuple)
    requires p.Ok() && c in G && c in nodes && nodes[c] == G[c] && Grown(p, [], G, Top, 0, c)
    ensures G[c].count == 0 && !G[c].divided && Exact(p, [], nodes, c)
  {
  }

  lemma TopPlaced(p: Params, nodes: Nodes, live: set<Tuple>, G: Nodes)
    requires p.Ok() && live <= nodes.Keys && Top in live && nodes[Top] == Seed && G.Keys <= live
    requires forall c | c in G :: nodes[c] == G[c]
    requires IsBucket(p.k, 0, Top) && p.Df() <= LevelWidth(p.k, 0) && ChildrenIn(p, G, Top, 0, 0)
    ensures Placed(p, nodes, live, Top)
  {
    hide Bucket, LevelWidth, HasLevel, Pow2, Child;
  }

  // ---- addElement as one step ---------------------------------------------------------------------

  /** A leaf after addElement is an old leaf with its count raised along the path of x, or a new
      one counted exactly. */
  ghost predicate LeavesAfter(p: Params, sl: seq<Element>, nodes0: Nodes, live0: set<Tuple>,
                              nodes: Nodes, live: set<Tuple>, x: u64) {
    && live0 <= nodes0.Keys && live <= nodes.Keys
    && forall t | t in live && !nodes[t].divided ::
         || nodes[t].count == |Within(p.xx, sl, t)|
         || (t in live0 && !nodes0[t].divided && nodes[t].count == nodes0[t].count + (if In(t, x) then 1 else 0))
  }

  lemma TopHolds(p: Params, nodes: Nodes, live: set<Tuple>, x: u64)
    requires Shape(p, nodes, live)
    ensures In(Top, x) && Top in live && nodes[Top].level == 0
    ensures nodes[Top := nodes[Top].(count := nodes[Top].count + 1)] == Bumped(nodes, live, x, 0, 1)
    ensures nodes[Top := nodes[Top].(count := nodes[Top].count - 1)] == Bumped(nodes, live, x, 0, -1)
  {
    hide IsBucket, Bucket, LevelWidth, HasLevel, Pow2, Child;
    forall t | t in live && nodes[t].level <= 0
      ensures t == Top
    {
      assert Placed(p, nodes, live, t);
    }
  }

  lemma LeafFacts(p: Params, nodes: Nodes, live: set<Tuple>, r: Tuple)
    requires Shape(p, nodes, live) && r in live && !nodes[r].divided
    ensures r != Top && r.from <= r.to && IsBucket(p.k, nodes[r].level, r) && HasLevel(p.k, nodes[r].level)
    ensures nodes[r].parent.Some? && nodes[r].parent.value in live
    ensures var u := nodes[r].parent.value;
            Sub(r, u) && r != u && nodes[u].divided
  {
    hide Bucket, LevelWidth, Pow2, Child;
    assert Placed(p, nodes, live, r);
    BucketProper(p.k, nodes[r].level, r);
    BucketNest(p.k, nodes[r].level - 1, nodes[r].level, r.from);
    BucketUnique(p.k, nodes[r].level, r, r.from);
  }

  lemma LiveProper(p: Params, nodes: Nodes, live: set<Tuple>, dirty: set<Tuple>)
    requires Shape(p, nodes, live) && dirty <= live
    ensures forall d | d in dirty :: d.from <= d.to
  {
    forall d | d in dirty
      ensures d.from <= d.to
    {
      LiveIsProper(p, nodes, live, d);
    }
  }

  lemma AddLeafStep(p: Params, sl: seq<Element>, nodes: Nodes, live: set<Tuple>, dirty: set<Tuple>, x: u64, r: Tuple)
    requires Awaiting(p, sl, nodes, live, dirty, x) && r in live && In(r, x) && !nodes[r].divided
    requires nodes[r].count + 1 <= p.threshold
    ensures var nodes' := Bumped(nodes, live, x, nodes[r].level, 1);
            && Working(p, sl, nodes', live, dirty + {r} - ParentMark(nodes[r]))
            && LeavesAfter(p, sl, nodes, live, nodes', live, x)
  {
    hide IsBucket, Bucket, LevelWidth, HasLevel, Pow2, Child, Within, Roomy, Placed, Exact, Working, Bumped,
         LeavesAfter, Clean, AlmostCounted, Ordered, Refines;
    LeafFacts(p, nodes, live, r);
    var u := nodes[r].parent.value;
    var marked := dirty + {r};
    LiveProper(p, nodes, live, marked);
    SelfRefines(marked);
    DropParentMark(dirty, marked, r, u);
    AddKeepsLeaf(p, sl, nodes, live, dirty, x, r, marked - {u});
    BumpedLeaves(p, sl, nodes, live, x, r);
  }

  ghost predicate Raised(nodes: Nodes, live: set<Tuple>, x: u64, nodes': Nodes) {
    && live <= nodes.Keys && live <= nodes'.Keys
    && forall t | t in live ::
         nodes'[t] == if In(t, x) then nodes[t].(count := nodes[t].count + 1) else nodes[t]
  }

  lemma BumpedIsRaised(p: Params, nodes: Nodes, live: set<Tuple>, x: u64, r: Tuple)
    requires Shape(p, nodes, live) && r in live && In(r, x) && !nodes[r].divided
    ensures Raised(nodes, live, x, Bumped(nodes, live, x, nodes[r].level, 1))
  {
    hide IsBucket, Bucket, LevelWidth, HasLevel, Pow2, Child, Placed;
    forall t | t in live
      ensures Bumped(nodes, live, x, nodes[r].level, 1)[t] ==
              if In(t, x) then nodes[t].(count := nodes[t].count + 1) else nodes[t]
    {
      BumpedAll(p, nodes, live, x, r, 1, t);
    }
  }

  lemma BumpedLeaves(p: Params, sl: seq<Element>, nodes: Nodes, live: set<Tuple>, x: u64, r: Tuple)
    requires Shape(p, nodes, live) && r in live && In(r, x) && !nodes[r].divided
    ensures LeavesAfter(p, sl, nodes, live, Bumped(nodes, live, x, nodes[r].level, 1), live, x)
  {
    hide IsBucket, Bucket, LevelWidth, HasLevel, Pow2, Child, Placed, Within, Bumped;
    BumpedIsRaised(p, nodes, live, x, r);
  }

  lemma AddDividedStep(p: Params, sl: seq<Element>, nodes: Nodes, live: set<Tuple>, dirty: set<Tuple>, x: u64, r: Tuple)
    requires Awaiting(p, sl, nodes, live, dirty, x) && r in live && In(r, x) && !nodes[r].divided
    requires IsBucket(p.k, nodes[r].level, r) && p.Df() <= LevelWidth(p.k, nodes[r].level)
    ensures var n := nodes[r].level;
            var nodes' := DividedAt(p, sl, Bumped(nodes, live, x, n, 1), r);
            var live' := live + Grow(p, sl, r, n, 0).Keys;
            && Working(p, sl, nodes', live', GrowDirty(p, sl, r, n, 0, dirty + {r}) - ParentMark(nodes[r]))
            && LeavesAfter(p, sl, nodes, live, nodes', live', x)
  {
    hide IsBucket, Bucket, LevelWidth, HasLevel, Pow2, Child, Within, Roomy, Placed, Exact, Working, Grown, Clean;
    var n := nodes[r].level;
    var G := Grow(p, sl, r, n, 0);
    LeafFacts(p, nodes, live, r);
    var u := nodes[r].parent.value;
    var marked := dirty + {r};
    var grown := GrowDirty(p, sl, r, n, 0, marked);
    LiveProper(p, nodes, live, marked);
    GrowMarked(p, sl, r, n, 0, marked);
    GrowthIsNew(p, sl, nodes, live, r);
    DropParentMark(marked, grown, r, u);
    DroppedMarkOutside(p, G, grown, r, n, u);
    AddKeepsDivided(p, sl, nodes, live, dirty, x, r, grown - {u});
    DividedLeaves(p, sl, nodes, live, x, r);
  }

  /** Taking the mark off a range around r leaves the marks inside new nodes alone. */
  lemma DroppedMarkOutside(p: Params, G: Nodes, dirty: set<Tuple>, r: Tuple, n: int, u: Tuple)
    requires AllInside(p, G, r, n, r.from) && Sub(r, u)
    requires forall c | c in G && G[c].divided :: !Clean(dirty, c)
    ensures forall c | c in G && G[c].divided :: !Clean(dirty - {u}, c)
  {
    hide IsBucket;
    forall c | c in G && G[c].divided
      ensures !Clean(dirty - {u}, c)
    {
      assert Inside(p, G, r, n, r.from, c);
      var d :| d in dirty && Sub(d, c);
      assert d != u;
      assert d in dirty - {u};
    }
  }

  lemma DividedLeaves(p: Params, sl: seq<Element>, nodes: Nodes, live: set<Tuple>, x: u64, r: Tuple)
    requires Shape(p, nodes, live) && Roomy(p, sl) && r in live && In(r, x) && !nodes[r].divided
    requires IsBucket(p.k, nodes[r].level, r) && p.Df() <= LevelWidth(p.k, nodes[r].level)
    ensures var n := nodes[r].level;
            LeavesAfter(p, sl, nodes, live, DividedAt(p, sl, Bumped(nodes, live, x, n, 1), r),
                        live + Grow(p, sl, r, n, 0).Keys, x)
  {
    hide IsBucket, Bucket, LevelWidth, HasLevel, Pow2, Child, Within, Roomy, Placed, Bumped, Grown;
    var n := nodes[r].level;
    var G := Grow(p, sl, r, n, 0);
    BumpedIsRaised(p, nodes, live, x, r);
    GrowthIsNew(p, sl, nodes, live, r);
    GrowGrown(p, sl, r, n, 0);
    forall c | c in G
      ensures G[c].count == |Within(p.xx, sl, c)|
    {
      GrownSays(p, sl, G, r, n, c);
    }
  }

  lemma GrownSays(p: Params, sl: seq<Element>, G: Nodes, r: Tuple, n: int, c: Tuple)
    requires p.Ok() && c in G && Grown(p, sl, G, r, n, c)
    ensures G[c].count == |Within(p.xx, sl, c)| && G[c].divided == (G[c].count > p.threshold)
  {
  }

  // ---- a batch of Set -----------------------------------------------------------------------------

  function UpsertAll(xx: Hasher, sl: seq<Element>, batch: seq<Element>): seq<Element> {
    if batch == [] then sl
    else Upsert(xx, UpsertAll(xx, sl, batch[..|batch| - 1]), batch[|batch| - 1])
  }

  lemma {:induction false} UpsertAllOrdered(xx: Hasher, sl: seq<Element>, batch: seq<Element>)
    requires Ordered(xx, sl)
    ensures Ordered(xx, UpsertAll(xx, sl, batch))
  {
    if batch != [] {
      UpsertAllOrdered(xx, sl, batch[..|batch| - 1]);
      UpsertMeaning(xx, UpsertAll(xx, sl, batch[..|batch| - 1]), batch[|batch| - 1]);
    }
  }

  /** f is the last element of the batch with its id. */
  ghost predicate LastOf(batch: seq<Element>, f: Element) {
    exists i :: LastAt(batch, f, i)
  }

  ghost predicate LastAt(batch: seq<Element>, f: Element, i: int) {
    0 <= i < |batch| && batch[i] == f && forall j | i < j < |batch| :: batch[j].id != f.id
  }

  lemma LastOfSnoc(batch: seq<Element>, f: Element)
    requires batch != []
    ensures var n := |batch| - 1;
            LastOf(batch, f) <==> batch[n] == f || (batch[n].id != f.id && LastOf(batch[..n], f))
  {
    var n := |batch| - 1;
    if batch[n] == f {
      assert LastAt(batch, f, n);
    } else if i :| LastAt(batch[..n], f, i) {
      assert batch[n].id != f.id ==> LastAt(batch, f, i);
    }
    if i :| LastAt(batch, f, i) {
      assert i == n || LastAt(batch[..n], f, i);
    }
  }

  /** After a batch the container holds the last element given for each id of the batch, and the old elements
      of all other ids. */
  lemma {:induction false} UpsertAllMeaning(xx: Hasher, sl: seq<Element>, batch: seq<Element>, f: Element)
    requires Ordered(xx, sl)
    ensures f in UpsertAll(xx, sl, batch) <==> LastOf(batch, f) || (f in sl && forall e | e in batch :: e.id != f.id)
  {
    hide Upsert, LastOf;
    if batch == [] {
      NoneLast(f);
    } else {
      var n := |batch| - 1;
      UpsertAllMeaning(xx, sl, batch[..n], f);
      UpsertAllOrdered(xx, sl, batch[..n]);
      UpsertMeaning(xx, UpsertAll(xx, sl, batch[..n]), batch[n]);
      LastOfSnoc(batch, f);
      assert batch == batch[..n] + [batch[n]];
    }
  }

  lemma NoneLast(f: Element)
    ensures !LastOf([], f)
  {
  }

  /** Elements of a range after a batch: at most the old ones and the ones in the batch. */
  lemma {:induction false} UpsertAllCount(xx: Hasher, sl: seq<Element>, batch: seq<Element>, t: Tuple)
    requires Ordered(xx, sl)
    ensures |Within(xx, UpsertAll(xx, sl, batch), t)| <= |Within(xx, sl, t)| + |Within(xx, batch, t)|
  {
    if batch != [] {
      var n := |batch| - 1;
      UpsertAllCount(xx, sl, batch[..n], t);
      UpsertAllOrdered(xx, sl, batch[..n]);
      WithinUpsert(xx, UpsertAll(xx, sl, batch[..n]), t, batch[n]);
      WithinSnoc(xx, batch, t, n);
      assert batch[..n + 1] == batch;
    }
  }

  lemma WithinTake(xx: Hasher, batch: seq<Element>, t: Tuple, i: int)
    requires 0 <= i <= |batch|
    ensures |Within(xx, batch[..i], t)| <= |Within(xx, batch, t)|
  {
    assert batch == batch[..i] + batch[i..];
    WithinAppend(xx, batch[..i], batch[i..], t);
  }

  ghost predicate DistinctIds(es: seq<Element>) {
    forall i, j | 0 <= i < j < |es| :: es[i].id != es[j].id
  }

  lemma OrderedIsDistinct(xx: Hasher, sl: seq<Element>)
    requires Ordered(xx, sl)
    ensures DistinctIds(sl)
  {
    forall i, j | 0 <= i < j < |sl|
      ensures sl[i].id != sl[j].id
    {
      assert Before(xx, sl[i].id, sl[j].id);
    }
  }

  // ---- helpers of the container's methods -----------------------------------------------------------

  lemma WorkingShape(p: Params, sl: seq<Element>, nodes: Nodes, live: set<Tuple>, dirty: set<Tuple>)
    requires Working(p, sl, nodes, live, dirty)
    ensures p.Ok() && Shape(p, nodes, live) && Ordered(p.xx, sl) && Roomy(p, sl) && dirty <= live <= nodes.Keys
  {
  }

  lemma {:induction false} LowestLevel(nodes: Nodes, s: set<Tuple>)
    requires s != {} && s <= nodes.Keys
    ensures exists d :: d in s && forall e | e in s :: nodes[d].level <= nodes[e].level
  {
    var x :| x in s;
    if s == {x} {
    } else {
      LowestLevel(nodes, s - {x});
      var y :| y in s - {x} && forall e | e in s - {x} :: nodes[y].level <= nodes[e].level;
      var d := if nodes[x].level <= nodes[y].level then x else y;
      assert forall e | e in s :: nodes[d].level <= nodes[e].level;
    }
  }

  lemma DirtyLevels(p: Params, sl: seq<Element>, nodes: Nodes, live: set<Tuple>, dirty: set<Tuple>)
    requires Working(p, sl, nodes, live, dirty)
    ensures dirty <= live <= nodes.Keys && forall d | d in dirty :: 0 <= nodes[d].level < 65
  {
    forall d | d in dirty
      ensures 0 <= nodes[d].level < 65
    {
      LiveIsProper(p, nodes, live, d);
    }
  }

  lemma ParentLevel(p: Params, nodes: Nodes, live: set<Tuple>, d: Tuple)
    requires Shape(p, nodes, live) && d in live
    ensures forall u | u in ParentMark(nodes[d]) :: u in live && 0 <= nodes[u].level == nodes[d].level - 1
  {
    ParentIsLive(p, nodes, live, d);
    forall u | u in ParentMark(nodes[d])
      ensures 0 <= nodes[u].level
    {
      LiveIsProper(p, nodes, live, u);
    }
  }

  predicate HasId(sl: seq<Element>, id: string)
    ensures HasId(sl, id) <==> exists e :: e in sl && e.id == id
  {
    exists e | e in sl :: e.id == id
  }

  lemma RemovalIsRoomy(p: Params, sl: seq<Element>, id: string)
    requires p.Ok() && Ordered(p.xx, sl) && Roomy(p, sl)
    ensures Roomy(p, Without(sl, id))
  {
    hide Within, Without, Pow2;
    forall n: int, x: u64 {:trigger Bucket(p.k, n, x)} | HasLevel(p.k, n) && LevelWidth(p.k, n) < p.Df()
      ensures |Within(p.xx, Without(sl, id), Bucket(p.k, n, x))| <= p.threshold
    {
      WithinWithout(p.xx, sl, Bucket(p.k, n, x), id);
    }
  }

  /** Removing hash x merges a range that has a divided child: the parent of the leaf of x falls
      to the threshold, is not the top, and some child of it is divided. */
  ghost predicate MergesDivided(p: Params, nodes: Nodes, live: set<Tuple>, x: u64) {
    && p.Ok() && live <= nodes.Keys
    && exists r | r in live && In(r, x) && !nodes[r].divided && nodes[r].parent.Some? ::
         MergesInto(p, nodes, nodes[r].parent.value)
  }

  ghost predicate MergesInto(p: Params, nodes: Nodes, u: Tuple)
    requires p.Ok()
  {
    && u != Top && u in nodes && nodes[u].count - 1 <= p.threshold
    && exists j :: 0 <= j < p.Df() && Child(u, p.Df(), j) in nodes && nodes[Child(u, p.Df(), j)].divided
  }

  lemma MergesDividedMeans(p: Params, nodes: Nodes, live: set<Tuple>, x: u64, r: Tuple)
    requires Shape(p, nodes, live) && r in live && In(r, x) && !nodes[r].divided && nodes[r].parent.Some?
    ensures MergesDivided(p, nodes, live, x) <==> MergesInto(p, nodes, nodes[r].parent.value)
  {
    hide IsBucket, Bucket, LevelWidth, HasLevel, Pow2, Child, Placed, MergesInto;
    forall r' | r' in live && In(r', x) && !nodes[r'].divided
      ensures r' == r
    {
      LeafIsDeepest(p, nodes, live, r, r', x);
      LeafIsDeepest(p, nodes, live, r', r, x);
    }
  }

  lemma ParentStays(p: Params, nodes: Nodes, live: set<Tuple>, u: Tuple)
    requires Shape(p, nodes, live) && u in live && nodes[u].divided
    ensures u !in Children(u, p.Df())
  {
    LiveHasChildren(p, nodes, live, u);
  }

  lemma MergeTightFor(p: Params, nodes0: Nodes, nodes: Nodes, live: set<Tuple>, u: Tuple)
    requires Shape(p, nodes, live) && live == nodes.Keys == nodes0.Keys && SameShape(nodes0, nodes, live)
    requires u in live && u != Top && nodes[u].divided && nodes0[u].count - 1 <= p.threshold
    ensures MergedAt(p, nodes, u).Keys == Outside(live, u) <==> !MergesInto(p, nodes0, u)
  {
    hide IsBucket, Bucket, LevelWidth, HasLevel, Pow2, Child, MergedAt, Outside;
    MergeTight(p, nodes, live, u);
    assert Placed(p, nodes, live, u);
  }

  lemma BumpedSameShape(nodes: Nodes, live: set<Tuple>, x: u64, n: int, delta: int)
    requires live <= nodes.Keys
    ensures SameShape(nodes, Bumped(nodes, live, x, n, delta), live)
    ensures Bumped(nodes, live, x, n, delta).Keys == nodes.Keys
  {
  }

  // ---- unfolding growth one piece at a time ---------------------------------------------------------

  lemma GrowUnfold(p: Params, sl: seq<Element>, t: Tuple, n: int, j: int, dirty: set<Tuple>)
    requires p.Ok() && Roomy(p, sl) && IsBucket(p.k, n, t) && p.Df() <= LevelWidth(p.k, n) && 0 <= j < p.Df()
    ensures Grow(p, sl, t, n, j) == Piece(p, sl, t, n, j) + Grow(p, sl, t, n, j + 1)
    ensures GrowDirty(p, sl, t, n, j, dirty) == GrowDirty(p, sl, t, n, j + 1, PieceDirty(p, sl, t, n, j, dirty))
  {
    hide IsBucket, Bucket, LevelWidth, HasLevel, Pow2, Child, Within, Roomy;
  }

  lemma GrowEnd(p: Params, sl: seq<Element>, t: Tuple, n: int, dirty: set<Tuple>)
    requires p.Ok() && Roomy(p, sl) && IsBucket(p.k, n, t) && p.Df() <= LevelWidth(p.k, n)
    ensures Grow(p, sl, t, n, p.Df()) == map[] && GrowDirty(p, sl, t, n, p.Df(), dirty) == dirty
  {
    hide IsBucket, Bucket, LevelWidth, HasLevel, Pow2, Child, Within, Roomy;
  }

  lemma PieceUnfold(p: Params, sl: seq<Element>, t: Tuple, n: int, j: int, dirty: set<Tuple>)
    requires p.Ok() && Roomy(p, sl) && IsBucket(p.k, n, t) && p.Df() <= LevelWidth(p.k, n) && 0 <= j < p.Df()
    ensures var c := Child(t, p.Df(), j);
            && IsBucket(p.k, n + 1, c)
            && if |Within(p.xx, sl, c)| > p.threshold then
                 && p.Df() <= LevelWidth(p.k, n + 1)
                 && Piece(p, sl, t, n, j) == map[c := Fresh(p, sl, t, c, n + 1)] + Grow(p, sl, c, n + 1, 0)
                 && PieceDirty(p, sl, t, n, j, dirty) == GrowDirty(p, sl, c, n + 1, 0, dirty - {t} + {c})
               else
                 && Piece(p, sl, t, n, j) == map[c := Fresh(p, sl, t, c, n + 1)]
                 && PieceDirty(p, sl, t, n, j, dirty) == dirty
  {
    hide IsBucket, Bucket, LevelWidth, HasLevel, Pow2, Child, Within, Roomy;
    ChildIsBucket(p.k, n, t, j);
    if |Within(p.xx, sl, Child(t, p.Df(), j))| > p.threshold {
      OverIsWide(p, sl, n + 1, Child(t, p.Df(), j));
    }
  }

  lemma MapExtend<K, V>(a: map<K, V>, k: K, v: V, g: map<K, V>)
    ensures a[k := v] + g == a + (map[k := v] + g)
    ensures a[k := v] == a + map[k := v]
    ensures (map[k := v] + g).Keys == {k} + g.Keys
  {
  }

  lemma MapAppend<K, V>(a: map<K, V>, b: map<K, V>, c: map<K, V>)
    ensures (a + b) + c == a + (b + c)
  {
  }
}
