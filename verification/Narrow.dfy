/** Below twice the last width the threshold is too small: for every such divide factor and threshold there
    is a container filled with distinct ids, and a batch that sets some of them again, with which Set
    comes to divide a range narrower than the factor. */
module Narrow {
  import opened Geometry
  import opened Buckets
  import opened Elements
  import opened Tree
  import opened Growth
  import opened Updates
  import opened Batches
  import opened Fitting
  import opened Canonical
  import opened Container
  import opened Fills

  /** The first range of the last level. */
  function FirstLeaf(k: nat): (t: Tuple)
    requires 1 <= k
    ensures IsBucket(k, 64 / k, t) && t.from == 0 && t.to + 1 == LastWidth(k)
  {
    hide Pow2;
    LastLevel(k);
    FirstBucket(k, 64 / k);
    Bucket(k, 64 / k, 0)
  }

  lemma FirstBucket(k: nat, n: int)
    requires HasLevel(k, n)
    ensures Bucket(k, n, 0).from == 0 && Bucket(k, n, 0).to + 1 == LevelWidth(k, n)
  {
    hide Pow2;
    assert 0 % LevelWidth(k, n) == 0;
  }

  /** How many ids go into the first range of the last level: as many as it holds without overflow. */
  function Crowd(k: nat, threshold: nat): (a: nat)
    requires 1 <= k && 1 <= threshold < 2 * LastWidth(k)
    ensures 1 <= a <= LastWidth(k) && a <= threshold < 2 * a
  {
    if LastWidth(k) <= threshold then LastWidth(k) else threshold
  }

  /** The hashes of threshold + 1 ids: the crowd from 0 on, the others from the second range on. */
  function Spot(k: nat, threshold: nat, i: nat): (h: nat)
    requires 1 <= k && 1 <= threshold < 2 * LastWidth(k)
  {
    var a := Crowd(k, threshold);
    if i < a then i else LastWidth(k) + (i - a)
  }

  ghost predicate Crowded(xx: Hasher, k: nat, threshold: nat, es: seq<Element>) {
    && Params(xx, k, threshold).Ok() && threshold < 2 * LastWidth(k) && |es| == threshold + 1
    && forall i | 0 <= i < |es| :: xx(es[i].id) == Spot(k, threshold, i)
  }

  lemma CrowdedRises(xx: Hasher, k: nat, threshold: nat, es: seq<Element>)
    requires Crowded(xx, k, threshold, es)
    ensures Rising(xx, es)
  {
    hide LastWidth;
  }

  lemma {:induction false} WithinSize(xx: Hasher, es: seq<Element>, t: Tuple)
    ensures |Within(xx, es, t)| <= |es|
  {
    if es != [] {
      WithinSize(xx, es[1..], t);
    }
  }

  lemma OneOutside(xx: Hasher, es: seq<Element>, t: Tuple, i: nat)
    requires i < |es| && !In(t, xx(es[i].id))
    ensures |Within(xx, es, t)| < |es|
  {
    hide Within;
    WithinSnoc(xx, es, t, i);
    assert es == es[..i + 1] + es[i + 1..];
    WithinAppend(xx, es[..i + 1], es[i + 1..], t);
    WithinSize(xx, es[..i], t);
    WithinSize(xx, es[i + 1..], t);
  }

  /** No range of the last level holds all of them. */
  lemma NoneHoldsAll(xx: Hasher, k: nat, threshold: nat, es: seq<Element>, t: Tuple)
    requires Crowded(xx, k, threshold, es) && t.to - t.from + 1 == LastWidth(k)
    ensures |Within(xx, es, t)| <= threshold
  {
    hide Within, LastWidth;
    var a := Crowd(k, threshold);
    assert xx(es[0].id) == 0 && xx(es[a].id) == LastWidth(k);
    if In(t, 0) {
      OneOutside(xx, es, t, a);
    } else {
      OneOutside(xx, es, t, 0);
    }
  }

  /** So they fit into an empty container. */
  lemma CrowdFits(p: Params, nodes: Nodes, live: set<Tuple>, es: seq<Element>)
    requires Crowded(p.xx, p.k, p.threshold, es) && Working(p, [], nodes, live, {})
    ensures Fits(p, [], nodes, live, es)
  {
    hide Within, Working, Fits, Crowded, Pow2;
    CrowdedOk(p.xx, p.k, p.threshold, es);
    forall n: int, x: u64 {:trigger Bucket(p.k, n, x)} | HasLevel(p.k, n) && LevelWidth(p.k, n) < p.Df()
      ensures |Within(p.xx, [], Bucket(p.k, n, x))| + |Within(p.xx, es, Bucket(p.k, n, x))| <= p.threshold
    {
      NarrowIsLast(p.k, n);
      NoneHoldsAll(p.xx, p.k, p.threshold, es, Bucket(p.k, n, x));
      WithinSize(p.xx, [], Bucket(p.k, n, x));
    }
    RoomFits(p, [], nodes, live, es);
  }

  lemma CrowdedOk(xx: Hasher, k: nat, threshold: nat, es: seq<Element>)
    requires Crowded(xx, k, threshold, es)
    ensures Params(xx, k, threshold).Ok() && threshold < 2 * LastWidth(k) && |es| == threshold + 1
  {
  }

  // ---- the tree of the crowd ------------------------------------------------------------------------

  lemma SecondMultiple(x: nat, w: nat)
    requires 0 < w < x && x % w == 0
    ensures 2 * w <= x
  {
    assert x == (x / w) * w;
    if x / w <= 1 {
      MulMono(x / w, 1, w);
      assert false;
    }
    MulMono(2, x / w, w);
  }

  /** Above the last level the first range holds the whole crowd. */
  lemma WiderHoldsAll(xx: Hasher, k: nat, threshold: nat, es: seq<Element>, n: int)
    requires Crowded(xx, k, threshold, es) && 0 <= n < 64 / k
    ensures HasLevel(k, n) && Within(xx, es, Bucket(k, n, 0)) == es
  {
    hide Pow2, Within, Bucket;
    LastLevel(k);
    LevelDivides(k, n, 64 / k);
    SecondMultiple(LevelWidth(k, n), LastWidth(k));
    FirstBucket(k, n);
    var t := Bucket(k, n, 0);
    forall e | e in es
      ensures In(t, xx(e.id))
    {
      var i :| 0 <= i < |es| && es[i] == e;
    }
    WithinAll(xx, es, t);
  }

  /** So the tree reaches the first range of every level. */
  lemma {:induction false} FirstReached(p: Params, es: seq<Element>, nodes: Nodes, live: set<Tuple>, n: nat)
    requires Crowded(p.xx, p.k, p.threshold, es) && Working(p, es, nodes, live, {}) && n <= 64 / p.k
    ensures HasLevel(p.k, n) && Reaches(p, nodes, live, n, Bucket(p.k, n, 0))
  {
    hide Pow2, Within, Working, Bucket, IsBucket, LevelWidth, Crowded;
    CrowdedOk(p.xx, p.k, p.threshold, es);
    LastLevel(p.k);
    if n == 0 {
      TopReached(p, es, nodes, live);
      TopIsBucket(p.k, 0);
    } else {
      LevelDivides(p.k, n, 64 / p.k);
      FirstReached(p, es, nodes, live, n - 1);
      WiderHoldsAll(p.xx, p.k, p.threshold, es, n - 1);
      BucketNest(p.k, n - 1, n, 0);
      Down(p, es, nodes, live, n - 1, Bucket(p.k, n - 1, 0), Bucket(p.k, n, 0));
    }
  }

  /** The first range of the last level is a leaf that holds the crowd. */
  lemma CrowdIsLeaf(p: Params, es: seq<Element>, nodes: Nodes, live: set<Tuple>) returns (r: Tuple)
    requires Crowded(p.xx, p.k, p.threshold, es) && Working(p, es, nodes, live, {}) && Crisp(p, es, nodes, live)
    ensures r == FirstLeaf(p.k) && r in live && r in nodes && !nodes[r].divided && nodes[r].level == 64 / p.k
    ensures Crowd(p.k, p.threshold) <= nodes[r].count <= p.threshold
  {
    hide Pow2, Within, Working, Bucket, IsBucket, Crowd, Spot, FirstLeaf, Crowded;
    CrowdedOk(p.xx, p.k, p.threshold, es);
    var n, a := 64 / p.k, Crowd(p.k, p.threshold);
    LastLevel(p.k);
    r := FirstLeaf(p.k);
    BucketUnique(p.k, n, r, 0);
    FirstReached(p, es, nodes, live, n);
    NoneHoldsAll(p.xx, p.k, p.threshold, es, r);
    CrowdInside(p.xx, p.k, p.threshold, es, a);
    WithinAll(p.xx, es[..a], r);
    WithinTake(p.xx, es, r, a);
    TopReached(p, es, nodes, live);
  }

  lemma CrowdInside(xx: Hasher, k: nat, threshold: nat, es: seq<Element>, a: nat)
    requires Crowded(xx, k, threshold, es) && a <= Crowd(k, threshold)
    ensures a < |es| && forall e | e in es[..a] :: In(FirstLeaf(k), xx(e.id))
  {
    hide LastWidth, IsBucket;
    forall e | e in es[..a]
      ensures In(FirstLeaf(k), xx(e.id))
    {
      var i :| 0 <= i < a && es[i] == e;
    }
  }

  lemma CrowdOverflows(p: Params, es: seq<Element>, nodes: Nodes, live: set<Tuple>, batch: seq<Element>)
    requires Crowded(p.xx, p.k, p.threshold, es) && Working(p, es, nodes, live, {}) && Crisp(p, es, nodes, live)
    requires batch == es[..p.threshold + 1 - Crowd(p.k, p.threshold)]
    ensures !Fits(p, es, nodes, live, batch)
  {
    hide Pow2, Within, Working, Fits, LevelWidth, IsBucket, FirstLeaf, Spot, Crisp, Crowded;
    CrowdedOk(p.xx, p.k, p.threshold, es);
    var r := CrowdIsLeaf(p, es, nodes, live);
    WorkingShape(p, es, nodes, live, {});
    LastLevel(p.k);
    NarrowIsLast(p.k, 64 / p.k);
    CrowdInside(p.xx, p.k, p.threshold, es, |batch|);
    NarrowLeafOverflows(p, es, nodes, live, batch, r);
  }

  /** A filled container, and a batch of distinct ids it holds already, that do not fit. */
  method NarrowIsDivided(xx: Hasher, k: nat, threshold: nat, es: seq<Element>) returns (d: Diff, batch: seq<Element>)
    requires Crowded(xx, k, threshold, es)
    ensures fresh(d) && d.Valid() && d.p == Params(xx, k, threshold) && d.sl == es && Crisp(d.p, d.sl, d.nodes, d.live)
    ensures NoCollision(xx, d.sl) && DistinctIds(batch) && NoCollision(xx, batch) && batch <= d.sl
    ensures !Fits(d.p, d.sl, d.nodes, d.live, batch)
  {
    hide Working, Crisp, Fits, Crowded, Rising, LastWidth;
    CrowdedOk(xx, k, threshold, es);
    CrowdedRises(xx, k, threshold, es);
    RisingApart(xx, es);
    d := NewContainer(xx, k, threshold);
    CrowdFits(d.p, d.nodes, d.live, es);
    assert [] + es == es;
    Fill(d, es);
    batch := es[..threshold + 1 - Crowd(k, threshold)];
    CrowdOverflows(d.p, es, d.nodes, d.live, batch);
  }

  // ---- such ids exist -----------------------------------------------------------------------------------

  /** A hash function that gives an id its length. */
  function Length(id: string): (h: u64) {
    if |id| < TWO64 then |id| else 0
  }

  lemma CrowdExists(k: nat, threshold: nat)
    requires 1 <= k <= 62 && 1 <= threshold < 2 * LastWidth(k)
    ensures exists es :: Crowded(Length, k, threshold, es)
  {
    hide LastWidth;
    SpotsAreHashes(k, threshold);
    var es := seq(threshold + 1, (i: nat) requires 0 <= i < threshold + 1 => Element(seq(Spot(k, threshold, i), j => 'x'), ""));
    assert Crowded(Length, k, threshold, es);
  }

  lemma SpotsAreHashes(k: nat, threshold: nat)
    requires 1 <= k <= 62 && 1 <= threshold < 2 * LastWidth(k)
    ensures forall i: nat | i <= threshold :: Spot(k, threshold, i) < TWO64
  {
    hide Pow2;
    LastLevel(k);
    Pow2Of64();
    LastWidthIs(k);
    Pow2Divides(64, 64 % k + 1);
    Doubles(64 % k);
  }

  // ---- the bound is exact ------------------------------------------------------------------------------------

  /** The dirty ranges of one level. */
  ghost function AtLevel(nodes: Nodes, dirty: set<Tuple>, n: int): set<Tuple> {
    set d | d in dirty && d in nodes && nodes[d].level == n
  }

  /** recalculateHashes on values: from any working tree some rewriting of hashes leads to a clean one. */
  lemma {:induction false} Settles(p: Params, sl: seq<Element>, nodes: Nodes, live: set<Tuple>, dirty: set<Tuple>, bound: nat)
    returns (nodes': Nodes)
    requires Working(p, sl, nodes, live, dirty) && dirty <= live <= nodes.Keys && forall d | d in dirty :: 0 <= nodes[d].level < bound
    ensures Working(p, sl, nodes', live, {}) && Rewritten(p, sl, nodes, nodes', live)
    decreases bound, |AtLevel(nodes, dirty, bound - 1)|
  {
    hide Working, Rewritten, Rehashed, ParentMark;
    if dirty == {} {
      RewrittenSame(p, sl, nodes, live);
      nodes' := nodes;
    } else if AtLevel(nodes, dirty, bound - 1) == {} {
      forall d | d in dirty
        ensures nodes[d].level < bound - 1
      {
        assert d !in AtLevel(nodes, dirty, bound - 1);
      }
      nodes' := Settles(p, sl, nodes, live, dirty, bound - 1);
    } else {
      var d :| d in AtLevel(nodes, dirty, bound - 1);
      var once, left := SettlesOne(p, sl, nodes, live, dirty, d);
      nodes' := Settles(p, sl, once, live, left, bound);
      RewrittenChain(p, sl, nodes, once, nodes', live);
    }
  }

  lemma SettlesOne(p: Params, sl: seq<Element>, nodes: Nodes, live: set<Tuple>, dirty: set<Tuple>, d: Tuple)
    returns (once: Nodes, left: set<Tuple>)
    requires Working(p, sl, nodes, live, dirty) && dirty <= live <= nodes.Keys && d in dirty
    ensures Working(p, sl, once, live, left) && Rewritten(p, sl, nodes, once, live) && left <= live <= once.Keys
    ensures forall c | c in left :: 0 <= once[c].level && (c in dirty || once[c].level < nodes[d].level)
    ensures forall c | c in live :: once[c].level == nodes[c].level
    ensures AtLevel(once, left, nodes[d].level) == AtLevel(nodes, dirty, nodes[d].level) - {d}
  {
    hide IsBucket, Bucket, LevelWidth, HasLevel, Pow2, Child, Children, Within, Working, Rewritten, Gather;
    WorkingShape(p, sl, nodes, live, dirty);
    RehashKeeps(p, sl, nodes, live, dirty, d);
    RewrittenOnce(p, sl, nodes, live, d);
    ParentLevel(p, nodes, live, d);
    DirtyLevels(p, sl, nodes, live, dirty);
    once, left := nodes[d := Rehashed(p, sl, nodes, d)], dirty - {d} + ParentMark(nodes[d]);
    WorkingShape(p, sl, once, live, left);
  }

  lemma SettledTree(p: Params, sl: seq<Element>, nodes: Nodes, live: set<Tuple>, dirty: set<Tuple>) returns (nodes': Nodes)
    requires Working(p, sl, nodes, live, dirty) && Crisp(p, sl, nodes, live)
    ensures Working(p, sl, nodes', live, {}) && Crisp(p, sl, nodes', live)
  {
    hide Working, Crisp, Rewritten;
    DirtyLevels(p, sl, nodes, live, dirty);
    nodes' := Settles(p, sl, nodes, live, dirty, 65);
    RewrittenKeeps(p, sl, nodes, nodes', live);
  }

  lemma AddedSharp(p: Params, sl: seq<Element>, nodes: Nodes, live: set<Tuple>, x: u64)
    requires Shape(p, nodes, live) && StepFits(p, sl, nodes, live, x)
    ensures Sharp(p, sl, nodes, live, AddedNodes(p, sl, nodes, live, x), AddedLive(p, sl, nodes, live, x), x)
  {
    hide IsBucket, Bucket, LevelWidth, HasLevel, Pow2, Child, Within, Roomy, Placed, Sharp, LeafAt, Bumped, DividedAt;
    var r := LeafAt(p, nodes, live, x);
    LeafFacts(p, nodes, live, r);
    if nodes[r].count + 1 <= p.threshold {
      SharpLeaf(p, sl, nodes, live, x, r);
    } else {
      SharpDivided(p, sl, nodes, live, x, r);
    }
  }

  lemma SharpIsCrisp(p: Params, sl: seq<Element>, nodes0: Nodes, live0: set<Tuple>, nodes: Nodes, live: set<Tuple>, x: u64)
    requires Sharp(p, sl, nodes0, live0, nodes, live, x) && CrispBut(p, sl, nodes0, live0, x)
    ensures Crisp(p, sl, nodes, live)
  {
  }

  /** Adding elements in hash order, on values. */
  lemma {:induction false} Adds(p: Params, sl: seq<Element>, nodes: Nodes, live: set<Tuple>, dirty: set<Tuple>, batch: seq<Element>)
    returns (nodes': Nodes, live': set<Tuple>, dirty': set<Tuple>)
    requires Working(p, sl, nodes, live, dirty) && Crisp(p, sl, nodes, live)
    requires Fits(p, sl, nodes, live, batch) && Rising(p.xx, sl + batch)
    ensures Working(p, sl + batch, nodes', live', dirty') && Crisp(p, sl + batch, nodes', live')
    decreases |batch|
  {
    hide Working, Crisp, CrispBut, Sharp, StepFits, AddedNodes, AddedLive, Upsert, Shape, Rising, Awaiting, Roomy;
    if batch == [] {
      assert sl + batch == sl;
      nodes', live', dirty' := nodes, live, dirty;
    } else {
      var e := batch[0];
      var x, sl' := p.xx(e.id), sl + [e];
      assert sl' + batch[1..] == sl + batch;
      RisingParts(p.xx, sl', batch[1..]);
      UpsertEnd(p.xx, sl, e);
      RisingIsNew(p.xx, sl, [e]);
      WorkingShape(p, sl, nodes, live, dirty);
      StepFitsIsRoomy(p, sl', nodes, live, x);
      UpsertAwaits(p, sl, e, nodes, live, dirty);
      UpsertNew(p, sl, e, nodes, live);
      var marked := AddedWorks(p, sl', nodes, live, dirty, x);
      AddedSharp(p, sl', nodes, live, x);
      var n1, l1 := AddedNodes(p, sl', nodes, live, x), AddedLive(p, sl', nodes, live, x);
      SharpIsCrisp(p, sl', nodes, live, n1, l1, x);
      nodes', live', dirty' := Adds(p, sl', n1, l1, marked, batch[1..]);
    }
  }

  lemma EmptyTree(p: Params) returns (nodes: Nodes, live: set<Tuple>)
    requires p.Ok()
    ensures Working(p, [], nodes, live, {}) && Crisp(p, [], nodes, live)
  {
    hide Working, Crisp, IsBucket, LevelWidth, HasLevel, Pow2, Roomy, Grow, GrowDirty;
    EmptyIsRoomy(p);
    TopIsWide(p.k);
    NewTreeWorks(p);
    NewTreeCrisp(p);
    var G := Grow(p, [], Top, 0, 0);
    live := {Top} + G.Keys;
    nodes := SettledTree(p, [], map[Top := Seed] + G, live, GrowDirty(p, [], Top, 0, 0, {}) + {Top});
  }

  /** A tree over the crowd and a batch that does not fit it. */
  lemma CrowdedTree(p: Params, es: seq<Element>) returns (nodes: Nodes, live: set<Tuple>, batch: seq<Element>)
    requires Crowded(p.xx, p.k, p.threshold, es)
    ensures Ready(p, es, nodes, live, batch) && !Fits(p, es, nodes, live, batch)
  {
    hide Working, Crisp, Fits, Crowded, Rising, NoCollision, LastWidth;
    CrowdedOk(p.xx, p.k, p.threshold, es);
    CrowdedRises(p.xx, p.k, p.threshold, es);
    RisingApart(p.xx, es);
    var n0, l0 := EmptyTree(p);
    CrowdFits(p, n0, l0, es);
    assert [] + es == es;
    var n1, l1, dirty := Adds(p, [], n0, l0, {}, es);
    live := l1;
    nodes := SettledTree(p, es, n1, l1, dirty);
    batch := es[..p.threshold + 1 - Crowd(p.k, p.threshold)];
    CrowdOverflows(p, es, nodes, live, batch);
    assert es == batch + es[|batch|..];
    RisingParts(p.xx, batch, es[|batch|..]);
    RisingApart(p.xx, batch);
  }

  /** A working container and a batch of distinct ids, neither with colliding hashes. */
  ghost predicate Ready(p: Params, sl: seq<Element>, nodes: Nodes, live: set<Tuple>, batch: seq<Element>) {
    Working(p, sl, nodes, live, {}) && NoCollision(p.xx, sl) && DistinctIds(batch) && NoCollision(p.xx, batch)
  }

  /** With divide factor 2^k, batches of distinct ids that do not collide always fit, whatever the hash
      function and the container, exactly when the threshold is at least twice the last width. */
  lemma AlwaysFitsIff(k: nat, threshold: nat)
    requires 1 <= k <= 62 && 1 <= threshold
    ensures 2 * LastWidth(k) <= threshold <==>
              forall xx: Hasher, sl, nodes, live, batch | Ready(Params(xx, k, threshold), sl, nodes, live, batch) ::
                Fits(Params(xx, k, threshold), sl, nodes, live, batch)
  {
    hide Working, Fits, NoCollision, DistinctIds, LastWidth, Crowded;
    if 2 * LastWidth(k) <= threshold {
      forall xx: Hasher, sl, nodes, live, batch | Ready(Params(xx, k, threshold), sl, nodes, live, batch)
        ensures Fits(Params(xx, k, threshold), sl, nodes, live, batch)
      {
        DistinctBatchFits(Params(xx, k, threshold), sl, nodes, live, batch);
      }
    } else {
      CrowdExists(k, threshold);
      var es :| Crowded(Length, k, threshold, es);
      var p := Params(Length, k, threshold);
      var nodes, live, batch := CrowdedTree(p, es);
      assert Ready(Params(Length, k, threshold), es, nodes, live, batch);
    }
  }
}
