/** When Set never divides a range narrower than the divide factor.  genTupleRanges would cut such a
    range into pieces without a hash, and getBottomRange would then divide by zero. */
module Fitting {
  import opened Geometry
  import opened Buckets
  import opened Elements
  import opened Tree
  import opened Growth
  import opened Updates
  import opened Batches

  // ---- one addElement on values -------------------------------------------------------------------

  /** The leaf around x below t, which the descent of addElement ends at. */
  ghost function LeafBelow(p: Params, nodes: Nodes, live: set<Tuple>, t: Tuple, x: u64): (r: Tuple)
    requires Shape(p, nodes, live) && t in live && In(t, x)
    ensures r in live && In(r, x) && !nodes[r].divided
    decreases 65 - nodes[t].level
  {
    if nodes[t].divided then
      Descend(p, nodes, live, t, x);
      LiveIsProper(p, nodes, live, t);
      LeafBelow(p, nodes, live, Bucket(p.k, nodes[t].level + 1, x), x)
    else t
  }

  ghost function LeafAt(p: Params, nodes: Nodes, live: set<Tuple>, x: u64): (r: Tuple)
    requires Shape(p, nodes, live)
    ensures r in live && In(r, x) && !nodes[r].divided
  {
    LeafBelow(p, nodes, live, Top, x)
  }

  lemma LeafIsUnique(p: Params, nodes: Nodes, live: set<Tuple>, x: u64, r: Tuple)
    requires Shape(p, nodes, live) && r in live && In(r, x) && !nodes[r].divided
    ensures r == LeafAt(p, nodes, live, x)
  {
    hide HasLevel, LevelWidth, Pow2, IsBucket, Bucket, Placed, LeafAt;
    var s := LeafAt(p, nodes, live, x);
    LeafIsDeepest(p, nodes, live, r, s, x);
    LeafIsDeepest(p, nodes, live, s, r, x);
  }

  /** addElement for hash x divides no narrow range: the leaf around x is wide if it overflows, and no
      narrow piece of it would be divided in turn. */
  ghost predicate StepFits(p: Params, sl: seq<Element>, nodes: Nodes, live: set<Tuple>, x: u64)
    requires p.Ok() && live <= nodes.Keys
  {
    && Roomy(p, sl)
    && forall r | r in live && In(r, x) && !nodes[r].divided && p.threshold < nodes[r].count + 1 ::
         HasLevel(p.k, nodes[r].level) && p.Df() <= LevelWidth(p.k, nodes[r].level)
  }

  lemma StepFitsIsRoomy(p: Params, sl: seq<Element>, nodes: Nodes, live: set<Tuple>, x: u64)
    requires p.Ok() && live <= nodes.Keys && StepFits(p, sl, nodes, live, x)
    ensures Roomy(p, sl)
  {
  }

  /** The range map after addElement. */
  ghost function AddedNodes(p: Params, sl: seq<Element>, nodes: Nodes, live: set<Tuple>, x: u64): Nodes
    requires Shape(p, nodes, live) && StepFits(p, sl, nodes, live, x)
  {
    var r := LeafAt(p, nodes, live, x);
    LeafFacts(p, nodes, live, r);
    var bumped := Bumped(nodes, live, x, nodes[r].level, 1);
    if nodes[r].count + 1 <= p.threshold then bumped else DividedAt(p, sl, bumped, r)
  }

  ghost function AddedLive(p: Params, sl: seq<Element>, nodes: Nodes, live: set<Tuple>, x: u64): set<Tuple>
    requires Shape(p, nodes, live) && StepFits(p, sl, nodes, live, x)
  {
    var r := LeafAt(p, nodes, live, x);
    LeafFacts(p, nodes, live, r);
    if nodes[r].count + 1 <= p.threshold then live else live + Grow(p, sl, r, nodes[r].level, 0).Keys
  }

  /** Adding the elements one after the other divides no narrow range. */
  ghost predicate Fits(p: Params, sl: seq<Element>, nodes: Nodes, live: set<Tuple>, batch: seq<Element>)
    decreases |batch|
  {
    batch == [] ||
    (var sl', x := Upsert(p.xx, sl, batch[0]), p.xx(batch[0].id);
     && Shape(p, nodes, live) && StepFits(p, sl', nodes, live, x)
     && Fits(p, sl', AddedNodes(p, sl', nodes, live, x), AddedLive(p, sl', nodes, live, x), batch[1..]))
  }

  lemma FitsNext(p: Params, sl: seq<Element>, nodes: Nodes, live: set<Tuple>, batch: seq<Element>, i: int)
    requires 0 <= i < |batch| && Shape(p, nodes, live) && Fits(p, sl, nodes, live, batch[i..])
    ensures var sl', x := Upsert(p.xx, sl, batch[i]), p.xx(batch[i].id);
            && StepFits(p, sl', nodes, live, x)
            && Fits(p, sl', AddedNodes(p, sl', nodes, live, x), AddedLive(p, sl', nodes, live, x), batch[i + 1..])
  {
    hide Shape, StepFits, AddedNodes, AddedLive, Upsert;
    assert batch[i..][0] == batch[i] && batch[i..][1..] == batch[i + 1..];
  }

  // ---- a narrow leaf that is mentioned too often ------------------------------------------------------

  /** A batch whose elements all lie in one narrow leaf does not fit once the leaf's count and the
      mentions exceed the threshold. */
  lemma {:induction false} NarrowLeafOverflows(p: Params, sl: seq<Element>, nodes: Nodes, live: set<Tuple>, batch: seq<Element>, r: Tuple)
    requires Shape(p, nodes, live) && r in live && !nodes[r].divided
    requires HasLevel(p.k, nodes[r].level) && LevelWidth(p.k, nodes[r].level) < p.Df()
    requires forall e | e in batch :: In(r, p.xx(e.id))
    requires nodes[r].count <= p.threshold < nodes[r].count + |batch|
    ensures !Fits(p, sl, nodes, live, batch)
    decreases |batch|
  {
    hide IsBucket, Bucket, LevelWidth, HasLevel, Pow2, Child, Placed, Roomy, Upsert, Bumped, LeafAt;
    var sl', x := Upsert(p.xx, sl, batch[0]), p.xx(batch[0].id);
    if nodes[r].count + 1 <= p.threshold && StepFits(p, sl', nodes, live, x) {
      LeafIsUnique(p, nodes, live, x, r);
      var bumped := Bumped(nodes, live, x, nodes[r].level, 1);
      BumpedSameShape(nodes, live, x, nodes[r].level, 1);
      ShapeKept(p, nodes, bumped, live);
      BumpedAll(p, nodes, live, x, r, 1, r);
      NarrowLeafOverflows(p, sl', bumped, live, batch[1..], r);
    }
  }

  // ---- a sufficient condition on the elements -------------------------------------------------------------

  /** Every range too narrow to be divided has room for what it holds and for its share of the
      batch, counting each mention of an id. */
  ghost predicate RoomFor(p: Params, sl: seq<Element>, batch: seq<Element>)
    requires p.Ok()
  {
    forall n: int, x: u64 {:trigger Bucket(p.k, n, x)} | HasLevel(p.k, n) && LevelWidth(p.k, n) < p.Df() ::
      |Within(p.xx, sl, Bucket(p.k, n, x))| + |Within(p.xx, batch, Bucket(p.k, n, x))| <= p.threshold
  }

  lemma RoomForPrefix(p: Params, sl: seq<Element>, batch: seq<Element>, i: int)
    requires p.Ok() && Ordered(p.xx, sl) && RoomFor(p, sl, batch) && 0 <= i <= |batch|
    ensures Roomy(p, UpsertAll(p.xx, sl, batch[..i]))
  {
    hide Pow2, Within, UpsertAll;
    forall n: int, x: u64 {:trigger Bucket(p.k, n, x)} | HasLevel(p.k, n) && LevelWidth(p.k, n) < p.Df()
      ensures |Within(p.xx, UpsertAll(p.xx, sl, batch[..i]), Bucket(p.k, n, x))| <= p.threshold
    {
      UpsertAllCount(p.xx, sl, batch[..i], Bucket(p.k, n, x));
      WithinTake(p.xx, batch, Bucket(p.k, n, x), i);
    }
  }

  /** During a batch a leaf counts no more than its old elements and its share so far. */
  ghost predicate LeavesBounded(p: Params, sl: seq<Element>, sofar: seq<Element>, nodes: Nodes, live: set<Tuple>)
    requires live <= nodes.Keys
  {
    forall t | t in live && !nodes[t].divided ::
      nodes[t].count <= |Within(p.xx, sl, t)| + |Within(p.xx, sofar, t)|
  }

  lemma LeavesBoundedStep(p: Params, sl: seq<Element>, batch: seq<Element>, i: int,
                          nodes0: Nodes, live0: set<Tuple>, nodes: Nodes, live: set<Tuple>)
    requires Ordered(p.xx, sl) && 0 <= i < |batch| && live0 <= nodes0.Keys && live <= nodes.Keys
    requires LeavesBounded(p, sl, batch[..i], nodes0, live0)
    requires LeavesAfter(p, UpsertAll(p.xx, sl, batch[..i + 1]), nodes0, live0, nodes, live, p.xx(batch[i].id))
    ensures LeavesBounded(p, sl, batch[..i + 1], nodes, live)
  {
    hide Within, UpsertAll;
    forall t | t in live && !nodes[t].divided
      ensures nodes[t].count <= |Within(p.xx, sl, t)| + |Within(p.xx, batch[..i + 1], t)|
    {
      WithinSnoc(p.xx, batch, t, i);
      UpsertAllCount(p.xx, sl, batch[..i + 1], t);
    }
  }

  /** So a leaf that overflows while the batch is processed is wide enough to be divided. */
  lemma OverflowIsWide(p: Params, sl: seq<Element>, batch: seq<Element>, i: int, nodes: Nodes, live: set<Tuple>, r: Tuple)
    requires Shape(p, nodes, live) && RoomFor(p, sl, batch) && 0 <= i < |batch|
    requires LeavesBounded(p, sl, batch[..i], nodes, live)
    requires r in live && In(r, p.xx(batch[i].id)) && !nodes[r].divided && p.threshold < nodes[r].count + 1
    ensures HasLevel(p.k, nodes[r].level) && p.Df() <= LevelWidth(p.k, nodes[r].level)
  {
    hide Pow2, Within, Child;
    LeafFacts(p, nodes, live, r);
    BucketUnique(p.k, nodes[r].level, r, r.from);
    WithinSnoc(p.xx, batch, r, i);
    WithinTake(p.xx, batch, r, i + 1);
  }

  lemma LeavesBoundedFirst(p: Params, sl: seq<Element>, nodes: Nodes, live: set<Tuple>)
    requires Working(p, sl, nodes, live, {})
    ensures LeavesBounded(p, sl, [], nodes, live)
  {
    hide Within, Placed;
    forall t | t in live && !nodes[t].divided
      ensures nodes[t].count <= |Within(p.xx, sl, t)| + |Within(p.xx, [], t)|
    {
      assert Clean({}, t);
      assert Exact(p, sl, nodes, t);
    }
  }

  lemma NextHasRoom(p: Params, sl: seq<Element>, batch: seq<Element>, i: int, nodes: Nodes, live: set<Tuple>)
    requires Shape(p, nodes, live) && Ordered(p.xx, sl) && RoomFor(p, sl, batch) && 0 <= i < |batch|
    requires LeavesBounded(p, sl, batch[..i], nodes, live)
    ensures StepFits(p, UpsertAll(p.xx, sl, batch[..i + 1]), nodes, live, p.xx(batch[i].id))
  {
    hide Placed, Pow2, Within, Child, UpsertAll, Roomy, RoomFor, LeavesBounded;
    RoomForPrefix(p, sl, batch, i + 1);
    forall r | r in live && In(r, p.xx(batch[i].id)) && !nodes[r].divided && p.threshold < nodes[r].count + 1
      ensures HasLevel(p.k, nodes[r].level) && p.Df() <= LevelWidth(p.k, nodes[r].level)
    {
      OverflowIsWide(p, sl, batch, i, nodes, live, r);
    }
  }

  /** One step of the batch on a working tree gives a working tree. */
  lemma AddedWorks(p: Params, sl: seq<Element>, nodes: Nodes, live: set<Tuple>, dirty: set<Tuple>, x: u64) returns (dirty': set<Tuple>)
    requires Awaiting(p, sl, nodes, live, dirty, x) && StepFits(p, sl, nodes, live, x)
    ensures Working(p, sl, AddedNodes(p, sl, nodes, live, x), AddedLive(p, sl, nodes, live, x), dirty')
    ensures LeavesAfter(p, sl, nodes, live, AddedNodes(p, sl, nodes, live, x), AddedLive(p, sl, nodes, live, x), x)
  {
    hide IsBucket, Bucket, LevelWidth, HasLevel, Pow2, Child, Within, Roomy, Placed, Exact, Working,
         LeavesAfter, Bumped, LeafAt, DividedAt, Grow, GrowDirty;
    var r := LeafAt(p, nodes, live, x);
    LeafFacts(p, nodes, live, r);
    if nodes[r].count + 1 <= p.threshold {
      AddLeafStep(p, sl, nodes, live, dirty, x, r);
      dirty' := dirty + {r} - ParentMark(nodes[r]);
    } else {
      AddDividedStep(p, sl, nodes, live, dirty, x, r);
      dirty' := GrowDirty(p, sl, r, nodes[r].level, 0, dirty + {r}) - ParentMark(nodes[r]);
    }
  }

  lemma {:induction false} RoomFitsFrom(p: Params, sl: seq<Element>, batch: seq<Element>, i: int, nodes: Nodes, live: set<Tuple>, dirty: set<Tuple>)
    requires 0 <= i <= |batch| && live <= nodes.Keys && Ordered(p.xx, sl)
    requires Working(p, UpsertAll(p.xx, sl, batch[..i]), nodes, live, dirty) && RoomFor(p, sl, batch)
    requires LeavesBounded(p, sl, batch[..i], nodes, live)
    ensures Fits(p, UpsertAll(p.xx, sl, batch[..i]), nodes, live, batch[i..])
    decreases |batch| - i
  {
    hide Working, Shape, StepFits, AddedNodes, AddedLive, Upsert, RoomFor, LeavesBounded, LeavesAfter, Awaiting, Roomy;
    var now := UpsertAll(p.xx, sl, batch[..i]);
    WorkingShape(p, now, nodes, live, dirty);
    if i < |batch| {
      var e := batch[i];
      var x := p.xx(e.id);
      var sl' := Upsert(p.xx, now, e);
      assert batch[..i + 1][..i] == batch[..i];
      assert sl' == UpsertAll(p.xx, sl, batch[..i + 1]);
      NextHasRoom(p, sl, batch, i, nodes, live);
      RoomForPrefix(p, sl, batch, i + 1);
      UpsertAwaits(p, now, e, nodes, live, dirty);
      var dirty' := AddedWorks(p, sl', nodes, live, dirty, x);
      var nodes', live' := AddedNodes(p, sl', nodes, live, x), AddedLive(p, sl', nodes, live, x);
      WorkingShape(p, sl', nodes', live', dirty');
      LeavesBoundedStep(p, sl, batch, i, nodes, live, nodes', live');
      RoomFitsFrom(p, sl, batch, i + 1, nodes', live', dirty');
      assert batch[i..][0] == e && batch[i..][1..] == batch[i + 1..];
    }
  }

  /** Room in every narrow range is enough for a batch to fit. */
  lemma RoomFits(p: Params, sl: seq<Element>, nodes: Nodes, live: set<Tuple>, batch: seq<Element>)
    requires Working(p, sl, nodes, live, {}) && RoomFor(p, sl, batch)
    ensures Fits(p, sl, nodes, live, batch)
  {
    hide Working, Fits, RoomFor, LeavesBounded, Shape;
    WorkingShape(p, sl, nodes, live, {});
    LeavesBoundedFirst(p, sl, nodes, live);
    assert batch[..0] == [] && batch[0..] == batch;
    RoomFitsFrom(p, sl, batch, 0, nodes, live, {});
  }

  // ---- a condition on the parameters -----------------------------------------------------------------------

  /** The width of the ranges of the last level, 2^(64 mod k): the only ones narrower than the factor. */
  function LastWidth(k: nat): (w: nat)
    requires 1 <= k
  {
    LastLevel(k);
    LevelWidth(k, 64 / k)
  }

  lemma LastLevel(k: nat)
    requires 1 <= k
    ensures HasLevel(k, 64 / k) && 64 - k * (64 / k) == 64 % k
  {
    assert 64 == k * (64 / k) + 64 % k;
  }

  lemma LastQuotient(k: nat, n: int)
    requires HasLevel(k, n)
    ensures n == 64 / k <==> 64 - k * n < k
  {
    var a := 64 - k * n;
    assert k * n == n * k;
    if a < k {
      DivModUnique(64, k, n, a);
    } else {
      MulMono(n + 1, 64 / k, k);
    }
  }

  lemma NarrowIsLast(k: nat, n: int)
    requires HasLevel(k, n)
    ensures LevelWidth(k, n) < Pow2(k) <==> n == 64 / k
  {
    hide Pow2;
    LastQuotient(k, n);
    var a := 64 - k * n;
    if a < k {
      Pow2Divides(k, a);
    } else {
      Pow2Divides(a, k);
    }
  }

  ghost predicate NoCollision(xx: Hasher, es: seq<Element>) {
    forall a, b | a in es && b in es && xx(a.id) == xx(b.id) :: a.id == b.id
  }

  lemma {:induction false} IntervalSize(s: set<int>, lo: int, hi: int)
    requires lo <= hi && forall x | x in s :: lo <= x < hi
    ensures |s| <= hi - lo
    decreases hi - lo
  {
    if lo == hi {
      assert forall x :: x !in s;
      assert s == {};
    } else {
      IntervalSize(s - {hi - 1}, lo, hi - 1);
      assert hi - 1 in s ==> |s - {hi - 1}| == |s| - 1;
      assert hi - 1 !in s ==> s - {hi - 1} == s;
    }
  }

  lemma FirstHashIsNew(xx: Hasher, es: seq<Element>, t: Tuple)
    requires es != [] && DistinctIds(es) && NoCollision(xx, es)
    ensures forall e | e in Within(xx, es[1..], t) :: xx(e.id) != xx(es[0].id)
  {
    forall e | e in Within(xx, es[1..], t)
      ensures xx(e.id) != xx(es[0].id)
    {
      WithinMember(xx, es[1..], t, e);
      var j :| 0 <= j < |es[1..]| && es[1..][j] == e;
      assert es[j + 1] == e && es[0].id != es[j + 1].id;
    }
  }

  /** Distinct ids without collisions: as many elements as hashes, at most one per hash. */
  lemma {:induction false} HashesOfElements(xx: Hasher, es: seq<Element>, t: Tuple)
    requires DistinctIds(es) && NoCollision(xx, es)
    ensures var s := set e: Element | e in Within(xx, es, t) :: xx(e.id) as int;
            |s| == |Within(xx, es, t)|
  {
    if es != [] {
      var rest := es[1..];
      HashesOfElements(xx, rest, t);
      var s := set e: Element | e in Within(xx, es, t) :: xx(e.id) as int;
      var s' := set e: Element | e in Within(xx, rest, t) :: xx(e.id) as int;
      var h: int := xx(es[0].id);
      if In(t, xx(es[0].id)) {
        assert Within(xx, es, t) == [es[0]] + Within(xx, rest, t);
        assert s == {h} + s';
        FirstHashIsNew(xx, es, t);
        assert h !in s';
      } else {
        assert Within(xx, es, t) == Within(xx, rest, t);
      }
    }
  }

  lemma FewerThanWide(xx: Hasher, es: seq<Element>, t: Tuple)
    requires DistinctIds(es) && NoCollision(xx, es) && t.from <= t.to
    ensures |Within(xx, es, t)| <= t.to - t.from + 1
  {
    var s := set e: Element | e in Within(xx, es, t) :: xx(e.id) as int;
    HashesOfElements(xx, es, t);
    forall h | h in s
      ensures t.from <= h < t.to + 1
    {
      var e :| e in Within(xx, es, t) && xx(e.id) == h;
      WithinMember(xx, es, t, e);
    }
    IntervalSize(s, t.from, t.to + 1);
  }

  /** Batches of distinct ids, updates included, always fit when ids do not collide and the threshold is
      at least twice the last width. */
  lemma DistinctBatchFits(p: Params, sl: seq<Element>, nodes: Nodes, live: set<Tuple>, batch: seq<Element>)
    requires Working(p, sl, nodes, live, {}) && 2 * LastWidth(p.k) <= p.threshold && DistinctIds(batch)
    requires NoCollision(p.xx, sl) && NoCollision(p.xx, batch)
    ensures Fits(p, sl, nodes, live, batch)
  {
    hide Within, Fits, Working, Pow2, NoCollision, DistinctIds;
    WorkingShape(p, sl, nodes, live, {});
    OrderedIsDistinct(p.xx, sl);
    forall n: int, x: u64 {:trigger Bucket(p.k, n, x)} | HasLevel(p.k, n) && LevelWidth(p.k, n) < p.Df()
      ensures |Within(p.xx, sl, Bucket(p.k, n, x))| + |Within(p.xx, batch, Bucket(p.k, n, x))| <= p.threshold
    {
      var t := Bucket(p.k, n, x);
      FewerThanWide(p.xx, sl, t);
      FewerThanWide(p.xx, batch, t);
      NarrowIsLast(p.k, n);
    }
    RoomFits(p, sl, nodes, live, batch);
  }

  /** Batches of new ids need half of that. */
  lemma NewBatchFits(p: Params, sl: seq<Element>, nodes: Nodes, live: set<Tuple>, batch: seq<Element>)
    requires Working(p, sl, nodes, live, {}) && LastWidth(p.k) <= p.threshold
    requires DistinctIds(sl + batch) && NoCollision(p.xx, sl + batch)
    ensures Fits(p, sl, nodes, live, batch)
  {
    hide Within, Fits, Working, Pow2, NoCollision, DistinctIds;
    WorkingShape(p, sl, nodes, live, {});
    forall n: int, x: u64 {:trigger Bucket(p.k, n, x)} | HasLevel(p.k, n) && LevelWidth(p.k, n) < p.Df()
      ensures |Within(p.xx, sl, Bucket(p.k, n, x))| + |Within(p.xx, batch, Bucket(p.k, n, x))| <= p.threshold
    {
      var t := Bucket(p.k, n, x);
      WithinAppend(p.xx, sl, batch, t);
      FewerThanWide(p.xx, sl + batch, t);
      NarrowIsLast(p.k, n);
    }
    RoomFits(p, sl, nodes, live, batch);
  }

  lemma LastWidthIs(k: nat)
    requires 1 <= k
    ensures LastWidth(k) == Pow2(64 % k)
  {
    hide Pow2;
    LastLevel(k);
  }

  lemma Doubles(n: nat)
    ensures Pow2(n + 1) == 2 * Pow2(n) && 1 <= Pow2(n)
  {
  }

  /** A threshold of the divide factor less one is enough exactly when 64 mod k is not k - 1.  It is for
      factors 4 and 8, and is not for factor 2 and for the factor 32 of production. */
  lemma FactorLessOneIff(k: nat)
    requires 1 <= k
    ensures 2 * LastWidth(k) <= Pow2(k) - 1 <==> 64 % k != k - 1
  {
    hide LastWidth, Pow2;
    LastWidthIs(k);
    var r := 64 % k;
    Doubles(k - 1);
    Doubles(r);
    if r < k - 1 {
      Pow2Divides(k - 1, r + 1);
    }
  }
}
