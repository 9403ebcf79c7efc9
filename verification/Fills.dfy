/** Containers filled in hash order, and how far their trees reach. */
module Fills {
  import opened Options
  import opened Geometry
  import opened Buckets
  import opened Elements
  import opened Tree
  import opened Updates
  import opened Batches
  import opened Fitting
  import opened Canonical
  import opened Rounds
  import opened Container

  // ---- following the tree ---------------------------------------------------------------------------------

  /** The tree reaches bucket t of level n. */
  ghost predicate Reaches(p: Params, nodes: Nodes, live: set<Tuple>, n: int, t: Tuple) {
    t in live && t in nodes && nodes[t].level == n && IsBucket(p.k, n, t)
  }

  lemma TopReached(p: Params, sl: seq<Element>, nodes: Nodes, live: set<Tuple>)
    requires Working(p, sl, nodes, live, {})
    ensures Reaches(p, nodes, live, 0, Top) && nodes[Top].divided
  {
    TopIsBucket(p.k, 0);
  }

  /** A range that holds more than the threshold is divided, so its pieces are reached. */
  lemma Down(p: Params, sl: seq<Element>, nodes: Nodes, live: set<Tuple>, n: int, t: Tuple, c: Tuple)
    requires Working(p, sl, nodes, live, {}) && Reaches(p, nodes, live, n, t)
    requires nodes[t].divided || p.threshold < |Within(p.xx, sl, t)|
    requires IsBucket(p.k, n + 1, c) && Sub(c, t)
    ensures nodes[t].divided && Reaches(p, nodes, live, n + 1, c)
  {
    hide IsBucket, Bucket, LevelWidth, HasLevel, Pow2, Child, Within, Roomy, Placed, BottomTuple, Width;
    Descend(p, nodes, live, t, c.from);
    BucketUnique(p.k, n + 1, c, c.from);
  }

  lemma LevelIs(p: Params, nodes: Nodes, live: set<Tuple>, n: int, t: Tuple)
    requires Shape(p, nodes, live) && t in live && IsBucket(p.k, n, t)
    ensures Reaches(p, nodes, live, n, t)
  {
    hide IsBucket, Bucket, LevelWidth, HasLevel, Pow2, Child;
    assert Placed(p, nodes, live, t);
    SameLevel(p.k, n, nodes[t].level, t);
  }

  /** The leaf around a hash is unique and hangs under the bucket around it. */
  lemma TheLeaf(p: Params, nodes: Nodes, live: set<Tuple>, x: u64, r: Tuple, u: Tuple, t: Tuple, n: int, w: Tuple)
    requires Shape(p, nodes, live) && r in live && In(r, x) && !nodes[r].divided && nodes[r].parent == Some(u)
    requires t in live && In(t, x) && !nodes[t].divided && IsBucket(p.k, n + 1, t) && IsBucket(p.k, n, w) && Sub(t, w)
    ensures r == t && u == w
  {
    hide IsBucket, Bucket, LevelWidth, HasLevel, Pow2, Child;
    LeafIsDeepest(p, nodes, live, r, t, x);
    LeafIsDeepest(p, nodes, live, t, r, x);
    LeafFacts(p, nodes, live, t);
    LevelIs(p, nodes, live, n + 1, t);
    assert Placed(p, nodes, live, t);
    BucketProper(p.k, n + 1, t);
    BucketUnique(p.k, n, w, t.from);
  }

  // ---- the elements -----------------------------------------------------------------------------------------

  ghost predicate Rising(xx: Hasher, es: seq<Element>) {
    forall i, j | 0 <= i < j < |es| :: xx(es[i].id) < xx(es[j].id)
  }

  lemma {:induction false} InsertEnd(xx: Hasher, sl: seq<Element>, e: Element)
    requires forall f | f in sl :: xx(f.id) < xx(e.id)
    ensures Insert(xx, sl, e) == sl + [e] && forall f | f in sl :: f.id != e.id
  {
    if sl != [] {
      assert sl[0] in sl && sl == [sl[0]] + sl[1..];
      InsertEnd(xx, sl[1..], e);
    }
  }

  lemma UpsertEnd(xx: Hasher, sl: seq<Element>, e: Element)
    requires Rising(xx, sl + [e])
    ensures Upsert(xx, sl, e) == sl + [e]
  {
    hide Insert, Without;
    forall f | f in sl
      ensures xx(f.id) < xx(e.id)
    {
      var i :| 0 <= i < |sl| && sl[i] == f;
      assert (sl + [e])[i] == f && (sl + [e])[|sl|] == e;
    }
    InsertEnd(xx, sl, e);
    WithoutAbsent(sl, e.id);
  }

  /** Setting elements in hash order appends them. */
  lemma {:induction false} SetAppends(xx: Hasher, sl: seq<Element>, batch: seq<Element>)
    requires Rising(xx, sl + batch)
    ensures UpsertAll(xx, sl, batch) == sl + batch
    decreases |batch|
  {
    if batch == [] {
      assert sl + batch == sl;
    } else {
      hide Upsert;
      var n := |batch| - 1;
      var all, before := sl + batch, sl + batch[..n];
      assert all == before + [batch[n]];
      RisingPrefix(xx, before, batch[n]);
      SetAppends(xx, sl, batch[..n]);
      UpsertEnd(xx, before, batch[n]);
    }
  }

  lemma RisingPrefix(xx: Hasher, before: seq<Element>, e: Element)
    requires Rising(xx, before + [e])
    ensures Rising(xx, before)
  {
    var all := before + [e];
    forall i, j | 0 <= i < j < |before|
      ensures xx(before[i].id) < xx(before[j].id)
    {
      assert all[i] == before[i] && all[j] == before[j];
    }
  }

  function Part(xx: Hasher, e: Element, t: Tuple): seq<Element> {
    if In(t, xx(e.id)) then [e] else []
  }

  lemma WithinOne(xx: Hasher, a: Element, t: Tuple)
    ensures Within(xx, [a], t) == Part(xx, a, t)
  {
    assert [a][1..] == [];
  }

  lemma WithinTwo(xx: Hasher, a: Element, b: Element, t: Tuple)
    ensures Within(xx, [a, b], t) == Part(xx, a, t) + Part(xx, b, t)
  {
    assert [a, b][1..] == [b];
    WithinOne(xx, b, t);
  }

  lemma WithinThree(xx: Hasher, a: Element, b: Element, c: Element, t: Tuple)
    ensures Within(xx, [a, b, c], t) == Part(xx, a, t) + Part(xx, b, t) + Part(xx, c, t)
  {
    assert [a, b, c][1..] == [b, c];
    WithinTwo(xx, b, c, t);
  }

  lemma WithinFour(xx: Hasher, a: Element, b: Element, c: Element, d: Element, t: Tuple)
    ensures Within(xx, [a, b, c, d], t) == Part(xx, a, t) + Part(xx, b, t) + Part(xx, c, t) + Part(xx, d, t)
  {
    assert [a, b, c, d][1..] == [b, c, d];
    WithinThree(xx, b, c, d, t);
  }

  lemma RisingParts(xx: Hasher, sl: seq<Element>, batch: seq<Element>)
    requires Rising(xx, sl + batch)
    ensures Rising(xx, sl) && Rising(xx, batch)
    ensures forall e, f | e in batch && f in sl :: xx(f.id) < xx(e.id)
  {
    var all := sl + batch;
    forall i, j | 0 <= i < j < |sl|
      ensures xx(sl[i].id) < xx(sl[j].id)
    {
      assert all[i] == sl[i] && all[j] == sl[j];
    }
    forall i, j | 0 <= i < j < |batch|
      ensures xx(batch[i].id) < xx(batch[j].id)
    {
      assert all[|sl| + i] == batch[i] && all[|sl| + j] == batch[j];
    }
    forall e, f | e in batch && f in sl
      ensures xx(f.id) < xx(e.id)
    {
      var i :| 0 <= i < |batch| && batch[i] == e;
      var j :| 0 <= j < |sl| && sl[j] == f;
      assert all[j] == f && all[|sl| + i] == e;
    }
  }

  lemma RisingApart(xx: Hasher, es: seq<Element>)
    requires Rising(xx, es)
    ensures NoCollision(xx, es) && DistinctIds(es)
  {
    forall a, b | a in es && b in es && xx(a.id) == xx(b.id)
      ensures a.id == b.id
    {
      var i :| 0 <= i < |es| && es[i] == a;
      var j :| 0 <= j < |es| && es[j] == b;
      assert i == j;
    }
  }

  /** New elements in hash order fit when the last level's ranges are no wider than the threshold. */
  lemma RisingFits(p: Params, sl: seq<Element>, nodes: Nodes, live: set<Tuple>, batch: seq<Element>)
    requires Working(p, sl, nodes, live, {}) && Rising(p.xx, sl + batch) && LastWidth(p.k) <= p.threshold
    ensures Fits(p, sl, nodes, live, batch)
  {
    hide Working, Fits, NoCollision, DistinctIds, Rising, LastWidth;
    RisingApart(p.xx, sl + batch);
    NewBatchFits(p, sl, nodes, live, batch);
  }

  lemma RisingIsNew(xx: Hasher, sl: seq<Element>, batch: seq<Element>)
    requires Rising(xx, sl + batch)
    ensures NewIds(sl, batch)
  {
    hide Rising;
    RisingParts(xx, sl, batch);
    RisingApart(xx, batch);
  }

  lemma SameFactor(a: nat, b: nat)
    requires Pow2(a) == Pow2(b)
    ensures a == b
  {
    hide Pow2;
    if a < b {
      Pow2Divides(b, a);
    }
    if b < a {
      Pow2Divides(a, b);
    }
  }

  method NewContainer(xx: Hasher, k: nat, threshold: nat) returns (d: Diff)
    requires Params(xx, k, threshold).Ok()
    ensures fresh(d) && d.Valid() && d.Tight() && d.p == Params(xx, k, threshold) && d.sl == [] && Crisp(d.p, d.sl, d.nodes, d.live)
  {
    hide Pow2, Working, Crisp;
    FactorAtLeastTwo(k);
    d := new Diff(xx, Pow2(k), threshold);
    WorkingShape(d.p, d.sl, d.nodes, d.live, {});
    SameFactor(k, d.p.k);
  }

  /** Set on a crisp container with elements in hash order. */
  method Fill(d: Diff, batch: seq<Element>)
    requires d.Valid() && Crisp(d.p, d.sl, d.nodes, d.live) && Rising(d.p.xx, d.sl + batch)
    requires Fits(d.p, d.sl, d.nodes, d.live, batch)
    modifies d
    ensures d.Valid() && d.sl == old(d.sl) + batch && Crisp(d.p, d.sl, d.nodes, d.live)
    ensures Untouched(old(d.nodes), old(d.live), d.nodes, d.live) && (old(d.Tight()) ==> d.Tight())
  {
    hide Working, Crisp, Untouched, Rising, Fits, NewIds;
    RisingIsNew(d.p.xx, d.sl, batch);
    SetAppends(d.p.xx, d.sl, batch);
    d.Set(batch);
  }
}
